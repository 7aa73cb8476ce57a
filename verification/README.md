# A verified model of the lottery platform's draw, sales and account rules

This Dafny project models the parts of the platform's server that decide who wins, who holds a ticket, what is counted and
charged, and who stays logged in, and proves what they promise over all inputs and all runs. `dafny verify dfyconfig.toml`
checks everything.

The database is the state. A service call is one atomic step, also where the source reads a row before it opens its transaction;
the exception is `SkipLocked`, where reservations are interleaved transactions that lock rows. What the database or the outside
world chooses (generated ids, the rows an `ORDER BY RANDOM()` returns, clocks, found or created buyers, injected faults) is a
parameter that may take any value the source allows.

| file | what it models |
|---|---|
| `Sets`, `JsNumbers`, `Mulberry32`, `IndexMapping`, `FisherYates`, `KnownAnswers`, `DrawFairness` | ECMAScript 32-bit and double arithmetic, the seeded generator, its mapping to indexes, the in-place shuffle, known answers of them, and the limits of a draw seeded by one word |
| `WinnerAssignment`, `DrawHash`, `DrawDesk`, `LotteryStatus` | the winner loop, the draw hash, and one lottery from draft to archive with random and manual draws |
| `TicketNumbers` | zero-padded numbers, batched generation, string order |
| `Sales`, `SalesInvariant`, `SalesLedger`, `SalesRequests`, `SalesEffects`, `SalesRoundTrips`, `SalesGuards`, `BulkImport`, `SalesService` | tickets, reservations, payments, lotteries: the steps, their invariant, the ledger, amounts and idempotency, what each call does to which tickets, what undoes what, exactly when each call succeeds, the import loop, and the imperative service proved against the steps |
| `SkipLocked`, `LateCommit` | interleaved reservations with `FOR UPDATE SKIP LOCKED`, beside the other services and lottery edits; what a late commit does to a closed lottery |
| `Calendar`, `Subscriptions` | ECMAScript date overflow and subscription renewal |
| `Lockout`, `RefreshTokens` | password attempts over time, and refresh-token rotation |

Conventions: SHA-256, argon2 and JSON Web Token signing are uninterpreted functions; of the token functions only soundness is
assumed (a signed token checks to what was signed, or fails). Dates are UTC milliseconds. Money is in minor units. The sold
tickets of a draw are a sequence in whatever order the query returned them, since it has no ORDER BY; a draw is reproducible
relative to that sequence. The draw record names its algorithm `SHA256_MERSENNE_TWISTER`; the code is a Mulberry32, and that is what
is modelled.

## What turned out not to hold

Each expectation below fails for some input the code can receive. The lemmas named say exactly when it holds.

- The generator's accumulator is never truncated. For every seed it agrees with the 32-bit generator up to call k exactly when the
  k-th sum is at most 2^53, or is the first one beyond and even (`Mulberry32.AgreementIff`); that is some 4.9 million tickets.
  `Mulberry32.AccumulatorPast53Bits` gives a seed where states and outputs differ at the first sum beyond.
- The index expression takes each index from the floor or the ceiling of 2^32 / m of the 2^32 words, and from equally many exactly
  when m divides 2^32 (`IndexMapping.DrawnIndexUniformIff`, up to m = 2^21, where the double product is exact). The generator does
  not output every word, though: pairs of states mix alike, and at least 8192 words never come out, for any seed
  (`DrawFairness.OutputsMissWords`). So this evenness is one of words, not of the generator's outputs.
- The shuffle loop reaches every order of the tickets by exactly one choice vector (`FisherYates.ShuffleIsBijective`), but the draw
  depends on its seed through one 32-bit word. From 13 tickets on there are more orders than words, so some order comes from no
  seed, whatever SHA-256 does (`DrawFairness.SomeOrderHasNoSeed`). For 2 to 12 tickets counting does not decide it.
- "All winners are published" holds exactly from COMPLETED on and, vacuously, when there are no winners
  (`DrawDesk.EveryReachableLottery`); a manual draw without entries is such a case (`DrawDesk.EmptyManualDrawIsVacuouslyPublished`).
- A reservation holds its stated quantity exactly when no ticket numbers were named or as many as the quantity
  (`SalesRequests.ReservedQuantityIff`).
- `ticketsSold` is not the number of live SOLD tickets: a rejected sale gives its tickets back exactly but leaves the counter raised
  (`SalesRoundTrips.RejectUndoesSaleButNotCounter`). The ledger says what the counter is (`SalesLedger.SalesLedger`).
- `ticketsSold` can be below a lottery's own live sales: a run from the empty tables shows it (`SalesLedger.CounterCanMissSales`).
  A finalized payment is counted for its tickets' lottery exactly when it names that lottery, which the code does not check
  (`SalesLedger.FinalizeCountsRightIffLotteriesAgree`), and an import row is counted rightly exactly when its unvalidated quantity
  is not negative (`SalesLedger.ImportCountsIffNotNegative`). With both, the counter covers the sales
  (`SalesLedger.CounterCoversLiveSales`).
- A payment request that passes its checks fails exactly when the reservation has expired, but its row is stored, and repeating the
  call with the same key reports success with a payment that has no tickets (`SalesRequests.PaymentFailsIffExpired`). A used
  idempotency key is replayed exactly when it is not empty; an empty one is never looked up but is stored, so its second use fails
  (`SalesRequests.ReservationReplays`, `SalesRequests.PaymentReplays`).
- An import row reported as an error may have sold its tickets: exactly when the fault came after its commit
  (`BulkImport.EveryRowSettles`).
- A reservation reads the lottery's status before its transaction. Whatever happens until its commit, a lottery that is not SELLING
  by then, say CLOSED, or DRAWING with its draw recorded, is SELLING again afterwards exactly when it was PUBLISHED at that read,
  and else stays as it is (`LateCommit.LateCommitReopensIff`). `LateCommit.CommitReopensClosedLottery` and
  `LateCommit.CommitReopensDrawnLottery` are such runs from the empty tables.
- Twelve monthly renewals equal one yearly renewal exactly when none of the eleven months between is too short for the day
  (`Calendar.TwelveMonthsEqualOneYearIff`), and a renewal from a later base never ends earlier exactly when the day does not spill
  over the next month (`Calendar.AddingAMonthKeepsOrderIff`).
- An approval adds its period to the time left exactly when it finds the subscription ACTIVE; initiating the payment for a renewal
  makes it AWAITING_PAYMENT first (`Subscriptions.ApprovalKeepsRemainingTimeIff`).
- A subscription whose slip was approved automatically is ACTIVE without an expiry date. An ACTIVE subscription can never be expired
  by the job exactly when it was approved automatically and never by an administrator (`Subscriptions.NeverExpiresIff`).

## Model

| member | source | states |
|---|---|---|
| JsNumbers.AddIsExact | src/common/utils/crypto.util.ts:49 | JavaScript additions of integers are exact up to 2^53 |
| JsNumbers.OddSumIsRounded | src/common/utils/crypto.util.ts:49 | just past 2^53 an odd sum becomes an even double |
| JsNumbers.RoundingError | src/modules/draw/draw.service.ts:60 | rounding a number to a double lifts it by at most 2^-53 of itself |
| JsNumbers.RoundsToNearest | src/common/utils/crypto.util.ts:49 | rounding to a multiple gives the nearest one, and of two equally near ones the even one |
| JsNumbers.DoubleSpacing | src/common/utils/crypto.util.ts:49 | a double is rounded to multiples of the power of two that leaves 53 significant bits |
| JsNumbers.BitwiseMeaning | src/common/utils/crypto.util.ts:51-53 | XOR and OR act on each bit by itself |
| JsNumbers.ShiftDropsBits | src/common/utils/crypto.util.ts:51-53 | the zero-filling shift by n gives the quotient by 2^n, for the three distances used |
| JsNumbers.OrAddsDisjointBits | src/common/utils/crypto.util.ts:45-46 | OR of numbers without a common bit adds them |
| Mulberry32.SeedWordIsBigEndian | src/common/utils/crypto.util.ts:43-46 | through the signed shifts and ORs, the seed is the first four digest bytes as an unsigned big-endian word |
| Mulberry32.SeededRandom.constructor | src/common/utils/crypto.util.ts:43-46 | the closure starts from the seed word |
| Mulberry32.SeededRandom.Next | src/common/utils/crypto.util.ts:48-54 | one closure call adds the increment as a double addition and returns the 32-bit Mulberry32 mix of the accumulator's low word, although every operator works on signed intermediates; the mix itself is fixed by its known answers below |
| Mulberry32.AccumulatorIsExact | src/common/utils/crypto.util.ts:48-50 | after k calls the accumulator is seed + k increments, while that is at most 2^53 |
| Mulberry32.WordStateClosedForm | src/common/utils/crypto.util.ts:48-50 | the wrapped state after k calls is (seed + k increments) mod 2^32 |
| Mulberry32.ClosureIsMulberry32 | src/common/utils/crypto.util.ts:41-55 | the never-truncated closure gives exactly the outputs of a generator that wraps to 32 bits, for every call count within 2^53 |
| Mulberry32.FirstSumPast53Bits | src/common/utils/crypto.util.ts:48-50 | for every seed, the first sum beyond 2^53 still gives the wrapped state exactly when it is even |
| Mulberry32.AgreementIff | src/common/utils/crypto.util.ts:48-50 | for every seed and call count, all calls up to the k-th see the wrapped state exactly when the k-th sum is at most 2^53 or is the first one beyond and even |
| Mulberry32.SumOneBeyond | src/common/utils/crypto.util.ts:48-54 | for every seed whose sums reach 2^53 + 1, all calls before agree, and there the states and the outputs differ |
| Mulberry32.AccumulatorPast53Bits | src/common/utils/crypto.util.ts:48-54 | such a seed |
| Mulberry32.StatesDoNotRepeat | src/common/utils/crypto.util.ts:49 | no two of 2^32 consecutive wrapped states are equal, for every seed |
| IndexMapping.JsIndexInRange | src/modules/draw/draw.service.ts:60 | the index computed in doubles is below m for every output and every m |
| IndexMapping.JsIndexIsExact | src/modules/draw/draw.service.ts:60 | up to m = 2^21 it is the exact floor of k * m / 2^32 |
| IndexMapping.HitsAreAnInterval | src/modules/draw/draw.service.ts:60 | of the numbers below n, those that give one index are an interval between two ceilings |
| IndexMapping.BiasIsAtMostOneOutput | src/modules/draw/draw.service.ts:60 | each index is hit by the floor or the ceiling of n / m of the n numbers |
| IndexMapping.DrawnIndexBias | src/common/utils/crypto.util.ts:53 | of the 2^32 words, exactly the floor or the ceiling of 2^32 / m make the code's own expression give a certain index, for m up to 2^21 |
| IndexMapping.UniformIffDivides | src/modules/draw/draw.service.ts:60 | in exact arithmetic, index 0 gets the ceiling, the last index the floor, and all get the same exactly when m divides the number n of arguments |
| IndexMapping.DrawnIndexUniformIff | src/common/utils/crypto.util.ts:53 | the same for the code's own expression over the 2^32 words, for m up to 2^21 |
| FisherYates.SwapExchanges | src/modules/draw/draw.service.ts:61 | the swap exchanges two positions, moves no other, and undoes itself |
| FisherYates.ShuffleDownPermutes | src/modules/draw/draw.service.ts:57-62 | the loop keeps the multiset of tickets and never touches a finished position again |
| FisherYates.ShuffleIsInjective | src/modules/draw/draw.service.ts:57-62 | two choice vectors give the same order only if they are equal |
| FisherYates.ChoicesForProduces | src/modules/draw/draw.service.ts:57-62 | for every wanted order the constructed choices produce it |
| FisherYates.ShuffleIsBijective | src/modules/draw/draw.service.ts:57-62 | choice vectors and permutations of distinct tickets correspond one to one |
| FisherYates.DrawnChoices | src/modules/draw/draw.service.ts:59-60 | the generator's indexes always form a choice vector |
| FisherYates.ChoicesComeFromMulberry32 | src/modules/draw/draw.service.ts:55-61 | position i is chosen by the (n - i)-th output of the 32-bit generator |
| FisherYates.NextChoice | src/modules/draw/draw.service.ts:60 | one call of the generator yields the choice of position i |
| FisherYates.ShuffleInPlace | src/modules/draw/draw.service.ts:57-62 | the in-place swaps leave the array in the order given by the drawn choices, and use one output per position |
| KnownAnswers.OutputsOfSeedZero | src/common/utils/crypto.util.ts:48-54 | from seed word 0 the first two outputs are 0x4434b462 and 0x159c37, computed through every constant, shift and operator |
| KnownAnswers.DrawOfSeedZero | src/modules/draw/draw.service.ts:53-62 | a digest that starts with four zero bytes draws three tickets in the order second, third, first |
| DrawFairness.TwinsMixAlike | src/common/utils/crypto.util.ts:50-53 | two states of each of 8192 pairs give the same output |
| DrawFairness.OutputsMissWords | src/common/utils/crypto.util.ts:48-54 | over all states at most 2^32 - 8192 different words are output |
| DrawFairness.SomeChoicesAreNeverDrawn | src/modules/draw/draw.service.ts:55-62 | from 13 tickets on some choice vector is drawn from no seed word |
| DrawFairness.SomeOrderIsNeverDrawn | src/modules/draw/draw.service.ts:55-62 | so some order of 13 or more distinct tickets is the shuffle's result for no seed word |
| DrawFairness.SomeOrderHasNoSeed | src/modules/draw/draw.service.ts:53-62 | so, whatever the hash function, some order of 13 or more sold tickets comes from no seed string |
| WinnerAssignment.NextUnused | src/modules/draw/draw.service.ts:88-91 | the inner loop stops at the next ticket not used so far, or at the end |
| WinnerAssignment.AwardPrize | src/modules/draw/draw.service.ts:84-115 | the loop over the quantity awards the next unused tickets to one prize and stops early only when tickets run out |
| WinnerAssignment.AssignWinners | src/modules/draw/draw.service.ts:77-119 | the nested loop returns the prizes in order, each repeated by its quantity, zipped with the tickets at their first occurrence |
| WinnerAssignment.NothingToSkip | src/modules/draw/draw.service.ts:88-91 | with distinct tickets the skip loop never skips |
| WinnerAssignment.FirstUsesAreDistinct | src/modules/draw/draw.service.ts:79-101 | whatever the ticket list, the used-set lets each id through once and loses none |
| WinnerAssignment.WinnersAreDistinctSoldTickets | src/modules/draw/draw.service.ts:77-119 | exactly min(sum of quantities, tickets) winners, the i-th ticket for the i-th prize unit, no ticket twice |
| WinnerAssignment.WinnersPerPrize | src/modules/draw/draw.service.ts:81-119 | each prize has as many winners as it has units, as far as the tickets reach after the prizes before it |
| WinnerAssignment.HigherRanksFillFirst | src/modules/draw/draw.service.ts:25-119 | if any winner has a prize, every higher-ranked prize has all its winners |
| WinnerAssignment.WinnersOfPrize | src/modules/draw/draw.service.ts:81-119 | the winners of one prize are consecutive shuffled tickets after those of the prizes before it |
| WinnerAssignment.EveryWinnerBelongsToAPrize | src/modules/draw/draw.service.ts:81-119 | every winner lies in the stretch of some prize |
| DrawHash.DrawTextIsInjective | src/common/utils/crypto.util.ts:36-39 | the hashed text determines lottery, seed and timestamp when id and seed contain no colon, although the timestamp does |
| DrawHash.ColonInSeedIsAmbiguous | src/common/utils/crypto.util.ts:36-39 | with a colon in the seed two records share one text |
| DrawDesk.RecordEntriesIff | src/modules/draw/draw.service.ts:235-259 | recording a manual draw succeeds exactly when every entry names a known prize and a known ticket not used before |
| DrawDesk.RecordEntriesInOrder | src/modules/draw/draw.service.ts:235-259 | then it adds one winner per entry, in the order of the entries |
| DrawDesk.ManualDrawOutcome | src/modules/draw/draw.service.ts:198-269 | the whole manual draw: exact success condition, exactly the entries as winners, one record with the hash of id, seed and time, and nothing else changed |
| DrawDesk.AnyOrderAwardsSoldTickets | src/modules/draw/draw.service.ts:57-119 | whatever order the shuffle gives, distinct sold tickets win, slot by slot, and no slot stays empty while tickets are left |
| DrawDesk.RandomDrawPicksSoldTickets | src/modules/draw/draw.service.ts:43-119 | the same for the order the seed gives |
| DrawDesk.RandomDrawOutcome | src/modules/draw/draw.service.ts:22-133 | the whole random draw: it happens exactly for the owner of a CLOSED lottery that is not deleted, with prizes and sold tickets and (as the invariant gives for CLOSED) no draw yet; then it writes one record with the hash of id, seed and time, as many unpublished winners as prize units or tickets reach, each another sold ticket with its own buyer, and DRAWING |
| DrawDesk.CallSucceedsIff | src/modules/lottery/lottery.service.ts:254-293 | the table of transitions: every lottery and draw call succeeds exactly for the owner, on a lottery not deleted, from its listed statuses and with what it needs, leads to its listed status, and answers NotFound exactly to others than the owner and on deleted lotteries |
| DrawDesk.StepKeepsConsistent | src/modules/draw/draw.service.ts:22-293 | every lottery and draw call keeps: one draw exactly from DRAWING on, verifiable, winners on distinct tickets, published exactly from COMPLETED on |
| DrawDesk.StepMovesForward | src/modules/lottery/lottery.service.ts:254-293 | the status only moves forward, and a draw and its winners never change except for their publication |
| DrawDesk.RunsAreConsistent | src/modules/draw/draw.service.ts:22-293 | the same over every run from any consistent point |
| DrawDesk.EveryReachableLottery | src/modules/draw/draw.service.ts:29-158 | in every reachable state a draw exists, uniquely, exactly in DRAWING, COMPLETED or ARCHIVED, it verifies, and when all winners are published |
| DrawDesk.DrawIsReproducible | src/modules/draw/draw.service.ts:17-133 | run again with the recorded seed over the same ticket sequence, a random draw gives the recorded winners, in every later state |
| DrawDesk.EmptyManualDrawIsVacuouslyPublished | src/modules/draw/draw.service.ts:198-269 | a manual draw without entries has all of no winners published while DRAWING |
| DrawDesk.VerificationDetectsTampering | src/modules/draw/draw.service.ts:271-293 | where the hash separates the two texts, verification accepts exactly the unchanged seed and time |
| DrawDesk.DrawAwards | src/modules/draw/draw.service.ts:54-119 | generator, shuffle and winner loop together give the specified winners in the seed's order |
| DrawDesk.Desk.PublishLottery | src/modules/lottery/lottery.service.ts:254-269 | publishing, exactly by the owner of a DRAFT with at least one prize: only the status changes; a refused call changes nothing, and the invariant holds |
| DrawDesk.Desk.CloseLottery | src/modules/lottery/lottery.service.ts:271-277 | closing, exactly by the owner and from PUBLISHED or SELLING: only the status changes; the invariant holds |
| DrawDesk.Desk.ArchiveLottery | src/modules/lottery/lottery.service.ts:279-285 | archiving, exactly by the owner and from COMPLETED, likewise |
| DrawDesk.Desk.DeleteLottery | src/modules/lottery/lottery.service.ts:287-293 | deleting, exactly by the owner and from DRAFT, likewise |
| DrawDesk.Desk.RunRandomDraw | src/modules/draw/draw.service.ts:22-133 | the random draw succeeds exactly for the owner of a CLOSED lottery with prizes and sold tickets, and then writes one record with its hash, winners on distinct sold tickets, and DRAWING; a refused call changes nothing, and the invariant holds |
| DrawDesk.Desk.RecordManualDraw | src/modules/draw/draw.service.ts:198-269 | row-by-row writing with rollback: it succeeds exactly for the owner of a CLOSED lottery when every entry is recordable, with one winner per entry in order and one record; else the lottery is exactly as before |
| DrawDesk.Desk.WriteEntries | src/modules/draw/draw.service.ts:234-259 | the loop over the entries records all of them or reports the first bad one |
| DrawDesk.Desk.PublishDrawResults | src/modules/draw/draw.service.ts:135-158 | publishing results, exactly by the owner and from DRAWING: all winners get the same publication time and the lottery is COMPLETED; a refused call changes nothing |
| TicketNumbers.TicketNumberRoundTrip | src/modules/lottery/lottery.service.ts:151-180 | all numbers of a lottery have one length and parse back to their number |
| TicketNumbers.TicketNumberWidth | src/modules/lottery/lottery.service.ts:162 | a number has at least four digits, exactly four when the last number is below 10000, and else just as many as the last number needs |
| TicketNumbers.StringOrderIsNumericOrder | src/modules/tickets/ticket.service.ts:280-294 | on digit strings of one length, string order is numeric order and equal strings are equal numbers |
| TicketNumbers.UnpaddedOrderDiffers | src/modules/lottery/lottery.service.ts:151-180 | without padding the orders differ |
| TicketNumbers.AscendingPageIsNumeric | src/modules/tickets/ticket.service.ts:280-294 | for numbers of one length, a page ordered by ticketNumber is ascending as strings exactly when it lists the numerically smallest available tickets in order |
| TicketNumbers.GeneratedPageIsNumeric | src/modules/tickets/ticket.service.ts:280-294 | for any subset of a lottery's generated tickets, a page in string order is the padded numerically smallest of them, in numeric order |
| TicketNumbers.GenerateBatch | src/modules/lottery/lottery.service.ts:163-178 | one batch is the consecutive padded numbers from its start to its end |
| TicketNumbers.PreGenerateTickets | src/modules/lottery/lottery.service.ts:151-180 | the batches together are the range, each number once and in order, each written in decimal with at least four digits, with exactly four if and only if the last number is below 10000, and else just as wide as the last number; every batch but the last has 1000 numbers, and none is empty |
| TicketNumbers.RangeIsAscending | src/modules/lottery/lottery.service.ts:151-180 | every number of the range occurs, and the list is strictly ascending as strings |
| TicketNumbers.AcceptedRange | src/modules/lottery/lottery.service.ts:95-104 | creation accepts exactly the ranges with totalTickets numbers |
| SalesInvariant.ApplyReservationKeeps | src/modules/tickets/ticket.service.ts:98-116 | reserving available tickets keeps the joint invariant |
| SalesInvariant.CancelKeeps | src/modules/tickets/ticket.service.ts:139-159 | so does cancelling |
| SalesInvariant.ConfirmKeeps | src/modules/tickets/ticket.service.ts:172-194 | and confirming, repeats included |
| SalesInvariant.FinalizeKeeps | src/modules/tickets/ticket.service.ts:196-222 | and finalizing, which gives every sold ticket its payment's buyer |
| SalesInvariant.ReleasePaidKeeps | src/modules/payments/payment.service.ts:605-616 | and releasing the tickets of a rejected payment |
| SalesInvariant.InitiateKeeps | src/modules/payments/payment.service.ts:42-99 | and initiating a payment, also when the confirmation inside fails |
| SalesInvariant.ImportKeeps | src/modules/payments/payment.service.ts:1768-1850 | and an import row, wherever it stops |
| SalesInvariant.StepKeepsConsistent | src/modules/tickets/ticket.service.ts:36-222 | every call keeps the invariant |
| SalesInvariant.RunKeepsConsistent | src/modules/tickets/ticket.service.ts:36-222 | every run from a consistent state keeps it |
| SalesInvariant.EveryReachableState | src/modules/tickets/ticket.service.ts:36-222 | in every reachable state a ticket's status says exactly which links it has, open, confirmed and cancelled reservations have exactly the tickets they may have, none is both, a SOLD ticket's buyer is its payment's, an unpaid ticket names no buyer, and each key indexes its one row |
| SalesLedger.StepFollows | src/modules/tickets/ticket.service.ts:196-222 | each call raises a counter by the tickets it newly sells plus those it counts again |
| SalesLedger.LedgerFrom | src/modules/tickets/ticket.service.ts:196-222 | the ledger between any two states of a run |
| SalesLedger.SalesLedger | src/modules/tickets/ticket.service.ts:206-219 | over every run ticketsSold = live SOLD tickets + tickets that ever left SOLD + SOLD tickets counted again |
| SalesLedger.ImportCountsIffNotNegative | src/modules/payments/payment.service.ts:1768-1850 | an import row of a known lottery moves the counter by what it sells exactly when its quantity is not negative |
| SalesLedger.FinalizeCountsRightIffLotteriesAgree | src/modules/tickets/ticket.service.ts:196-222 | a finalized payment is counted for its tickets' lottery exactly when the payment names that lottery |
| SalesLedger.RunKeepsAgreement | src/modules/payments/payment.service.ts:42-99 | if every payment request names its reservation's lottery, payments and tickets agree on the lottery in every reachable state |
| SalesLedger.CounterCoversLiveSales | src/modules/payments/payment.service.ts:605-616 | then ticketsSold never falls below the lottery's live SOLD tickets |
| SalesLedger.CounterCanMissSales | src/modules/payments/payment.service.ts:73-84 | without that, a run from the empty tables ends with a lottery's ticketsSold below its live SOLD tickets |
| SalesRequests.ReservedQuantityIff | src/modules/tickets/ticket.service.ts:62-116 | a new reservation holds its quantity exactly when the request selects that many tickets, and no other reservation changes |
| SalesRequests.RunKeepsOpenHoldsQuantity | src/modules/tickets/ticket.service.ts:36-222 | then open reservations hold their quantity in every reachable state |
| SalesRequests.FirstPaymentMovesHeldTickets | src/modules/payments/payment.service.ts:42-99 | the first payment takes exactly the reservation's tickets, from RESERVED to PENDING_PAYMENT |
| SalesRequests.AmountMatchesTickets | src/modules/payments/payment.service.ts:57-58 | in every run it charges the price times the number of tickets it takes |
| SalesRequests.PaymentFailsIffExpired | src/modules/payments/payment.service.ts:42-99 | a request that passes its checks fails exactly when the reservation has expired; its row stays without tickets and is replayed as success |
| SalesRoundTrips.CancelUndoesReserve | src/modules/tickets/ticket.service.ts:36-159 | cancelling a reservation puts the ticket table back exactly as it was before, for random and manual selection |
| SalesRoundTrips.HoldLastsFifteenMinutes | src/modules/tickets/ticket.service.ts:161-194 | a reservation can be confirmed up to and including 15 minutes after it was made and is expired exactly from then on, and expiry restores the tickets |
| SalesRoundTrips.RejectUndoesSaleButNotCounter | src/modules/payments/payment.service.ts:586-642 | reserve, pay, approve and reject leave the ticket table exactly as it was, and ticketsSold raised by the tickets that came back |
| SalesRequests.KeysAreUsedOnce | prisma/schema.prisma:554-576 | no two reservations and no two payments share an idempotency key, in every reachable state |
| SalesRequests.ReservationReplays | src/modules/tickets/ticket.service.ts:38-47 | after any calls in between, a used key returns the first reservation and changes no table |
| SalesRequests.PaymentReplays | src/modules/payments/payment.service.ts:43-48 | the same for payments |
| BulkImport.ImportAll | src/modules/payments/payment.service.ts:1766-1850 | one result per row |
| BulkImport.ImportOnlyChangesAvailable | src/modules/payments/payment.service.ts:1768-1850 | an import changes only tickets that were AVAILABLE |
| BulkImport.ShortRow | src/modules/payments/payment.service.ts:1768-1850 | a row that gets to its payment ends under review exactly when too few tickets are available, and then changes no ticket and no counter |
| BulkImport.EveryRowSettles | src/modules/payments/payment.service.ts:1768-1850 | seen from before to after the import, a row has taken exactly its quantity of formerly available tickets, SOLD to its buyer and held by its payment, if its transaction committed, and none otherwise; the reply says approved exactly if nothing failed after that, and an error also when it did |
| BulkImport.NoTicketGoesToTwoRows | src/modules/payments/payment.service.ts:1768-1850 | different rows take disjoint tickets from the tables, rows reported as errors after their commit included, and their payments are different rows |
| BulkImport.PaymentIdIsNew | src/modules/payments/payment.service.ts:1768-1850 | no row's payment is in the tables before the import |
| BulkImport.AmountsMatchCounter | src/modules/payments/payment.service.ts:1768-1850 | the approved amounts, plus those of rows sold but reported as errors, are the price times the rise of ticketsSold |
| BulkImport.NothingMisreported | src/modules/payments/payment.service.ts:1768-1850 | without a fault after a commit there are no such rows |
| SalesEffects.ReserveTakesSelected | src/modules/tickets/ticket.service.ts:62-116 | a reservation takes available tickets of its lottery, the named ones or the number asked for, and changes no other ticket |
| SalesEffects.CancelFreesHeld | src/modules/tickets/ticket.service.ts:139-159 | cancelling an open reservation frees exactly the tickets it held, of every link; any other id changes nothing |
| SalesEffects.ConfirmMovesHeld | src/modules/tickets/ticket.service.ts:172-194 | a confirmation moves exactly the held tickets to the payment; a failed one pays for nothing |
| SalesEffects.FinalizeSellsPaid | src/modules/tickets/ticket.service.ts:196-222 | finalizing sells exactly the payment's tickets to its buyer, and raises one counter, of the payment's lottery, by their number |
| SalesEffects.ApprovalSellsPaid | src/modules/payments/payment.service.ts:521-548 | an approval does that and sets the status; a refused one changes nothing |
| SalesEffects.RejectionFreesPaid | src/modules/payments/payment.service.ts:586-616 | a rejection frees exactly the payment's tickets, waiting or sold, of every link; a refused one changes nothing |
| SalesGuards.ReserveSucceedsIff | src/modules/tickets/ticket.service.ts:36-137 | a request that is no replay succeeds exactly when the lottery exists, is not deleted, is PUBLISHED or SELLING, its sale end has not passed, enough tickets are available and the key is new; each refusal has its error and changes nothing; a success writes one reservation for 15 minutes and leaves the lottery SELLING |
| SalesGuards.NamedNumbersIff | src/modules/tickets/ticket.service.ts:65-78 | comparing the two counts accepts named numbers exactly when none is named twice and each is available, ticket numbers being unique within a lottery |
| SalesGuards.ConfirmSucceedsIff | src/modules/tickets/ticket.service.ts:172-194 | a confirmation succeeds exactly when the reservation exists, is not cancelled and its time has not passed, and writes no payment and no lottery |
| SalesGuards.InitiateSucceedsIff | src/modules/payments/payment.service.ts:42-99 | a payment request that is no replay succeeds exactly when its reservation exists, is neither cancelled nor out of time, its lottery exists and its key is new; the error of each other case, and the row written, with price times quantity |
| SalesGuards.ApproveSucceedsIff | src/modules/payments/payment.service.ts:521-548 | an approval succeeds exactly when the payment exists and is neither approved nor refunded, and writes that status only |
| SalesGuards.RejectSucceedsIff | src/modules/payments/payment.service.ts:586-616 | a rejection succeeds exactly when the payment exists and is neither rejected nor refunded, so also after an approval, and writes that status only |
| SalesGuards.ImportRowOutcome | src/modules/payments/payment.service.ts:1586-1662 | each way an import row ends, by its lottery, the tickets left and where a fault strikes: the reply, the payment row with the operator's own amount or else price times quantity, and the counter |
| SalesService.Service.Reserve | src/modules/tickets/ticket.service.ts:36-137 | the reservation method: exactly when it succeeds, with each error, as stated for `SalesGuards.ReserveSucceedsIff`; the new reservation holds exactly what the request selects, no other ticket changes, and the invariant holds |
| SalesService.Service.Cancel | src/modules/tickets/ticket.service.ts:139-159 | cancelling frees what an open reservation held and changes no other ticket; the invariant holds |
| SalesService.Service.Expire | src/modules/tickets/ticket.service.ts:161-170 | expiring frees what an open reservation held from its expiry time on and changes nothing before; the invariant holds |
| SalesService.Service.Confirm | src/modules/tickets/ticket.service.ts:172-194 | confirming succeeds exactly for a reservation that is not cancelled and not out of time, and moves the held tickets to the payment and no others; if it fails, the payment gets nothing; the invariant holds |
| SalesService.Service.Finalize | src/modules/tickets/ticket.service.ts:196-222 | finalizing sells the payment's tickets to its buyer and changes no other ticket; the invariant holds |
| SalesService.Service.Initiate | src/modules/payments/payment.service.ts:42-99 | the first payment of an open reservation gets exactly its tickets; exactly when it succeeds, each error and the row that stays, as stated for `SalesGuards.InitiateSucceedsIff`; the invariant holds |
| SalesService.Service.Approve | src/modules/payments/payment.service.ts:521-582 | approving, exactly of a payment neither approved nor refunded, sells the payment's tickets to its buyer and no others; a refusal changes nothing; the invariant holds |
| SalesService.Service.Reject | src/modules/payments/payment.service.ts:586-642 | rejecting, exactly of a payment neither rejected nor refunded, frees the payment's tickets and no others; a refusal changes nothing; the invariant holds |
| SalesService.Service.ImportOne | src/modules/payments/payment.service.ts:1586-1662 | one import row, of a known lottery or not and with each place it can stop at, settles and is reported as stated for the whole import; the invariant holds |
| SalesService.Service.ProcessBulkImport | src/modules/payments/payment.service.ts:1586-1662 | the row loop over any rows: one result per row in order, imported counts the approved ones, imported + errors = rows |
| SkipLocked.LockIsSafe | src/modules/tickets/ticket.service.ts:80-95 | a locking query takes rows nobody else has locked |
| SkipLocked.NextIsSafe | src/modules/tickets/ticket.service.ts:62-137 | every begin, lock, commit, abort, other call or lottery edit keeps tables consistent, open reservations exact, and lock sets available and disjoint |
| SkipLocked.CommitIsAtomicReserve | src/modules/tickets/ticket.service.ts:62-137 | at its commit a transaction does what one atomic reservation would do there and then |
| SkipLocked.OtherServicesLeaveAvailable | src/modules/payments/payment.service.ts:42-642 | cancelling, expiring, paying, approving and rejecting leave available tickets, and so all locked ones, alone |
| SkipLocked.NextIsSound | src/modules/tickets/ticket.service.ts:49-124 | without lottery edits, every event also keeps the guards true that the open transactions have read |
| SkipLocked.InterleavingRefinesAtomicCalls | src/modules/tickets/ticket.service.ts:62-137 | every interleaved run without lottery edits ends with the tables of a run of atomic calls in commit order |
| SkipLocked.AtomicCallIsARun | src/modules/tickets/ticket.service.ts:62-137 | conversely, every successful atomic reservation of random tickets is an interleaved run, whatever other transactions are open, if they have not locked its rows |
| SkipLocked.NoTicketIsPromisedTwice | src/modules/tickets/ticket.service.ts:62-137 | in every interleaved run, also with lotteries closed, drawn or edited meanwhile, lock sets are disjoint from each other and from what is held, and open reservations hold exactly their quantity (that an abort changes no table and a ticket has one reservation holds by construction) |
| LateCommit.StatusAfterCommit | src/modules/tickets/ticket.service.ts:49-124 | a commit leaves SELLING exactly when PUBLISHED was read at the beginning or the lottery is SELLING anyway, and else the row as it is |
| LateCommit.RunKeepsReading | src/modules/tickets/ticket.service.ts:49-124 | whatever runs beside it, an open transaction keeps what it read |
| LateCommit.LateCommitReopensIff | src/modules/tickets/ticket.service.ts:49-124 | over any events between a reservation's beginning and its commit, the lottery is SELLING after the commit exactly when it was PUBLISHED at the beginning or is SELLING anyway, and else its row is unchanged |
| LateCommit.CommitReopensClosedLottery | src/modules/tickets/ticket.service.ts:49-124 | a run from the empty tables in which the lottery is CLOSED before the commit and SELLING after it |
| LateCommit.CommitReopensDrawnLottery | src/modules/tickets/ticket.service.ts:49-124 | a run in which it is DRAWING before the commit and SELLING after it |
| Calendar.DecodeDay | src/common/utils/date.util.ts:25-35 | every day of every month decodes to its month and date only |
| Calendar.YearStartsOnStandardDay | src/common/utils/date.util.ts:31-35 | the month table agrees with the standard's day-of-year formula, for all years |
| Calendar.MonthStartsOnStandardDay | src/common/utils/date.util.ts:25-35 | every month starts on the standard's day within the year (0, 31, 59, 90, and so on, one more from March on in leap years), for all years |
| Calendar.StandardFieldsOfDay | src/common/utils/date.util.ts:25-35 | year, month and date read from a day are those of the standard's calendar |
| Calendar.AddMonthsByIndex | src/common/utils/date.util.ts:25-29 | adding months moves the first of the month and keeps the distance from it, also past the end of the month |
| Calendar.AddYearsIsTwelveMonthsAtOnce | src/common/utils/date.util.ts:25-35 | n years are 12 n months added at once |
| Calendar.OneMonthAddsItsOwnLength | src/common/utils/date.util.ts:25-29 | one month adds exactly the days of the base date's own month, between 28 and 31 |
| Calendar.OneMonthLater | src/common/utils/date.util.ts:25-29 | one month later is the same date and time of day in the next month, after December in January, in the standard's calendar |
| Calendar.OneYearLater | src/common/utils/date.util.ts:31-35 | one year later is the same month, date and time of day in the next year |
| Calendar.KnownMonthSteps | src/common/utils/date.util.ts:25-29 | 15 April 2026 plus one month is 15 May, and 31 January 2024 plus one month is 2 March |
| Calendar.OneYearAddsItsLength | src/common/utils/date.util.ts:31-35 | one year adds 366 days exactly when the twelve months from the base contain a leap February, and else 365 |
| Calendar.OverflowingSteps | src/common/utils/date.util.ts:25-29 | where the day first overflows, the remaining steps go on from one of the first days of the month after |
| Calendar.TwelveMonthsEqualOneYearIff | src/common/utils/date.util.ts:25-35 | twelve chained months equal one year exactly when no month on the way is too short for the day |
| Calendar.TwelveMonthsFromEarlyDays | src/common/utils/date.util.ts:25-35 | so from every day up to the 28th |
| Calendar.AddingAMonthKeepsOrderIff | src/common/utils/date.util.ts:25-29 | every later date gives a later result exactly when the day does not spill over the next month |
| Subscriptions.PeriodBounds | src/modules/plans/plans.service.ts:292-294 | one billing period is 28 to 31 days, or 365 to 366 |
| Subscriptions.ActionEffect | src/modules/plans/plans.service.ts:278-383 | the table of status transitions of every action, and that only approvals move dates, only an administrator's the expiry date |
| Subscriptions.ApprovalOutcome | src/modules/plans/plans.service.ts:278-315 | an approval succeeds exactly unless the subscription is EXPIRED or CANCELLED, and ends on the same date and time of the next month, or of the next year, counted from the old expiry date exactly if ACTIVE with time left |
| Subscriptions.RenewalsStackUp | src/modules/plans/plans.service.ts:287-294 | renewals made before the expiry date, with the expiry job in between, chain one full period each on the old expiry and keep the start date |
| Subscriptions.RenewalsNeverLosePaidTime | src/modules/plans/plans.service.ts:287-294 | n of them move the expiry by n times the shortest to n times the longest period |
| Subscriptions.TwelveRenewalsMakeAYearIff | src/modules/plans/plans.service.ts:287-294 | twelve monthly renewals end with one yearly renewal exactly when no month on the way is too short |
| Subscriptions.ApprovalKeepsRemainingTimeIff | src/modules/plans/plans.service.ts:287-294 | with over three days left, an approval moves the expiry by exactly one period from the old expiry exactly when it finds the subscription ACTIVE |
| Subscriptions.RenewalAfterInitiatedPayment | src/modules/payments/payment.service.ts:694-716 | a payment initiated on an active subscription makes its approval lose the time left |
| Subscriptions.EveryReachableSubscription | src/modules/plans/plans.service.ts:278-383 | over every run, automatic approvals included, there is an expiry date exactly if an administrator's approval took effect, and n of them leave at least one and at most n periods after the last; without one the status is never EXPIRED |
| Subscriptions.ActiveWithoutApproval | src/modules/payments/payment.service.ts:483-498 | an ACTIVE subscription without an expiry date was approved automatically |
| Subscriptions.NeverExpiresIff | src/modules/payments/payment.service.ts:483-498 | in every run, the job can never expire an ACTIVE subscription exactly if it was approved automatically and never by an administrator |
| Subscriptions.AutoApprovalHasNoExpiry | src/modules/payments/payment.service.ts:483-498 | such a run: payment initiated, slip uploaded, verified automatically |
| Subscriptions.SubscriptionTable.AutoApproveSubscription | src/modules/payments/payment.service.ts:494-497 | automatic approval of one row, from any status, no other row changed |
| Subscriptions.SubscriptionTable.ApproveSubscription | src/modules/plans/plans.service.ts:278-315 | approval of one row: exactly when it succeeds and the date it then ends on, as stated for `Subscriptions.ApprovalOutcome`; its errors, and no other row changed |
| Subscriptions.SubscriptionTable.RejectSubscription | src/modules/plans/plans.service.ts:317-333 | rejection of one row in any status, no other row changed |
| Subscriptions.SubscriptionTable.InitiateSubscriptionPayment | src/modules/payments/payment.service.ts:694-716 | initiation from any status, no other row changed |
| Subscriptions.SubscriptionTable.ExpireOverdueSubscriptions | src/modules/plans/plans.service.ts:376-383 | the job expires exactly the overdue active rows and counts them |
| Lockout.ColumnsAreTheStreak | src/modules/auth/auth.service.ts:489-502 | in every run failedLoginCount is the number of wrong passwords since the last success, and lockedUntil is 30 minutes after the last of them from the fifth on, else empty |
| Lockout.EvaluatedIff | src/modules/auth/auth.service.ts:435-452 | a password is evaluated exactly when the account is not suspended and fewer than five wrong ones came since the last success or the last is over 30 minutes ago |
| Lockout.AnswerOfRun | src/modules/auth/auth.service.ts:57-93 | in every run and at every endpoint an attempt is answered: suspended, locked up to 30 minutes after the last of five or more wrong passwords, wrong password, unverified administrator, or logged in, in this order |
| Lockout.StreakIsSpaced | src/modules/auth/auth.service.ts:185-203 | from the sixth on, every wrong password waited out the lock of the one before |
| Lockout.RateBound | src/modules/auth/auth.service.ts:446-502 | between two successes, wrong passwords evaluated in any span T number at most 5 + floor(T / 30 min), over any mix of endpoints and status changes |
| Lockout.BoundIsReached | src/common/constants/index.ts:81-82 | the bound is attained for every count up to 5 plus the lockout in milliseconds |
| Lockout.LoginAccount.LoginAsAdmin | src/modules/auth/auth.service.ts:57-93 | the admin login: its answer and columns for every account, with the unverified address turned away and the counter kept |
| Lockout.LoginAccount.LoginAsClient | src/modules/auth/auth.service.ts:171-203 | the client login: its answer and columns for every account |
| Lockout.LoginAccount.LoginUnified | src/modules/auth/auth.service.ts:667-693 | the unified login: the same answers on the same columns |
| Lockout.LoginAccount.CountFailure | src/modules/auth/auth.service.ts:463-482 | a failure raises the counter and from the fifth on sets the lock to 30 minutes later |
| RefreshTokens.RunsKeepFamilies | src/modules/auth/auth.service.ts:285-361 | every login, refresh and logout keeps: stored tokens are signed for the user in their row, and each login's tokens form a chain |
| RefreshTokens.RefreshOutcome | src/modules/auth/auth.service.ts:285-354 | a refresh succeeds exactly when the row exists, is neither revoked nor expired, the token checks out, its user exists and the new token is not stored; once the checks pass the old token is revoked in any case; the new row names the user in its role's column only |
| RefreshTokens.AtMostOneLiveTokenPerLogin | src/modules/auth/auth.service.ts:285-361 | of the tokens that go back to one login there is one per rotation, at most one is live, and that is the latest |
| RefreshTokens.ChainsHaveNoGaps | src/modules/auth/auth.service.ts:300-351 | every rotated token has its predecessor in the chain |
| RefreshTokens.OwnerAndRoleNeverChange | src/modules/auth/auth.service.ts:306-351 | signed user and role and the row's foreign key are those of the login all along the chain, for all four roles |
| RefreshTokens.RevocationIsFinal | src/modules/auth/auth.service.ts:285-361 | a revoked token stays revoked |
| RefreshTokens.TokensAreRedeemedOnce | src/modules/auth/auth.service.ts:285-304 | no token passes the checks of a refresh twice, even if the first refresh then failed |
| RefreshTokens.SessionsEndForGood | src/modules/auth/auth.service.ts:285-361 | a login without a live token never gets one again |
| RefreshTokens.LogoutEndsSession | src/modules/auth/auth.service.ts:300-361 | a logout of the live token ends its session, and so does a refresh that fails after the revocation |
| RefreshTokens.TokenTable.IssueAtLogin | src/modules/auth/auth.service.ts:609-627 | a login stores a signed token with the one foreign key of its role, exactly unless the token exists |
| RefreshTokens.TokenTable.RefreshToken | src/modules/auth/auth.service.ts:285-354 | rotation: answers and rows of every case, as stated for `RefreshTokens.RefreshOutcome` |
| RefreshTokens.TokenTable.Logout | src/modules/auth/auth.service.ts:356-361 | logout revokes the token's row, also a revoked one, and ignores an unknown token |
| RefreshTokens.TokenTable.SaveRefreshToken | src/modules/auth/auth.service.ts:580-600 | a new row, unless the token exists |

## Left out

- Slip OCR, QR and PDF reading, provider calls and heuristic scoring: foreign calls and finite tables. Their asynchronous outcomes enter the sales runs as writes of any payment status, and as approvals with finalization, at any time.
- `importPayments`: neither its branch for specific ticket numbers, which can take tickets out of other reservations, nor its other branches (payments found, created or topped up with available tickets, src/modules/payments/payment.service.ts:1263-1318) are steps of the runs. The spreadsheet parsing before the row loops and the tenant check at the start of the JSON import are not part of the model either; an unknown lottery there stops the import before its first row.
- The ticket status CANCELLED: no service call writes it. Refunds and review marks only write a payment status and are covered by the arbitrary status writes.
- Finding or creating the buyer of a payment or an import row: the buyer's id is a parameter.
- Decimal prices are integers in minor units; that `Number(ticketPrice) * quantity` is a double product is not modelled.
- Interleavings of manual ticket selection and of imports with locked reservations: they take no row locks. These calls are atomic steps in the other modules.
- Interleavings of two payment calls on one payment, of two logins on one account, and of two refreshes of one token: calls are atomic.
- How evenly the generator's own outputs fall on the indexes, and whether every order of 2 to 12 tickets comes from some seed: enumerations over 2^32 states.
- The winner's guestEmail and the masking of public results: field copies.
- Subscription transactions: a slip upload or verification step is possible at any time, whatever the transaction's own status; an approval marks all open ones APPROVED, although its comment speaks of the most recent one. Plan limits and upgrades are left out, and the caller checks of slip submission and cancellation.
- Local time zones and the limit of 8.64e15 ms on a Date.
- Lockout of staff and buyer accounts: their tables have no counter or lock columns.
- Deletion of expired refresh tokens, sessions and the user bridge table.
- Controllers, guards, DTO validation, events, e-mail, notifications, audit logs, file storage, reports and administration.
