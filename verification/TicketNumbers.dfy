/**
 Ticket numbers: zero-padded decimal strings, generated in batches when a lottery is created and
 ordered as strings ever after. Numbers stay far below 10^21, where `String(n)` would switch to
 exponent notation.
 */
module TicketNumbers {
  import opened Wrappers

  const BATCH_SIZE: nat := 1000
  const MIN_PAD: nat := 4

  // ---- String(n), padStart and their inverse ----

  function Digit(d: nat): (c: char)
    requires d < 10
    ensures '0' <= c <= '9'
  {
    ('0' as int + d) as char
  }

  predicate IsDigits(s: string) {
    forall i :: 0 <= i < |s| ==> '0' <= s[i] <= '9'
  }

  /** `String(n)`. */
  function Decimal(n: nat): (s: string)
    ensures |s| >= 1 && IsDigits(s)
  {
    if n < 10 then [Digit(n)] else Decimal(n / 10) + [Digit(n % 10)]
  }

  /** `s.padStart(width, '0')`. */
  function PadStart(s: string, width: nat): (p: string)
    ensures |p| == if |s| < width then width else |s|
    ensures IsDigits(s) ==> IsDigits(p)
    decreases width - |s|
  {
    if |s| >= width then s else PadStart("0" + s, width)
  }

  function Value(s: string): nat
    requires IsDigits(s)
  {
    if s == "" then 0 else 10 * Value(s[..|s| - 1]) + (s[|s| - 1] as int - '0' as int)
  }

  lemma {:induction false} ValueOfDecimal(n: nat)
    ensures Value(Decimal(n)) == n
  {
    if n < 10 {
      assert Decimal(n)[..0] == "";
    } else {
      ValueOfDecimal(n / 10);
      assert Decimal(n)[..|Decimal(n)| - 1] == Decimal(n / 10);
    }
  }

  lemma {:induction false} LeadingZero(s: string)
    requires IsDigits(s)
    ensures Value("0" + s) == Value(s)
  {
    if s != "" {
      LeadingZero(s[..|s| - 1]);
      assert ("0" + s)[..|s|] == "0" + s[..|s| - 1];
    }
  }

  lemma {:induction false} ValueOfPadded(s: string, width: nat)
    requires IsDigits(s)
    ensures Value(PadStart(s, width)) == Value(s)
    decreases width - |s|
  {
    if |s| < width {
      LeadingZero(s);
      ValueOfPadded("0" + s, width);
    }
  }

  lemma {:induction false} DecimalLengthMonotone(m: nat, n: nat)
    requires m <= n
    ensures |Decimal(m)| <= |Decimal(n)|
  {
    if m >= 10 {
      DecimalLengthMonotone(m / 10, n / 10);
    }
  }

  function TicketNumber(n: nat, padLen: nat): (s: string)
    ensures IsDigits(s)
  {
    PadStart(Decimal(n), padLen)
  }

  function PadLength(maxNum: nat): nat {
    if |Decimal(maxNum)| > MIN_PAD then |Decimal(maxNum)| else MIN_PAD
  }

  /** Every number of a lottery is padded to one width and can be read back. */
  lemma TicketNumberRoundTrip(n: nat, maxNum: nat)
    requires n <= maxNum
    ensures |TicketNumber(n, PadLength(maxNum))| == PadLength(maxNum)
    ensures Value(TicketNumber(n, PadLength(maxNum))) == n
  {
    DecimalLengthMonotone(n, maxNum);
    ValueOfPadded(Decimal(n), PadLength(maxNum));
    ValueOfDecimal(n);
  }

  // ---- How wide the numbers are ----

  function Pow10(n: nat): (p: nat)
    ensures p >= 1
  {
    if n == 0 then 1 else 10 * Pow10(n - 1)
  }

  lemma {:induction false} DecimalLength(n: nat)
    ensures n < Pow10(|Decimal(n)|) && (n > 0 ==> Pow10(|Decimal(n)| - 1) <= n)
  {
    if n >= 10 {
      DecimalLength(n / 10);
    } else {
      assert Pow10(1) == 10 && Pow10(0) == 1;
    }
  }

  /** The number n in decimal, at least four digits wide and else just as wide as `last` needs. */
  ghost predicate IsNumberOf(s: string, n: nat, last: nat) {
    && IsDigits(s) && Value(s) == n
    && |s| >= 4 && last < Pow10(|s|) && (|s| > 4 ==> Pow10(|s| - 1) <= last)
  }

  lemma TicketNumberWidth(n: nat, last: nat)
    requires n <= last
    ensures IsNumberOf(TicketNumber(n, PadLength(last)), n, last)
    ensures |TicketNumber(n, PadLength(last))| == 4 <==> last < 10_000
  {
    TicketNumberRoundTrip(n, last);
    DecimalLength(last);
    FourDigits();
    if |Decimal(last)| <= 4 {
      PowersIncrease(|Decimal(last)|, 4);
    } else {
      PowersIncrease(4, |Decimal(last)| - 1);
    }
  }

  lemma FourDigits()
    ensures Pow10(4) == 10_000
  {
    assert Pow10(2) == 100;
  }

  lemma {:induction false} PowersIncrease(m: nat, n: nat)
    requires m <= n
    ensures Pow10(m) <= Pow10(n)
  {
    if m < n {
      PowersIncrease(m, n - 1);
    }
  }

  // ---- String order is numeric order ----

  /** Lexicographic order, as ORDER BY compares digit strings. */
  predicate Less(a: string, b: string) {
    if b == "" then false
    else if a == "" then true
    else a[0] < b[0] || (a[0] == b[0] && Less(a[1..], b[1..]))
  }

  /** On equally long strings the last character decides last. */
  lemma {:induction false} LessOfSnoc(a: string, b: string, x: char, y: char)
    requires |a| == |b|
    ensures Less(a + [x], b + [y]) <==> Less(a, b) || (a == b && x < y)
  {
    if a == "" {
      assert a + [x] == [x] && b + [y] == [y];
    } else {
      assert (a + [x])[1..] == a[1..] + [x];
      assert (b + [y])[1..] == b[1..] + [y];
      LessOfSnoc(a[1..], b[1..], x, y);
      if a[0] == b[0] && a[1..] == b[1..] {
        assert a == [a[0]] + a[1..] && b == [b[0]] + b[1..];
      }
    }
  }

  lemma {:induction false} StringOrderIsNumericOrder(a: string, b: string)
    requires IsDigits(a) && IsDigits(b) && |a| == |b|
    ensures Less(a, b) <==> Value(a) < Value(b)
    ensures a == b <==> Value(a) == Value(b)
  {
    if a != "" {
      var a', b' := a[..|a| - 1], b[..|b| - 1];
      assert a == a' + [a[|a| - 1]] && b == b' + [b[|b| - 1]];
      StringOrderIsNumericOrder(a', b');
      LessOfSnoc(a', b', a[|a| - 1], b[|b| - 1]);
    }
  }

  /** Without one common width the two orders disagree: the reason for the padding. */
  lemma UnpaddedOrderDiffers()
    ensures Less("10", "9") && Value("9") < Value("10")
  {
    assert Value("9") == 10 * Value("") + 9 by { assert "9"[..0] == ""; }
    assert Value("10") == 10 * Value("1") by { assert "10"[..1] == "1"; }
    assert Value("1") == 1 by { assert "1"[..0] == ""; }
  }

  /** The answer to `ORDER BY "ticketNumber" ASC LIMIT limit` over a set of rows, for an order `below`. */
  ghost predicate IsAscendingPage<T>(page: seq<T>, rows: set<T>, limit: nat, below: (T, T) -> bool) {
    && |page| == (if limit < |rows| then limit else |rows|)
    && (forall i :: 0 <= i < |page| ==> page[i] in rows)
    && (forall i, j :: 0 <= i < j < |page| ==> below(page[i], page[j]))
    && (forall r, i :: r in rows && r !in page && 0 <= i < |page| ==> below(page[i], r))
  }

  predicate NumberBelow(m: int, n: int) { m < n }

  predicate AllPadded(rows: set<string>, width: nat) {
    forall r :: r in rows ==> IsDigits(r) && |r| == width
  }

  function Numbers(rows: set<string>): set<int>
    requires forall r :: r in rows ==> IsDigits(r)
  {
    set r | r in rows :: Value(r)
  }

  function Values(page: seq<string>): (values: seq<int>)
    requires forall i :: 0 <= i < |page| ==> IsDigits(page[i])
    ensures |values| == |page| && forall i :: 0 <= i < |page| ==> values[i] == Value(page[i])
  {
    if page == [] then [] else Values(page[..|page| - 1]) + [Value(page[|page| - 1])]
  }

  lemma {:induction false} SameSize(rows: set<string>, width: nat)
    requires AllPadded(rows, width)
    ensures |Numbers(rows)| == |rows|
  {
    if rows != {} {
      var r :| r in rows;
      SameSize(rows - {r}, width);
      forall s | s in rows - {r}
        ensures Value(s) != Value(r)
      {
        StringOrderIsNumericOrder(s, r);
      }
      assert Numbers(rows) == Numbers(rows - {r}) + {Value(r)};
    }
  }

  lemma InNumbers(r: string, rows: set<string>, width: nat)
    requires AllPadded(rows, width) && IsDigits(r) && |r| == width
    ensures Value(r) in Numbers(rows) <==> r in rows
  {
    if Value(r) in Numbers(rows) {
      var s :| s in rows && Value(s) == Value(r);
      StringOrderIsNumericOrder(r, s);
    }
  }

  lemma InValues(r: string, page: seq<string>, width: nat)
    requires forall i :: 0 <= i < |page| ==> IsDigits(page[i]) && |page[i]| == width
    requires IsDigits(r) && |r| == width
    ensures Value(r) in Values(page) <==> r in page
  {
    if Value(r) in Values(page) {
      var i :| 0 <= i < |page| && Values(page)[i] == Value(r);
      StringOrderIsNumericOrder(r, page[i]);
    }
    if r in page {
      var i :| 0 <= i < |page| && page[i] == r;
      assert Values(page)[i] == Value(r);
    }
  }

  /** A page is ascending as strings exactly when it lists the numerically smallest tickets in numeric order. */
  lemma AscendingPageIsNumeric(page: seq<string>, rows: set<string>, limit: nat, width: nat)
    requires AllPadded(rows, width)
    requires forall i :: 0 <= i < |page| ==> IsDigits(page[i]) && |page[i]| == width
    ensures IsAscendingPage(page, rows, limit, Less)
      <==> IsAscendingPage(Values(page), Numbers(rows), limit, NumberBelow)
  {
    SameSize(rows, width);
    forall i | 0 <= i < |page|
      ensures Values(page)[i] in Numbers(rows) <==> page[i] in rows
    {
      InNumbers(page[i], rows, width);
    }
    forall i, j | 0 <= i < j < |page|
      ensures NumberBelow(Values(page)[i], Values(page)[j]) <==> Less(page[i], page[j])
    {
      StringOrderIsNumericOrder(page[i], page[j]);
    }
    RestAbove(page, rows, width);
  }

  lemma RestAbove(page: seq<string>, rows: set<string>, width: nat)
    requires AllPadded(rows, width)
    requires forall i :: 0 <= i < |page| ==> IsDigits(page[i]) && |page[i]| == width
    ensures (forall r, i :: r in rows && r !in page && 0 <= i < |page| ==> Less(page[i], r))
      <==> (forall n, i :: n in Numbers(rows) && n !in Values(page) && 0 <= i < |page| ==>
            NumberBelow(Values(page)[i], n))
  {
    if forall n, i :: n in Numbers(rows) && n !in Values(page) && 0 <= i < |page| ==> NumberBelow(Values(page)[i], n) {
      forall r, i | r in rows && r !in page && 0 <= i < |page|
        ensures Less(page[i], r)
      {
        InValues(r, page, width);
        assert Value(r) in Numbers(rows);
        assert NumberBelow(Values(page)[i], Value(r));
        StringOrderIsNumericOrder(page[i], r);
      }
    }
    if forall r, i :: r in rows && r !in page && 0 <= i < |page| ==> Less(page[i], r) {
      forall n, i | n in Numbers(rows) && n !in Values(page) && 0 <= i < |page|
        ensures NumberBelow(Values(page)[i], n)
      {
        var r :| r in rows && Value(r) == n;
        InValues(r, page, width);
        StringOrderIsNumericOrder(page[i], r);
      }
    }
  }

  // ---- The range of a lottery ----

  datatype Range = Range(first: int, last: int)

  /** The range check on creation; None stands for an omitted field, Err for the rejected request. */
  function ResolveRange(ticketStart: Option<nat>, ticketEnd: Option<int>, totalTickets: int): Result<Range, ()> {
    var first: int := if ticketStart.Some? then ticketStart.value else 1;
    var last := if ticketEnd.Some? then ticketEnd.value else first + totalTickets - 1;
    if last - first + 1 != totalTickets then Err(()) else Ok(Range(first, last))
  }

  // ---- Batched generation ----

  function Flatten(batches: seq<seq<string>>): seq<string> {
    if batches == [] then [] else Flatten(batches[..|batches| - 1]) + batches[|batches| - 1]
  }

  /** The numbers first, first + 1, ... in order. */
  function NumberRange(first: nat, count: nat, padLen: nat): (r: seq<string>)
    ensures |r| == count
    ensures forall i :: 0 <= i < count ==> r[i] == TicketNumber(first + i, padLen)
  {
    seq(count, i requires 0 <= i < count => TicketNumber(first + i, padLen))
  }

  lemma FlattenSnoc(batches: seq<seq<string>>, batch: seq<string>)
    ensures Flatten(batches + [batch]) == Flatten(batches) + batch
  {
    assert (batches + [batch])[..|batches|] == batches;
  }

  lemma RangeConcat(first: nat, m: nat, n: nat, padLen: nat)
    ensures NumberRange(first, m, padLen) + NumberRange(first + m, n, padLen) == NumberRange(first, m + n, padLen)
  {
    var l, r := NumberRange(first, m, padLen), NumberRange(first + m, n, padLen);
    forall i | 0 <= i < m + n
      ensures (l + r)[i] == NumberRange(first, m + n, padLen)[i]
    {
      if i >= m {
        assert (l + r)[i] == r[i - m];
      }
    }
  }

  method GenerateBatch(batchStart: nat, batchEnd: int, padLen: nat) returns (tickets: seq<string>)
    requires batchEnd >= batchStart - 1
    ensures tickets == NumberRange(batchStart, batchEnd - batchStart + 1, padLen)
  {
    tickets := [];
    var i := batchStart;
    while i <= batchEnd
      invariant batchStart <= i <= batchEnd + 1
      invariant tickets == NumberRange(batchStart, i - batchStart, padLen)
    {
      tickets := tickets + [TicketNumber(i, padLen)];
      i := i + 1;
    }
  }

  /** The rows of one lottery, batch by batch: exactly the range, each number once and in order. */
  method PreGenerateTickets(total: nat, ticketStart: nat) returns (batches: seq<seq<string>>)
    ensures total > 0 ==> Flatten(batches) == NumberRange(ticketStart, total, PadLength(ticketStart + total - 1))
    ensures total == 0 ==> batches == []
    ensures forall b :: 0 <= b < |batches| ==> 0 < |batches[b]| <= 1000
    ensures forall b :: 0 <= b < |batches| - 1 ==> |batches[b]| == 1000
    ensures |Flatten(batches)| == total
    ensures forall i :: 0 <= i < total ==> IsNumberOf(Flatten(batches)[i], ticketStart + i, ticketStart + total - 1)
    ensures forall i :: 0 <= i < total ==> (|Flatten(batches)[i]| == 4 <==> ticketStart + total <= 10_000)
  {
    hide IsNumberOf, PadLength, TicketNumber, Decimal;
    batches := [];
    if total == 0 {
      return;
    }
    var count := (total + BATCH_SIZE - 1) / BATCH_SIZE;
    var maxNum := ticketStart + total - 1;
    var padLen := PadLength(maxNum);
    var b := 0;
    ghost var done := 0;
    while b < count
      invariant 0 <= b <= count
      invariant done == if b * BATCH_SIZE < total then b * BATCH_SIZE else total
      invariant Flatten(batches) == NumberRange(ticketStart, done, padLen)
      invariant forall k :: 0 <= k < |batches| ==> 0 < |batches[k]| <= BATCH_SIZE
      invariant |batches| == b && forall k :: 0 <= k < b && (k + 1) * BATCH_SIZE <= total ==> |batches[k]| == BATCH_SIZE
    {
      var batchStart := ticketStart + b * BATCH_SIZE;
      var fullEnd := ticketStart + (b + 1) * BATCH_SIZE - 1;
      var batchEnd := if fullEnd < maxNum then fullEnd else maxNum;
      var tickets := GenerateBatch(batchStart, batchEnd, padLen);
      FlattenSnoc(batches, tickets);
      RangeConcat(ticketStart, done, |tickets|, padLen);
      batches := batches + [tickets];
      done := done + |tickets|;
      b := b + 1;
    }
    forall i | 0 <= i < total
      ensures IsNumberOf(Flatten(batches)[i], ticketStart + i, maxNum)
      ensures |Flatten(batches)[i]| == 4 <==> maxNum < 10_000
    {
      TicketNumberWidth(ticketStart + i, maxNum);
    }
  }

  /** The generated numbers: every number of the range, ascending also as strings, so no two are equal. */
  lemma RangeIsAscending(first: nat, total: nat, last: nat)
    requires total > 0 && last == first + total - 1
    ensures var numbers := NumberRange(first, total, PadLength(last));
      && (forall n: nat :: first <= n <= last ==> TicketNumber(n, PadLength(last)) in numbers)
      && (forall i, j :: 0 <= i < j < total ==> Less(numbers[i], numbers[j]) && numbers[i] != numbers[j])
  {
    var numbers := NumberRange(first, total, PadLength(last));
    hide TicketNumber, PadLength, Less, Value;
    forall n: nat | first <= n <= last
      ensures TicketNumber(n, PadLength(last)) in numbers
    {
      assert numbers[n - first] == TicketNumber(n, PadLength(last));
    }
    forall i, j | 0 <= i < j < total
      ensures Less(numbers[i], numbers[j]) && numbers[i] != numbers[j]
    {
      TicketNumberRoundTrip(first + i, last);
      TicketNumberRoundTrip(first + j, last);
      StringOrderIsNumericOrder(numbers[i], numbers[j]);
    }
  }

  /**
   For any of the generated tickets, say those still available: a page of them in ascending string order lists the
   numerically smallest in numeric order, up to the limit.
   */
  lemma GeneratedPageIsNumeric(first: nat, total: nat, last: nat, rows: set<string>, page: seq<string>, limit: nat)
    requires total > 0 && last == first + total - 1
    requires forall r :: r in rows ==> r in NumberRange(first, total, PadLength(last))
    requires IsAscendingPage(page, rows, limit, Less)
    ensures AllPadded(rows, PadLength(last)) && forall i :: 0 <= i < |page| ==> page[i] in rows && IsDigits(page[i])
    ensures IsAscendingPage(Values(page), Numbers(rows), limit, NumberBelow)
    ensures forall i :: 0 <= i < |page| ==> first <= Values(page)[i] <= last
    ensures forall i :: 0 <= i < |page| ==> page[i] == TicketNumber(Values(page)[i], PadLength(last))
  {
    forall r | r in rows
      ensures IsDigits(r) && |r| == PadLength(last)
      ensures first <= Value(r) <= last && r == TicketNumber(Value(r), PadLength(last))
    {
      GeneratedRow(first, total, last, r);
    }
    hide TicketNumber, PadLength, Less, NumberRange;
    AscendingPageIsNumeric(page, rows, limit, PadLength(last));
  }

  lemma GeneratedRow(first: nat, total: nat, last: nat, r: string)
    requires total > 0 && last == first + total - 1 && r in NumberRange(first, total, PadLength(last))
    ensures IsDigits(r) && |r| == PadLength(last)
    ensures first <= Value(r) <= last && r == TicketNumber(Value(r), PadLength(last))
  {
    hide TicketNumber, PadLength, Value;
    var i :| 0 <= i < total && NumberRange(first, total, PadLength(last))[i] == r;
    TicketNumberRoundTrip(first + i, last);
  }

  /** What creation accepts is a range of totalTickets numbers whose last one is the stored ticketEnd. */
  lemma AcceptedRange(ticketStart: Option<nat>, ticketEnd: Option<int>, totalTickets: nat)
    requires totalTickets > 0
    ensures ResolveRange(ticketStart, ticketEnd, totalTickets).Ok? <==>
      ticketEnd.None? || ticketEnd.value == (if ticketStart.Some? then ticketStart.value else 1) + totalTickets - 1
    ensures ResolveRange(ticketStart, ticketEnd, totalTickets).Ok? ==>
      var r := ResolveRange(ticketStart, ticketEnd, totalTickets).value;
      0 <= r.first && r.last == r.first + totalTickets - 1 && (ticketEnd.Some? ==> r.last == ticketEnd.value)
  {
  }
}
