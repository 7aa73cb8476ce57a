/** The status column of a lottery. */
module LotteryStatus {
  datatype Status = Draft | Published | Selling | Closed | Drawing | Completed | Archived

  /** How far along a status is. */
  function Stage(s: Status): nat {
    match s
    case Draft => 0
    case Published => 1
    case Selling => 2
    case Closed => 3
    case Drawing => 4
    case Completed => 5
    case Archived => 6
  }
}
