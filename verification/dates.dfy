/** Proleptic Gregorian civil dates, the abstraction of Python's `date` and of the
    calendar fields of JavaScript's local `Date`. */
module Dates {

  datatype CivilDate = CivilDate(year: int, month: int, day: int)

  predicate IsLeap(y: int) {
    (y % 4 == 0 && y % 100 != 0) || y % 400 == 0
  }

  function DaysInMonth(y: int, m: int): (n: int)
    requires 1 <= m <= 12
    ensures 28 <= n <= 31
  {
    if m == 2 then (if IsLeap(y) then 29 else 28)
    else if m == 4 || m == 6 || m == 9 || m == 11 then 30
    else 31
  }

  predicate Valid(d: CivilDate) {
    1 <= d.month <= 12 && 1 <= d.day <= DaysInMonth(d.year, d.month)
  }

  /** Calendar order. */
  predicate Before(a: CivilDate, b: CivilDate) {
    a.year < b.year
    || (a.year == b.year && a.month < b.month)
    || (a.year == b.year && a.month == b.month && a.day < b.day)
  }

  /** The following day: a later valid date with no valid date in between. */
  function NextDay(d: CivilDate): (r: CivilDate)
    requires Valid(d)
    ensures Valid(r) && Before(d, r)
    ensures forall e :: Valid(e) && Before(d, e) ==> e == r || Before(r, e)
  {
    if d.day < DaysInMonth(d.year, d.month) then d.(day := d.day + 1)
    else if d.month < 12 then CivilDate(d.year, d.month + 1, 1)
    else CivilDate(d.year + 1, 1, 1)
  }

  /** The preceding day: an earlier valid date with no valid date in between. */
  function PrevDay(d: CivilDate): (r: CivilDate)
    requires Valid(d)
    ensures Valid(r) && Before(r, d)
    ensures forall e :: Valid(e) && Before(e, d) ==> e == r || Before(e, r)
  {
    if d.day > 1 then d.(day := d.day - 1)
    else if d.month > 1 then CivilDate(d.year, d.month - 1, DaysInMonth(d.year, d.month - 1))
    else CivilDate(d.year - 1, 12, 31)
  }

  /** Moving one day forward and one day back returns to the start, both ways. */
  lemma NextPrevInverse(d: CivilDate)
    requires Valid(d)
    ensures PrevDay(NextDay(d)) == d
    ensures NextDay(PrevDay(d)) == d
  {
  }

  /** `d` shifted by `offset` days, for the offsets the plugin uses (-1, 0, +1). */
  function Shift(d: CivilDate, offset: int): (r: CivilDate)
    requires Valid(d) && -1 <= offset <= 1
    ensures Valid(r)
    ensures offset == 0 ==> r == d
    ensures offset == 1 ==> PrevDay(r) == d
    ensures offset == -1 ==> NextDay(r) == d
  {
    NextPrevInverse(d);
    if offset == 1 then NextDay(d) else if offset == -1 then PrevDay(d) else d
  }
}
