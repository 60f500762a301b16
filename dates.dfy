/** Python's `datetime.date`: proleptic Gregorian calendar dates ordered as `(year, month, day)`. */
module Dates {
  import opened Wrappers

  const MIN_YEAR := 1
  const MAX_YEAR := 9999

  datatype Date = Date(year: int, month: int, day: int)

  predicate IsLeapYear(y: int) {
    y % 4 == 0 && (y % 100 != 0 || y % 400 == 0)
  }

  function DaysInMonth(y: int, m: int): (n: int)
    requires 1 <= m <= 12
    ensures 28 <= n <= 31
  {
    if m == 2 then (if IsLeapYear(y) then 29 else 28)
    else if m == 4 || m == 6 || m == 9 || m == 11 then 30
    else 31
  }

  /** The arguments `datetime.date(y, m, d)` accepts without raising `ValueError`. */
  predicate Valid(d: Date) {
    && MIN_YEAR <= d.year <= MAX_YEAR
    && 1 <= d.month <= 12
    && 1 <= d.day <= DaysInMonth(d.year, d.month)
  }

  /** The largest C `int`: `datetime.date` reads each of its three arguments as one. */
  const INT_MAX: int := 0x7fff_ffff

  /** `datetime.date(y, m, d)` raises `OverflowError`, not `ValueError`, when an argument does
    * not fit in a C `int`. */
  predicate Overflows(y: int, m: int, d: int) {
    !(-INT_MAX - 1 <= y <= INT_MAX && -INT_MAX - 1 <= m <= INT_MAX && -INT_MAX - 1 <= d <= INT_MAX)
  }

  /** `datetime.date(y, m, d)` for arguments that do not `Overflow`: the date, or `None` where
    * Python raises `ValueError`. */
  function MakeDate(y: int, m: int, d: int): (r: Option<Date>)
    ensures r.Some? <==> Valid(Date(y, m, d))
    ensures r.Some? ==> r.value == Date(y, m, d)
  {
    var date := Date(y, m, d);
    if Valid(date) then Some(date) else None
  }

  /** `a < b` on dates. */
  predicate Before(a: Date, b: Date) {
    a.year < b.year
    || (a.year == b.year && a.month < b.month)
    || (a.year == b.year && a.month == b.month && a.day < b.day)
  }

  /** `Before` is a strict total order: it is transitive, and exactly one of `a < b`, `a == b`,
    * `b < a` holds. */
  lemma BeforeTrichotomy(a: Date, b: Date, c: Date)
    ensures Before(a, b) || a == b || Before(b, a)
    ensures !(Before(a, b) && Before(b, a))
    ensures !Before(a, a)
    ensures Before(a, b) && Before(b, c) ==> Before(a, c)
  {
  }
}
