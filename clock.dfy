/** Abstract timestamps.

    An instant is kept as the number of whole months since year 0
    (`12 * getFullYear() + getMonth()`) and the position inside that month.
    Adding a month or a year moves the month count and keeps the position,
    which is what `setMonth(getMonth() + 1)` and `setFullYear(getFullYear() + 1)`
    do once the month overflow into the next year is carried. */
module Clock {

  datatype Instant = Instant(months: int, offset: nat)

  /** `a` is strictly earlier than `b`. */
  predicate Before(a: Instant, b: Instant) {
    a.months < b.months || (a.months == b.months && a.offset < b.offset)
  }

  /** `a` is no later than `b`. */
  predicate AtOrBefore(a: Instant, b: Instant) {
    Before(a, b) || a == b
  }

  function AddMonth(t: Instant): (r: Instant)
    ensures Before(t, r) && r.offset == t.offset
    ensures r.months == t.months + 1
  {
    Instant(t.months + 1, t.offset)
  }

  function AddYear(t: Instant): (r: Instant)
    ensures Before(t, r) && r.offset == t.offset
    ensures r.months == t.months + 12
  {
    Instant(t.months + 12, t.offset)
  }
}
