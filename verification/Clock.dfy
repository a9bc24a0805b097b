/** Points in time and the durations between them. */
module Clock {
  import opened Prelude

  const NANOS_PER_SEC := 1_000_000_000
  const I64_MIN := -0x8000_0000_0000_0000
  const I64_MAX := 0x7FFF_FFFF_FFFF_FFFF

  datatype Timespec = Timespec(sec: int, nsec: int)

  datatype Duration = Duration(secs: nat, nanos: nat)

  predicate InI64(x: int) {
    I64_MIN <= x <= I64_MAX
  }

  /** What a clock that is never negative gives. */
  predicate Normal(t: Timespec) {
    0 <= t.sec <= I64_MAX && 0 <= t.nsec < NANOS_PER_SEC
  }

  function Nanos(t: Timespec): int {
    t.sec * NANOS_PER_SEC + t.nsec
  }

  function DurationNanos(d: Duration): nat {
    d.secs * NANOS_PER_SEC + d.nanos
  }

  function CheckedSub(a: int, b: int): Option<int> {
    if InI64(a - b) then Some(a - b) else None
  }

  /** `secs as u64` */
  function AsU64(x: int): nat {
    x % TWO_64
  }

  function SaturatingSubTimespec(lhs: Timespec, rhs: Timespec): Option<Duration>
    requires Normal(lhs) && Normal(rhs)
  {
    match CheckedSub(lhs.sec, rhs.sec)
    case None => None
    case Some(secs) =>
      if lhs.nsec >= rhs.nsec then Some(Duration(AsU64(secs), lhs.nsec - rhs.nsec))
      else match CheckedSub(secs, 1)
        case None => None
        case Some(subSecs) => Some(Duration(AsU64(subSecs), lhs.nsec + NANOS_PER_SEC - rhs.nsec))
  }

  /** The duration from `earlier` to `later`. */
  function Elapsed(earlier: Timespec, later: Timespec): Duration
    requires Normal(earlier) && Normal(later)
  {
    match SaturatingSubTimespec(later, earlier)
    case None => Duration(0, 0)
    case Some(d) => d
  }

  function Cmp(a: Timespec, b: Timespec): Ordering {
    var sec := Compare(a.sec, b.sec);
    if sec == Equal then Compare(a.nsec, b.nsec) else sec
  }

  /** `Add`; `None` when the seconds leave 64 bits. */
  function Plus(a: Timespec, b: Timespec): Option<Timespec>
    requires Normal(a) && Normal(b)
  {
    var nsec := (a.nsec + b.nsec) % NANOS_PER_SEC;
    var sec := (a.sec + b.sec) + (a.nsec + b.nsec) / NANOS_PER_SEC;
    if InI64(sec) then Some(Timespec(sec, nsec)) else None
  }

  function FromDuration(d: Duration): Timespec {
    Timespec(d.secs, d.nanos)
  }

  predicate DurationFits(d: Duration) {
    d.secs <= I64_MAX && d.nanos < NANOS_PER_SEC
  }

  /** Adding keeps the normal form and adds the nanoseconds exactly. */
  lemma PlusIsExact(a: Timespec, b: Timespec)
    requires Normal(a) && Normal(b)
    ensures Plus(a, b).Some? ==> Normal(Plus(a, b).value) && Nanos(Plus(a, b).value) == Nanos(a) + Nanos(b)
    ensures Plus(a, b).Some? <==> Nanos(a) + Nanos(b) < (I64_MAX + 1) * NANOS_PER_SEC
  {
  }

  /** The comparison is that of the nanoseconds. */
  lemma CmpIsByNanos(a: Timespec, b: Timespec)
    requires Normal(a) && Normal(b)
    ensures Cmp(a, b) == Compare(Nanos(a), Nanos(b))
  {
  }

  /** A later time is at the exact distance, in normal form; the borrow never underflows. */
  lemma ElapsedIsExact(earlier: Timespec, later: Timespec)
    requires Normal(earlier) && Normal(later) && Cmp(earlier, later) != Greater
    ensures DurationFits(Elapsed(earlier, later))
    ensures DurationNanos(Elapsed(earlier, later)) == Nanos(later) - Nanos(earlier)
  {
  }

  /** Waiting `d` and asking for the elapsed time gives `d` back. */
  lemma ElapsedAfterPlus(t: Timespec, d: Duration)
    requires Normal(t) && DurationFits(d) && Plus(t, FromDuration(d)).Some?
    ensures Elapsed(t, Plus(t, FromDuration(d)).value) == d
  {
  }

  /** The name and the fallback of the subtraction promise zero for a time that is not later. */
  function Saturating(earlier: Timespec, later: Timespec): nat {
    if Nanos(earlier) <= Nanos(later) then Nanos(later) - Nanos(earlier) else 0
  }

  /**
   * They keep that promise exactly when the time is not earlier: a signed subtraction does
   * not fail below zero, and the cast then gives a huge number of seconds.
   */
  lemma SaturatesExactlyWhenLater(earlier: Timespec, later: Timespec)
    requires Normal(earlier) && Normal(later)
    ensures DurationNanos(Elapsed(earlier, later)) == Saturating(earlier, later) <==> Cmp(earlier, later) != Greater
  {
  }

  /** One second backwards reads as 2^64 - 1 seconds. */
  lemma BackwardsBySecond()
    ensures Elapsed(Timespec(1, 0), Timespec(0, 0)) == Duration(TWO_64 - 1, 0)
  {
  }
}
