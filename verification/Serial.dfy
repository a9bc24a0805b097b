/** Serials that wrap around, their circular order, and the counter that draws them. */
module Serials {
  import opened Arithmetic
  import opened Prelude

  const U32_MAX := 0xFFFF_FFFF
  /** `u32::MAX / 2` */
  const HALF := 0x7FFF_FFFF

  /** `Serial::partial_cmp`, which always gives an ordering. */
  function SerialCmp(a: u32, b: u32): Ordering {
    var distance := if a > b then a - b else b - a;
    if distance < HALF then Compare(a, b) else Compare(b, a)
  }

  predicate IsNoOlderThan(a: u32, b: u32) {
    SerialCmp(b, a) != Greater
  }

  /** The comparison is antisymmetric, and equality of serials is equality. */
  lemma SerialCmpIsAntisymmetric(a: u32, b: u32)
    ensures SerialCmp(a, b) == Less <==> SerialCmp(b, a) == Greater
    ensures SerialCmp(a, b) == Equal <==> a == b
  {
  }

  // ---------------------------------------------------------------- calls that do not overlap

  /** A whole `next_serial`: the serial drawn from a counter, and the counter after it. */
  function Draw(counter: u32): (serial: u32)
    ensures serial != 0
  {
    if counter == 0 then 1 else counter
  }

  function Increment(x: u32): u32 {
    if x == U32_MAX then 0 else x + 1
  }

  /** The serial drawn `k` draws after `serial`. */
  function Later(serial: u32, k: nat): u32 {
    if k == 0 then serial else Draw(Increment(Later(serial, k - 1)))
  }

  /** Draws run through 1 to `u32::MAX` in a circle. */
  lemma {:induction false} LaterIsCyclic(serial: u32, k: nat)
    requires serial != 0
    ensures Later(serial, k) == (serial - 1 + k) % U32_MAX + 1
  {
    if k > 0 {
      LaterIsCyclic(serial, k - 1);
      var x := serial - 1 + (k - 1);
      ModSuccessor(x, U32_MAX);
    }
  }

  /** The counter as the object its callers share, one call at a time. */
  class SerialCounter {
    var serial: u32

    constructor ()
      ensures serial == 1
    {
      serial := 1;
    }

    method NextSerial() returns (r: u32)
      modifies this
      ensures r == Draw(old(serial)) && serial == Increment(r)
      ensures forall k: nat :: Later(r, k + 1) == Later(Draw(serial), k)
    {
      if serial == 0 {
        serial := 1;
      }
      r := serial;
      serial := Increment(serial);
      forall k: nat ensures Later(r, k + 1) == Later(Draw(serial), k) {
        LaterAdds(r, 1, k);
        assert Later(r, 1) == Draw(serial);
      }
    }
  }

  lemma ModSuccessor(x: nat, m: nat)
    requires m > 1
    ensures (x + 1) % m == if x % m == m - 1 then 0 else x % m + 1
  {
    var q, r := x / m, x % m;
    assert x == q * m + r;
    if r == m - 1 {
      assert x + 1 == (q + 1) * m + 0;
      DivModIs(x + 1, q + 1, 0, m);
    } else {
      DivModIs(x + 1, q, r + 1, m);
    }
  }

  /** Within one round, `k` draws either stay above or wrap past `u32::MAX`. */
  lemma LaterInOneRound(serial: u32, k: nat)
    requires serial != 0 && k < U32_MAX
    ensures Later(serial, k) == if serial + k <= U32_MAX then serial + k else serial + k - U32_MAX
  {
    LaterIsCyclic(serial, k);
    var x := serial - 1 + k;
    if x < U32_MAX {
      DivModIs(x, 0, x, U32_MAX);
    } else {
      DivModIs(x, 1, x - U32_MAX, U32_MAX);
    }
  }

  /**
   * The exact window: for a serial drawn `k` draws later, less than one round, the
   * comparison says it is newer exactly when `k` is below `u32::MAX / 2`, or when `k` is
   * one of the next two values and the counter wrapped in between.
   */
  lemma NewerExactlyInWindow(serial: u32, k: nat)
    requires serial != 0 && 0 < k < U32_MAX
    ensures SerialCmp(serial, Later(serial, k)) == Less <==>
      k < HALF || (k <= HALF + 1 && serial + k > U32_MAX)
    ensures IsNoOlderThan(Later(serial, k), serial) <==> SerialCmp(serial, Later(serial, k)) == Less
    ensures IsNoOlderThan(serial, Later(serial, k)) <==> SerialCmp(serial, Later(serial, k)) != Less
  {
    LaterInOneRound(serial, k);
  }

  lemma {:induction false} LaterAdds(serial: u32, i: nat, k: nat)
    ensures Later(serial, i + k) == Later(Later(serial, i), k)
    decreases k
  {
    if k > 0 {
      LaterAdds(serial, i, k - 1);
    }
  }

  /** Any window of fewer than `u32::MAX / 2` draws is totally ordered, in draw order. */
  lemma WindowIsTotallyOrdered(serial: u32, i: nat, j: nat)
    requires serial != 0 && i <= j && j - i < HALF
    ensures var a, b := Later(serial, i), Later(serial, j);
      && (SerialCmp(a, b) == Less <==> i < j)
      && (SerialCmp(a, b) == Equal <==> i == j)
      && IsNoOlderThan(b, a)
      && (IsNoOlderThan(a, b) <==> i == j)
  {
    LaterIsCyclic(serial, i);
    LaterAdds(serial, i, j - i);
    if i < j {
      NewerExactlyInWindow(Later(serial, i), j - i);
    }
  }

  // ---------------------------------------------------------------- overlapping calls

  type ThreadId = nat

  /** The two atomic accesses of a call. */
  datatype Access = Cas(t: ThreadId) | FetchAdd(t: ThreadId)

  /** The counter, the threads between their two accesses, and the serials issued so far. */
  datatype Counter = Counter(value: u32, between: set<ThreadId>, issued: seq<u32>)

  predicate Enabled(s: Counter, a: Access) {
    match a
    case Cas(t) => t !in s.between
    case FetchAdd(t) => t in s.between
  }

  function Apply(s: Counter, a: Access): Counter
    requires Enabled(s, a)
  {
    match a
    case Cas(t) => Counter(if s.value == 0 then 1 else s.value, s.between + {t}, s.issued)
    case FetchAdd(t) => Counter(Increment(s.value), s.between - {t}, s.issued + [s.value])
  }

  predicate Legal(s: Counter, acts: seq<Access>)
    decreases |acts|
  {
    acts == [] || (Enabled(s, acts[0]) && Legal(Apply(s, acts[0]), acts[1..]))
  }

  function Run(s: Counter, acts: seq<Access>): Counter
    requires Legal(s, acts)
    decreases |acts|
  {
    if acts == [] then s else Run(Apply(s, acts[0]), acts[1..])
  }

  /**
   * Positions of the counter on an unbounded line: `at` is where it is now, `marks[i]`
   * where it was when serial `i` was issued, `skips` how often an exchange took it past a
   * multiple of 2^32 before serial `i`.
   */
  datatype Line = Line(at: int, marks: seq<int>, skips: seq<int>, skipped: int)

  /** How many multiples of 2^32 are in `0..n`. */
  function Multiples(n: int): int {
    (n + (TWO_32 - 1)) / TWO_32
  }

  ghost predicate OnLine(s: Counter, l: Line) {
    && l.at >= 0 && s.value == l.at % TWO_32
    && |l.marks| == |l.skips| == |s.issued|
    && (forall i :: 0 <= i < |s.issued| ==> 0 <= l.marks[i] < l.at && s.issued[i] == l.marks[i] % TWO_32)
    && (forall i :: 0 <= i < |s.issued| ==> Between(l.marks[i], l.skips[i], l.at, l.skipped, |s.issued| - i))
    && (forall i, j :: 0 <= i < j < |s.issued| ==> Between(l.marks[i], l.skips[i], l.marks[j], l.skips[j], j - i))
  }

  /**
   * From a draw at `m` the counter came to `n` by `draws` draws and some skips; a skip
   * starts at a multiple of 2^32 at which nothing was drawn.
   */
  ghost predicate Between(m: int, skips: int, n: int, skipped: int, draws: int) {
    && m < n && n - m == draws + (skipped - skips)
    && skipped - skips <= Multiples(n) - Multiples(m + 1)
  }

  lemma MultiplesStep(n: int)
    requires n >= 0
    ensures Multiples(n + 1) == Multiples(n) + (if n % TWO_32 == 0 then 1 else 0)
  {
  }

  lemma MultiplesMonotone(a: int, b: int)
    requires 0 <= a <= b
    ensures Multiples(a) <= Multiples(b)
  {
  }

  /** The line after a draw. */
  ghost function Drawn(l: Line): Line {
    Line(l.at + 1, l.marks + [l.at], l.skips + [l.skipped], l.skipped)
  }

  lemma DrawFromMarks(s: Counter, l: Line, i: nat)
    requires OnLine(s, l) && i <= |s.issued|
    ensures Between(Drawn(l).marks[i], Drawn(l).skips[i], l.at + 1, l.skipped, |s.issued| + 1 - i)
    ensures i < |s.issued| ==> Between(l.marks[i], l.skips[i], l.at, l.skipped, |s.issued| - i)
  {
    MultiplesStep(l.at);
    if i < |s.issued| {
      assert Between(l.marks[i], l.skips[i], l.at, l.skipped, |s.issued| - i);
    }
  }

  lemma IncrementOnLine(at: nat)
    ensures Increment(at % TWO_32) == (at + 1) % TWO_32
  {
  }

  lemma DrawOnLine(s: Counter, l: Line, t: ThreadId)
    requires OnLine(s, l) && Enabled(s, FetchAdd(t))
    ensures OnLine(Apply(s, FetchAdd(t)), Drawn(l))
  {
    var l' := Drawn(l);
    var n := |s.issued|;
    forall i | 0 <= i <= n
      ensures Between(l'.marks[i], l'.skips[i], l'.at, l'.skipped, n + 1 - i)
      ensures i < n ==> Between(l.marks[i], l.skips[i], l.at, l.skipped, n - i)
    {
      DrawFromMarks(s, l, i);
    }
    IncrementOnLine(l.at);
    hide Between, Increment;
    forall i, j | 0 <= i < j <= n ensures Between(l'.marks[i], l'.skips[i], l'.marks[j], l'.skips[j], j - i) {
      if j < n {
        assert Between(l.marks[i], l.skips[i], l.marks[j], l.skips[j], j - i);
      }
    }
  }

  lemma CasOnLine(s: Counter, l: Line, t: ThreadId) returns (l': Line)
    requires OnLine(s, l) && Enabled(s, Cas(t))
    ensures OnLine(Apply(s, Cas(t)), l')
  {
    if s.value != 0 {
      return l;
    }
    l' := l.(at := l.at + 1, skipped := l.skipped + 1);
    MultiplesStep(l.at);
    forall i | 0 <= i < |s.issued| ensures Between(l'.marks[i], l'.skips[i], l'.at, l'.skipped, |s.issued| - i) {
      assert Between(l.marks[i], l.skips[i], l.at, l.skipped, |s.issued| - i);
    }
  }

  lemma {:induction false} RunOnLine(s: Counter, l: Line, acts: seq<Access>) returns (l': Line)
    requires OnLine(s, l) && Legal(s, acts)
    ensures OnLine(Run(s, acts), l')
    decreases |acts|
  {
    l' := l;
    if acts != [] {
      match acts[0]
      case Cas(t) => l' := CasOnLine(s, l, t);
      case FetchAdd(t) =>
        DrawOnLine(s, l, t);
        l' := Drawn(l);
    }
    if acts != [] {
      l' := RunOnLine(Apply(s, acts[0]), l', acts[1..]);
    }
  }

  /** Two draws of the same serial are a whole round apart. */
  lemma SameSerialIsARoundApart(m: int, skips: int, n: int, skipped: int, draws: int)
    requires 0 <= m && Between(m, skips, n, skipped, draws) && m % TWO_32 == n % TWO_32
    ensures draws >= U32_MAX
  {
    var q := n / TWO_32 - m / TWO_32;
    assert n - m == q * TWO_32;
    assert Multiples(m + 1 + q * TWO_32) == Multiples(m + 1) + q;
    MultiplesMonotone(n, m + 1 + q * TWO_32);
  }

  /**
   * Uniqueness: in every interleaving of any number of threads, from any counter value, any
   * 2^32 - 1 consecutive serials are pairwise different.
   */
  lemma DrawsAreDistinct(start: u32, acts: seq<Access>, i: nat, j: nat)
    requires Legal(Counter(start, {}, []), acts)
    requires i < j < |Run(Counter(start, {}, []), acts).issued| && j - i < U32_MAX
    ensures var issued := Run(Counter(start, {}, []), acts).issued;
            issued[i] != issued[j]
  {
    var l := RunOnLine(Counter(start, {}, []), Line(start, [], [], 0), acts);
    if l.marks[i] % TWO_32 == l.marks[j] % TWO_32 {
      SameSerialIsARoundApart(l.marks[i], l.skips[i], l.marks[j], l.skips[j], j - i);
    }
  }

  /** Every exchange finds no other thread in the middle of its call. */
  predicate NoOverlap(s: Counter, acts: seq<Access>)
    requires Legal(s, acts)
    decreases |acts|
  {
    acts == [] || ((acts[0].Cas? ==> s.between == {}) && NoOverlap(Apply(s, acts[0]), acts[1..]))
  }

  ghost predicate DrawnInTurn(s: Counter, first: u32) {
    && first != 0
    && (forall i :: 0 <= i < |s.issued| ==> s.issued[i] == Later(first, i))
    && (s.between == {} || exists t :: s.between == {t})
    && (if s.between == {} then Draw(s.value) == Later(first, |s.issued|) else s.value == Later(first, |s.issued|))
  }

  lemma {:induction false} TurnsKeep(s: Counter, acts: seq<Access>, first: u32)
    requires DrawnInTurn(s, first) && Legal(s, acts) && NoOverlap(s, acts)
    ensures DrawnInTurn(Run(s, acts), first)
    decreases |acts|
  {
    if acts != [] {
      var s' := Apply(s, acts[0]);
      match acts[0] {
        case Cas(t) => assert s'.between == {t};
        case FetchAdd(t) => assert s'.between == {};
      }
      TurnsKeep(s', acts[1..], first);
    }
  }

  /** Calls that do not overlap draw the serials in circular order, and never 0. */
  lemma CallsInTurn(start: u32, acts: seq<Access>, i: nat)
    requires Legal(Counter(start, {}, []), acts) && NoOverlap(Counter(start, {}, []), acts)
    requires i < |Run(Counter(start, {}, []), acts).issued|
    ensures Run(Counter(start, {}, []), acts).issued[i] == Later(Draw(start), i) != 0
  {
    TurnsKeep(Counter(start, {}, []), acts, Draw(start));
    LaterIsCyclic(Draw(start), i);
  }

  // ---------------------------------------------------------------- when 0 is issued

  /** Every access is by one of these threads. */
  predicate By(acts: seq<Access>, ts: set<ThreadId>) {
    forall i :: 0 <= i < |acts| ==> acts[i].t in ts
  }

  ghost predicate NeverZero(ts: set<ThreadId>, start: u32, draws: nat) {
    forall acts | Legal(Counter(start, {}, []), acts) && By(acts, ts) ::
      var issued := Run(Counter(start, {}, []), acts).issued;
      |issued| <= draws ==> 0 !in issued
  }

  /** One thread does not overlap with itself. */
  lemma {:induction false} AloneIsNoOverlap(s: Counter, acts: seq<Access>, t: ThreadId)
    requires Legal(s, acts) && By(acts, {t}) && s.between <= {t}
    ensures NoOverlap(s, acts)
    decreases |acts|
  {
    if acts != [] {
      assert acts[0].t in {t};
      AloneIsNoOverlap(Apply(s, acts[0]), acts[1..], t);
    }
  }

  /** Before the counter wraps the serials are `first`, `first + 1`, ..., whoever draws them. */
  ghost predicate InFirstRound(s: Counter, first: u32) {
    && first != 0
    && (s.issued == [] && s.between == {} ==> Draw(s.value) == first)
    && (s.issued == [] && s.between != {} ==> s.value == first)
    && (0 < |s.issued| < TWO_32 - first ==> s.value == first + |s.issued|)
    && (|s.issued| <= TWO_32 - first ==> forall i :: 0 <= i < |s.issued| ==> s.issued[i] == first + i)
  }

  lemma {:induction false} FirstRoundKeeps(s: Counter, acts: seq<Access>, first: u32)
    requires InFirstRound(s, first) && Legal(s, acts)
    ensures InFirstRound(Run(s, acts), first)
    decreases |acts|
  {
    if acts != [] {
      FirstRoundKeeps(Apply(s, acts[0]), acts[1..], first);
    }
  }

  /** Thread `t` draws until the counter is at zero, `n` times; every draw is a whole call. */
  function DrawUp(t: ThreadId, n: nat): seq<Access> {
    if n == 0 then [] else [Cas(t), FetchAdd(t)] + DrawUp(t, n - 1)
  }

  lemma {:induction false} DrawUpReachesZero(s: Counter, t: ThreadId, n: nat, last: Access)
    requires t !in s.between && s.value != 0 && n == TWO_32 - s.value
    requires last == FetchAdd(last.t) && last.t in s.between
    ensures By(DrawUp(t, n), {t}) && Legal(s, DrawUp(t, n) + [last])
    ensures var end := Run(s, DrawUp(t, n) + [last]); |end.issued| == |s.issued| + n + 1 && 0 in end.issued
    decreases n
  {
    var acts := DrawUp(t, n) + [last];
    var s1 := Apply(s, Cas(t));
    var s2 := Apply(s1, FetchAdd(t));
    var rest := DrawUp(t, n - 1) + [last];
    assert acts == [Cas(t)] + ([FetchAdd(t)] + rest);
    assert s2.between == s.between && s2.issued == s.issued + [s.value];
    if n > 1 {
      DrawUpReachesZero(s2, t, n - 1, last);
    } else {
      ZeroIsDrawn(s2, last);
      assert rest == [last];
    }
    assert ([FetchAdd(t)] + rest)[1..] == rest && Legal(s1, [FetchAdd(t)] + rest);
    assert acts[1..] == [FetchAdd(t)] + rest && Legal(s, acts);
  }

  lemma ZeroIsDrawn(s: Counter, last: Access)
    requires s.value == 0 && last == FetchAdd(last.t) && last.t in s.between
    ensures Legal(s, [last]) && Run(s, [last]).issued == s.issued + [0]
  {
    assert [last][1..] == [];
    assert Legal(Apply(s, last), []);
  }

  /** The run in which `u` does its exchange, `t` draws up to `u32::MAX`, and `u` then draws. */
  function Overlapping(t: ThreadId, u: ThreadId, start: u32): seq<Access> {
    [Cas(u)] + (DrawUp(t, TWO_32 - Draw(start)) + [FetchAdd(u)])
  }

  /** Any two threads can issue 0 from any start: one draws up to the end within a call of the other. */
  lemma OverlapCanIssueZero(t: ThreadId, u: ThreadId, start: u32)
    requires t != u
    ensures var s := Counter(start, {}, []);
            var acts := Overlapping(t, u, start);
            && Legal(s, acts) && By(acts, {t, u})
            && |Run(s, acts).issued| == TWO_32 - Draw(start) + 1 && 0 in Run(s, acts).issued
  {
    var s := Counter(start, {}, []);
    var acts := Overlapping(t, u, start);
    assert acts[1..] == DrawUp(t, TWO_32 - Draw(start)) + [FetchAdd(u)];
    DrawUpReachesZero(Apply(s, Cas(u)), t, TWO_32 - Draw(start), FetchAdd(u));
  }

  lemma AtMostOneThread(ts: set<ThreadId>) returns (t: ThreadId)
    requires |ts| <= 1
    ensures ts <= {t}
  {
    t := 0;
    if ts != {} {
      t :| t in ts;
      assert |ts - {t}| == 0;
    }
  }

  lemma TwoThreads(ts: set<ThreadId>) returns (t: ThreadId, u: ThreadId)
    requires |ts| > 1
    ensures t in ts && u in ts && t != u
  {
    t :| t in ts;
    assert |ts - {t}| >= 1;
    u :| u in ts - {t};
  }

  /**
   * When 0 is never issued: threads `ts` making up to `draws` calls on a counter at `start`
   * are safe in every interleaving exactly if there is only one of them, or the calls do
   * not reach the end of the range.
   */
  lemma ZeroIsNeverIssuedExactly(ts: set<ThreadId>, start: u32, draws: nat)
    ensures NeverZero(ts, start, draws) <==> |ts| <= 1 || draws <= TWO_32 - Draw(start)
  {
    var s := Counter(start, {}, []);
    if |ts| <= 1 || draws <= TWO_32 - Draw(start) {
      forall acts | Legal(s, acts) && By(acts, ts) && |Run(s, acts).issued| <= draws
        ensures 0 !in Run(s, acts).issued
      {
        var issued := Run(s, acts).issued;
        if |ts| <= 1 {
          var t := AtMostOneThread(ts);
          AloneIsNoOverlap(s, acts, t);
          forall i | 0 <= i < |issued| ensures issued[i] != 0 {
            CallsInTurn(start, acts, i);
          }
        } else {
          FirstRoundKeeps(s, acts, Draw(start));
        }
      }
    } else {
      var t, u := TwoThreads(ts);
      OverlapCanIssueZero(t, u, start);
      assert By(Overlapping(t, u, start), ts);
    }
  }

  /** Somewhere the draw of `u32::MAX` is followed at once by the draw of another thread. */
  predicate DrawsPastEnd(s: Counter, acts: seq<Access>)
    requires Legal(s, acts)
    decreases |acts|
  {
    && |acts| >= 2
    && (|| (s.value == U32_MAX && acts[0].FetchAdd? && acts[1].FetchAdd? && acts[1].t != acts[0].t)
        || DrawsPastEnd(Apply(s, acts[0]), acts[1..]))
  }

  lemma {:induction false} ZeroMeansDrawnPast(s: Counter, acts: seq<Access>)
    requires Legal(s, acts) && 0 !in s.issued && (s.value == 0 ==> acts == [] || acts[0].Cas?)
    ensures 0 in Run(s, acts).issued <==> DrawsPastEnd(s, acts)
    decreases |acts|
  {
    if acts != [] {
      var s', rest := Apply(s, acts[0]), acts[1..];
      if s'.value == 0 && rest != [] && rest[0].FetchAdd? {
        assert Last(Apply(s', rest[0]).issued) == 0;
        IssuedStays(Apply(s', rest[0]), rest[1..]);
      } else {
        ZeroMeansDrawnPast(s', rest);
      }
    }
  }

  lemma {:induction false} IssuedStays(s: Counter, acts: seq<Access>)
    requires Legal(s, acts)
    ensures s.issued <= Run(s, acts).issued
    decreases |acts|
  {
    if acts != [] {
      IssuedStays(Apply(s, acts[0]), acts[1..]);
    }
  }

  /**
   * In any single run, 0 is issued exactly when the access right after the draw of
   * `u32::MAX` is the draw of another thread, whose exchange came before.
   */
  lemma ZeroIsIssuedExactly(start: u32, acts: seq<Access>)
    requires Legal(Counter(start, {}, []), acts)
    ensures 0 in Run(Counter(start, {}, []), acts).issued <==>
              DrawsPastEnd(Counter(start, {}, []), acts)
  {
    ZeroMeansDrawnPast(Counter(start, {}, []), acts);
  }
}
