/**
 The order in which a long run of equally relevant siblings is offered to the snapshot budget: both ends
 first, then the midpoint of the gap, then the midpoints of the halves, breadth first.
 */
module DomSpread {
  import opened Prelude
  import opened Sorting

  /** Positions start..end, both included; empty when start > end. */
  datatype Range = Range(start: int, end: int) {
    predicate Holds(p: int) { start <= p <= end }
    function Mid(): int { (start + end) / 2 }
    function Size(): int { end - start + 1 }
  }

  function Halves(r: Range): seq<Range> {
    if r.start > r.end then [] else [Range(r.start, r.Mid() - 1), Range(r.Mid() + 1, r.end)]
  }

  function Midpoint(r: Range): seq<int> {
    if r.start > r.end then [] else [r.Mid()]
  }

  function Weight(queue: seq<Range>): nat {
    if queue == [] then 0
    else (if queue[0].start > queue[0].end then 1 else 2 * queue[0].Size() + 1) + Weight(queue[1..])
  }

  lemma {:induction false} WeightAppend(a: seq<Range>, b: seq<Range>)
    ensures Weight(a + b) == Weight(a) + Weight(b)
  {
    if a == [] {
      assert a + b == b;
    } else {
      assert (a + b)[1..] == a[1..] + b;
      WeightAppend(a[1..], b);
    }
  }

  lemma HalvesWeighLess(r: Range)
    requires r.start <= r.end
    ensures Weight(Halves(r)) == 2 * r.Size()
  {
    var halves := Halves(r);
    assert halves[1..] == [halves[1]] && halves[1..][1..] == [];
    assert Weight(halves[1..]) == (if halves[1].start > halves[1].end then 1 else 2 * halves[1].Size() + 1);
  }

  /** The ranges waiting once the first of the queue is processed. */
  ghost function Rest(queue: seq<Range>): seq<Range>
    requires queue != []
  {
    queue[1..] + Halves(queue[0])
  }

  lemma RestWeighsLess(queue: seq<Range>)
    requires queue != []
    ensures Weight(Rest(queue)) < Weight(queue)
  {
    var r := queue[0];
    WeightAppend(queue[1..], Halves(r));
    if r.start <= r.end { HalvesWeighLess(r); }
  }

  /** The positions still to come when these ranges are waiting. */
  ghost function Breadth(queue: seq<Range>): seq<int>
    decreases Weight(queue)
  {
    if queue == [] then [] else RestWeighsLess(queue); Midpoint(queue[0]) + Breadth(Rest(queue))
  }

  /** The whole order, as positions in a run of n. */
  ghost function SpreadOrder(n: nat): seq<int> {
    if n <= 2 then Upto(n) else [0, n - 1] + Breadth([Range(1, n - 2)])
  }

  predicate Within(order: seq<int>, n: nat) {
    forall i :: 0 <= i < |order| ==> 0 <= order[i] < n
  }

  function Pick<T>(s: seq<T>, order: seq<int>): (r: seq<T>)
    requires Within(order, |s|)
    ensures |r| == |order|
    ensures forall i :: 0 <= i < |r| ==> r[i] == s[order[i]]
  {
    if order == [] then [] else [s[order[0]]] + Pick(s, order[1..])
  }

  // ----- a permutation -----

  /** How many of these ranges hold position p. */
  ghost function Holders(queue: seq<Range>, p: int): nat {
    if queue == [] then 0 else (if queue[0].Holds(p) then 1 else 0) + Holders(queue[1..], p)
  }

  lemma {:induction false} HoldersAppend(a: seq<Range>, b: seq<Range>, p: int)
    ensures Holders(a + b, p) == Holders(a, p) + Holders(b, p)
  {
    if a == [] {
      assert a + b == b;
    } else {
      assert (a + b)[1..] == a[1..] + b;
      HoldersAppend(a[1..], b, p);
    }
  }

  lemma HoldersOfHalves(r: Range, p: int)
    requires r.start <= r.end
    ensures Holders(Halves(r), p) == if r.Holds(p) && p != r.Mid() then 1 else 0
  {
    var halves := Halves(r);
    assert halves[1..] == [halves[1]] && halves[1..][1..] == [];
    assert Holders(halves[1..], p) == if halves[1].Holds(p) then 1 else 0;
  }

  /** A position is emitted once for every waiting range that holds it. */
  lemma {:induction false} BreadthEmits(queue: seq<Range>, p: int)
    ensures multiset(Breadth(queue))[p] == Holders(queue, p)
    decreases Weight(queue)
  {
    if queue != [] {
      var r := queue[0];
      RestWeighsLess(queue);
      BreadthEmits(Rest(queue), p);
      if r.start <= r.end {
        HoldersAppend(queue[1..], Halves(r), p);
        HoldersOfHalves(r, p);
      } else {
        assert Rest(queue) == queue[1..];
      }
    }
  }

  ghost function Upto(n: nat): seq<int> { seq(n, i => i) }

  lemma {:induction false} UptoHasEach(n: nat, p: int)
    ensures multiset(Upto(n))[p] == if 0 <= p < n then 1 else 0
  {
    if n > 0 {
      UptoHasEach(n - 1, p);
      assert Upto(n) == Upto(n - 1) + [n - 1];
    }
  }

  /** Every position of the run is emitted exactly once. */
  lemma SpreadOrderIsPermutation(n: nat)
    ensures multiset(SpreadOrder(n)) == multiset(Upto(n))
  {
    var order := SpreadOrder(n);
    forall p ensures multiset(order)[p] == multiset(Upto(n))[p] {
      UptoHasEach(n, p);
      if n > 2 {
        BreadthEmits([Range(1, n - 2)], p);
        assert Holders([Range(1, n - 2)], p) == if 1 <= p <= n - 2 then 1 else 0;
      }
    }
  }

  lemma SpreadOrderWithin(n: nat)
    ensures |SpreadOrder(n)| == n && Within(SpreadOrder(n), n)
  {
    var order := SpreadOrder(n);
    SpreadOrderIsPermutation(n);
    assert |multiset(order)| == |order| && |multiset(Upto(n))| == n;
    forall i | 0 <= i < n ensures 0 <= order[i] < n {
      UptoHasEach(n, order[i]);
      assert order[i] in multiset(order);
    }
  }

  lemma SpreadOrderHas(n: nat, p: nat)
    requires p < n
    ensures p in SpreadOrder(n)
  {
    SpreadOrderIsPermutation(n);
    UptoHasEach(n, p);
    assert p in multiset(SpreadOrder(n));
  }

  lemma SpreadOrderStarts(n: nat)
    requires n > 0
    ensures SpreadOrder(n) != [] && SpreadOrder(n)[0] == 0
  {
  }

  /** After the ends comes the middle, or the one before it. */
  lemma MiddleComesNext(n: nat)
    requires n > 2
    ensures |SpreadOrder(n)| >= 3 && SpreadOrder(n)[..3] == [0, n - 1, (n - 1) / 2]
  {
    var inner := [Range(1, n - 2)];
    assert Breadth(inner) == Midpoint(inner[0]) + Breadth(Rest(inner));
  }

  /** A range is halved around its middle, and the upper half may be one longer. */
  lemma HalvesAreEven(r: Range)
    requires r.start <= r.end
    ensures |Halves(r)| == 2 && Halves(r)[0].Size() <= Halves(r)[1].Size() <= Halves(r)[0].Size() + 1
    ensures Halves(r)[0].start == r.start && Halves(r)[1].end == r.end
    ensures Halves(r)[0].end + 1 == Midpoint(r)[0] == Halves(r)[1].start - 1
  {
  }

  function Without<T>(s: seq<T>, k: nat): (r: seq<T>)
    requires k < |s|
    ensures |r| == |s| - 1
    ensures forall i :: 0 <= i < |r| ==> r[i] == s[if i < k then i else i + 1]
  {
    s[..k] + s[k + 1..]
  }

  lemma WithoutOne<T>(s: seq<T>, k: nat)
    requires k < |s|
    ensures multiset(Without(s, k)) == multiset(s) - multiset{s[k]}
    ensures multiset(s) == multiset(Without(s, k)) + multiset{s[k]}
  {
    var (before, after) := (s[..k], s[k + 1..]);
    assert s == (before + [s[k]]) + after;
    assert multiset(s) == multiset(before + [s[k]]) + multiset(after);
    assert multiset(before + after) == multiset(before) + multiset(after);
  }

  lemma PickWithout<T>(s: seq<T>, order: seq<int>, k: nat)
    requires Within(order, |s|) && k < |order|
    ensures Pick(s, Without(order, k)) == Without(Pick(s, order), k)
  {
  }

  lemma {:induction false} PickPermutes<T>(s: seq<T>, a: seq<int>, b: seq<int>)
    requires multiset(a) == multiset(b)
    requires Within(a, |s|) && Within(b, |s|)
    ensures multiset(Pick(s, a)) == multiset(Pick(s, b))
    decreases |a|
  {
    if a == [] {
      assert |multiset(b)| == 0;
    } else {
      assert a[0] in multiset(b) by { assert a[0] in multiset(a); }
      var k :| 0 <= k < |b| && b[k] == a[0];
      WithoutOne(a, 0);
      WithoutOne(b, k);
      PickPermutes(s, Without(a, 0), Without(b, k));
      PickWithout(s, a, 0);
      PickWithout(s, b, k);
      WithoutOne(Pick(s, a), 0);
      WithoutOne(Pick(s, b), k);
    }
  }

  ghost function Spread<T>(ordered: seq<T>): seq<T> {
    SpreadOrderWithin(|ordered|);
    Pick(ordered, SpreadOrder(|ordered|))
  }

  lemma SpreadPermutes<T>(ordered: seq<T>)
    ensures multiset(Spread(ordered)) == multiset(ordered)
  {
    var n := |ordered|;
    SpreadOrderIsPermutation(n);
    SpreadOrderWithin(n);
    PickPermutes(ordered, SpreadOrder(n), Upto(n));
    assert Pick(ordered, Upto(n)) == ordered;
  }

  /** What spreadDomRun returns: short runs as they are, longer ones spread in document order. */
  ghost function SpreadRun<T>(leq: (T, T) -> bool, run: seq<T>): seq<T> {
    if |run| <= 2 then run else Spread(Sort(leq, run))
  }

  lemma SpreadRunPermutes<T>(leq: (T, T) -> bool, run: seq<T>)
    ensures multiset(SpreadRun(leq, run)) == multiset(run) && |SpreadRun(leq, run)| == |run|
  {
    SortPermutes(leq, run);
    SpreadPermutes(Sort(leq, run));
    assert |multiset(run)| == |run| && |multiset(SpreadRun(leq, run))| == |SpreadRun(leq, run)|;
  }

  lemma PickAppend<T>(s: seq<T>, order: seq<int>, p: int)
    requires Within(order, |s|) && 0 <= p < |s|
    ensures Pick(s, order + [p]) == Pick(s, order) + [s[p]]
  {
  }

  /** The positions emitted, and those the waiting ranges will emit, make up the order. */
  ghost predicate Progress(order: seq<int>, emitted: seq<int>, waiting: seq<Range>) {
    order == emitted + Breadth(waiting)
  }

  /** Processing range i of the worklist moves its midpoint, if it has one, to the emitted positions. */
  lemma ProcessRange(order: seq<int>, emitted: seq<int>, ranges: seq<Range>, i: nat)
    requires i < |ranges| && Progress(order, emitted, ranges[i..])
    ensures Progress(order, emitted + Midpoint(ranges[i]), (ranges + Halves(ranges[i]))[i + 1..])
    ensures Weight((ranges + Halves(ranges[i]))[i + 1..]) < Weight(ranges[i..])
    ensures emitted + Midpoint(ranges[i]) <= order
  {
    var waiting := ranges[i..];
    assert waiting[0] == ranges[i] && waiting[1..] == ranges[i + 1..];
    assert (ranges + Halves(ranges[i]))[i + 1..] == Rest(waiting);
    RestWeighsLess(waiting);
    Assoc(emitted, Midpoint(ranges[i]), Breadth(Rest(waiting)));
  }

  lemma SkipRange(order: seq<int>, emitted: seq<int>, ranges: seq<Range>, i: nat)
    requires i < |ranges| && Progress(order, emitted, ranges[i..]) && ranges[i].start > ranges[i].end
    ensures Progress(order, emitted, ranges[i + 1..]) && Weight(ranges[i + 1..]) < Weight(ranges[i..])
  {
    ProcessRange(order, emitted, ranges, i);
    assert ranges + [] == ranges && emitted + [] == emitted;
  }

  lemma SplitRange(order: seq<int>, emitted: seq<int>, ranges: seq<Range>, i: nat)
    requires i < |ranges| && Progress(order, emitted, ranges[i..]) && ranges[i].start <= ranges[i].end
    ensures var (r, m) := (ranges[i], ranges[i].Mid());
      var next := (ranges + [Range(r.start, m - 1), Range(m + 1, r.end)])[i + 1..];
      && Progress(order, emitted + [m], next)
      && Weight(next) < Weight(ranges[i..])
      && |emitted| < |order| && order[|emitted|] == m
  {
    ProcessRange(order, emitted, ranges, i);
    var emittedNow := emitted + Midpoint(ranges[i]);
    assert emittedNow[|emitted|] == ranges[i].Mid();
  }

  lemma EmitNext<T>(ordered: seq<T>, order: seq<int>, emitted: seq<int>, ranges: seq<Range>, i: nat)
    requires i < |ranges| && Progress(order, emitted, ranges[i..]) && ranges[i].start <= ranges[i].end
    requires Within(order, |ordered|) && Within(emitted, |ordered|)
    ensures var (r, m) := (ranges[i], ranges[i].Mid());
      var next := (ranges + [Range(r.start, m - 1), Range(m + 1, r.end)])[i + 1..];
      && Progress(order, emitted + [m], next)
      && Weight(next) < Weight(ranges[i..])
      && 0 <= m < |ordered|
      && Within(emitted + [m], |ordered|)
      && Pick(ordered, emitted + [m]) == Pick(ordered, emitted) + [ordered[m]]
  {
    SplitRange(order, emitted, ranges, i);
    PickAppend(ordered, emitted, order[|emitted|]);
  }

  method SpreadDomRun<T>(leq: (T, T) -> bool, run: seq<T>) returns (spread: seq<T>)
    ensures spread == SpreadRun(leq, run)
  {
    if |run| <= 2 { return run; }
    var ordered := Sort(leq, run);
    spread := SpreadOrdered(ordered);
  }

  /** The worklist part of spreadDomRun, from the sorted run on. */
  method SpreadOrdered<T>(ordered: seq<T>) returns (spread: seq<T>)
    requires |ordered| > 2
    ensures spread == Spread(ordered)
  {
    ghost var order, emitted := SpreadOrder(|ordered|), [0, |ordered| - 1];
    SpreadOrderWithin(|ordered|);
    spread := [ordered[0], ordered[|ordered| - 1]];
    var ranges := [Range(1, |ordered| - 2)];
    var rangeIndex := 0;
    while rangeIndex < |ranges|
      invariant 0 <= rangeIndex <= |ranges|
      invariant Progress(order, emitted, ranges[rangeIndex..])
      invariant Within(emitted, |ordered|) && spread == Pick(ordered, emitted)
      decreases Weight(ranges[rangeIndex..])
    {
      var range := ranges[rangeIndex];
      if range.start > range.end {
        SkipRange(order, emitted, ranges, rangeIndex);
        rangeIndex := rangeIndex + 1;
      } else {
        EmitNext(ordered, order, emitted, ranges, rangeIndex);
        rangeIndex := rangeIndex + 1;
        var midpoint := range.Mid();
        emitted := emitted + [midpoint];
        spread := spread + [ordered[midpoint]];
        ranges := ranges + [Range(range.start, midpoint - 1), Range(midpoint + 1, range.end)];
      }
    }
    assert emitted + [] == emitted;
  }

  // ----- how even the order is -----

  ghost function Children(level: seq<Range>): seq<Range> {
    if level == [] then [] else Halves(level[0]) + Children(level[1..])
  }

  ghost function Midpoints(level: seq<Range>): seq<int> {
    if level == [] then []
    else Midpoint(level[0]) + Midpoints(level[1..])
  }

  /** The worklist drains a whole level before it reaches the next one. */
  lemma {:induction false} DrainLevel(level: seq<Range>, later: seq<Range>)
    ensures Breadth(level + later) == Midpoints(level) + Breadth(later + Children(level))
    decreases |level|
  {
    if level == [] {
      assert level + later == later && later + [] == later;
    } else {
      var r, rest := level[0], level[1..];
      var next := later + Halves(r);
      assert (level + later)[0] == r && (level + later)[1..] == rest + later;
      Assoc(rest, later, Halves(r));
      RestWeighsLess(level + later);
      DrainLevel(rest, next);
      Assoc(later, Halves(r), Children(rest));
      Assoc(Midpoint(r), Midpoints(rest), Breadth(later + Children(level)));
    }
  }

  lemma DrainWholeLevel(level: seq<Range>)
    ensures Breadth(level) == Midpoints(level) + Breadth(Children(level))
  {
    DrainLevel(level, []);
    assert level + [] == level && [] + Children(level) == Children(level);
  }

  ghost function Level(n: nat, d: nat): seq<Range> {
    if d == 0 then [Range(1, n - 2)] else Children(Level(n, d - 1))
  }

  /** What has been emitted once every range of depth below d is processed. */
  ghost function Emitted(n: nat, d: nat): seq<int> {
    if d == 0 then [0, n - 1] else Emitted(n, d - 1) + Midpoints(Level(n, d - 1))
  }

  lemma {:induction false} EmittedIsPrefix(n: nat, d: nat)
    requires n > 2
    ensures SpreadOrder(n) == Emitted(n, d) + Breadth(Level(n, d))
  {
    if d > 0 {
      EmittedIsPrefix(n, d - 1);
      var level := Level(n, d - 1);
      DrainWholeLevel(level);
      Assoc(Emitted(n, d - 1), Midpoints(level), Breadth(Children(level)));
    }
  }

  ghost function Pow2(d: nat): nat { if d == 0 then 1 else 2 * Pow2(d - 1) }

  lemma {:induction false} MidpointCount(level: seq<Range>)
    ensures |Midpoints(level)| <= |level| && |Children(level)| <= 2 * |level|
  {
    if level != [] { MidpointCount(level[1..]); }
  }

  lemma {:induction false} EmittedCount(n: nat, d: nat)
    ensures |Emitted(n, d)| <= Pow2(d) + 1 && |Level(n, d)| <= Pow2(d)
  {
    if d > 0 {
      EmittedCount(n, d - 1);
      MidpointCount(Level(n, d - 1));
    }
  }

  lemma {:induction false} ChildOf(level: seq<Range>, c: Range) returns (r: Range)
    requires c in Children(level)
    ensures r in level && r.start <= r.end && c in Halves(r)
  {
    if c in Halves(level[0]) { r := level[0]; } else { r := ChildOf(level[1..], c); }
  }

  lemma {:induction false} HalvesInChildren(level: seq<Range>, r: Range)
    requires r in level && r.start <= r.end
    ensures r.Mid() in Midpoints(level)
    ensures forall c :: c in Halves(r) ==> c in Children(level)
  {
    if r != level[0] { HalvesInChildren(level[1..], r); }
  }

  lemma HalfSize(parent: Range, half: Range)
    requires parent.start <= parent.end && half in Halves(parent)
    ensures 2 * half.Size() <= parent.Size()
  {
  }

  lemma Halve(half: int, size: int, d: nat, bound: int)
    requires d > 0 && 2 * half <= size && size * Pow2(d - 1) <= bound
    ensures half * Pow2(d) <= bound
  {
    var p := Pow2(d - 1);
    assert half * (2 * p) == (2 * half) * p <= size * p;
  }

  lemma {:induction false} WaitingRangeIsSmall(n: nat, d: nat, r: Range)
    requires n > 2 && r in Level(n, d)
    ensures r.Size() * Pow2(d) <= n - 2
  {
    if d > 0 {
      var parent := ChildOf(Level(n, d - 1), r);
      WaitingRangeIsSmall(n, d - 1, parent);
      HalfSize(parent, r);
      Halve(r.Size(), parent.Size(), d, n - 2);
    }
  }

  lemma BorderedHalf(parent: Range, half: Range, emitted: seq<int>, midpoints: seq<int>)
    requires parent.start <= parent.end && half in Halves(parent)
    requires parent.end + 1 in emitted && parent.Mid() in midpoints
    ensures half.end + 1 in emitted + midpoints
  {
  }

  /** The position just after a waiting range has been emitted. */
  lemma {:induction false} WaitingRangeIsBordered(n: nat, d: nat, r: Range)
    requires n > 2 && r in Level(n, d)
    ensures r.end + 1 in Emitted(n, d)
  {
    if d > 0 {
      var level := Level(n, d - 1);
      var parent := ChildOf(level, r);
      WaitingRangeIsBordered(n, d - 1, parent);
      HalvesInChildren(level, parent);
      BorderedHalf(parent, r, Emitted(n, d - 1), Midpoints(level));
    }
  }

  /** Every position not yet emitted is in a waiting range. */
  lemma {:induction false} StillWaiting(n: nat, d: nat, p: int) returns (r: Range)
    requires n > 2 && 0 <= p < n && p !in Emitted(n, d)
    ensures r in Level(n, d) && r.Holds(p)
  {
    if d == 0 {
      r := Range(1, n - 2);
    } else {
      var parent := StillWaiting(n, d - 1, p);
      HalvesInChildren(Level(n, d - 1), parent);
      r := if p < parent.Mid() then Halves(parent)[0] else Halves(parent)[1];
    }
  }

  lemma EmittedIsTaken(n: nat, d: nat, k: nat, x: int)
    requires n > 2 && Pow2(d) + 1 <= k <= |SpreadOrder(n)| && x in Emitted(n, d)
    ensures x in SpreadOrder(n)[..k]
  {
    EmittedIsPrefix(n, d);
    EmittedCount(n, d);
    var early := Emitted(n, d);
    var i :| 0 <= i < |early| && early[i] == x;
    assert SpreadOrder(n)[..k][i] == x;
  }

  /** A position not taken so far is in a waiting range, and the position after that range is taken. */
  lemma WaitingRange(n: nat, d: nat, k: nat, p: int) returns (r: Range)
    requires n > 2 && Pow2(d) + 1 <= k <= |SpreadOrder(n)| && 0 <= p < n && p !in SpreadOrder(n)[..k]
    ensures r in Level(n, d) && r.Holds(p) && r.end + 1 in SpreadOrder(n)[..k]
  {
    if p in Emitted(n, d) { EmittedIsTaken(n, d, k, p); }
    r := StillWaiting(n, d, p);
    WaitingRangeIsBordered(n, d, r);
    EmittedIsTaken(n, d, k, r.end + 1);
  }

  lemma GapIsWaiting(n: nat, d: nat, k: nat, p: int, q: int) returns (r: Range)
    requires n > 2 && Pow2(d) + 1 <= k <= |SpreadOrder(n)| && 0 <= p && p + 1 < q < n
    requires forall x :: p < x < q ==> x !in SpreadOrder(n)[..k]
    ensures r in Level(n, d) && q - p - 1 <= r.Size()
  {
    r := WaitingRange(n, d, k, p + 1);
  }

  lemma Scale(a: int, b: int, p: nat)
    requires a <= b
    ensures a * p <= b * p
  {
  }

  /**
   Once 2^d + 1 elements of a run of n have been taken, two taken positions with none taken between them
   are at most floor((n - 2) / 2^d) + 1 apart.
   */
  lemma TakenAreEvenlySpread(n: nat, d: nat, k: nat, p: int, q: int)
    requires n > 2 && Pow2(d) + 1 <= k <= |SpreadOrder(n)|
    requires p < q && p in SpreadOrder(n)[..k] && q in SpreadOrder(n)[..k]
    requires forall x :: p < x < q ==> x !in SpreadOrder(n)[..k]
    ensures (q - p - 1) * Pow2(d) <= n - 2
  {
    if q > p + 1 {
      TakenWithin(n, k, p);
      TakenWithin(n, k, q);
      var r := GapIsWaiting(n, d, k, p, q);
      WaitingRangeIsSmall(n, d, r);
      Scale(q - p - 1, r.Size(), Pow2(d));
    } else {
      assert (q - p - 1) * Pow2(d) == 0;
    }
  }

  lemma TakenWithin(n: nat, k: nat, p: int)
    requires k <= |SpreadOrder(n)| && p in SpreadOrder(n)[..k]
    ensures 0 <= p < n
  {
    SpreadOrderWithin(n);
  }
}
