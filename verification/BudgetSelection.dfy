/**
 Which snapshot candidates fit the entry budget: the best scores first; within one score the groups take
 turns, and each group offers its members spread over the document.
 */
module BudgetSelection {
  import opened Prelude
  import opened Sorting
  import opened DomSpread

  /** Group keys are only ever compared for equality. */
  type GroupKey(==, !new)

  datatype Candidate = Candidate(domOrdinal: int, score: real, group: GroupKey)

  predicate DomBefore(a: Candidate, b: Candidate) { a.domOrdinal <= b.domOrdinal }

  ghost predicate Ascending(s: seq<Candidate>) {
    forall i, j :: 0 <= i < j < |s| ==> s[i].domOrdinal < s[j].domOrdinal
  }

  // ----- the specification -----

  /** The candidates whose key is k, in their order. */
  function Matching<K(==)>(keyOf: Candidate -> K, cs: seq<Candidate>, k: K): (r: seq<Candidate>)
    ensures forall c :: c in r <==> c in cs && keyOf(c) == k
  {
    if cs == [] then [] else
      var last := cs[|cs| - 1];
      assert forall c :: c in cs <==> c in cs[..|cs| - 1] || c == last;
      Matching(keyOf, cs[..|cs| - 1], k) + if keyOf(last) == k then [last] else []
  }

  function ScoreOf(c: Candidate): real { c.score }

  function GroupOf(c: Candidate): GroupKey { c.group }

  /** The candidates of one score and group, in document order. */
  ghost function Run(cs: seq<Candidate>, score: real, group: GroupKey): seq<Candidate> {
    Matching(GroupOf, Matching(ScoreOf, cs, score), group)
  }

  ghost function Offered(cs: seq<Candidate>, score: real, group: GroupKey): seq<Candidate> {
    SpreadRun(DomBefore, Run(cs, score, group))
  }

  lemma OfferedMembers(cs: seq<Candidate>, score: real, group: GroupKey)
    ensures forall c :: c in Offered(cs, score, group) <==> c in cs && c.score == score && c.group == group
    ensures multiset(Offered(cs, score, group)) == multiset(Run(cs, score, group))
  {
    SpreadRunPermutes(DomBefore, Run(cs, score, group));
    forall c ensures c in Offered(cs, score, group) <==> c in cs && c.score == score && c.group == group {
      assert c in multiset(Offered(cs, score, group)) <==> c in multiset(Run(cs, score, group));
    }
  }

  function FirstOrdinal(run: seq<Candidate>): int { if run == [] then 0 else run[0].domOrdinal }

  /** a is in its group's k-th turn. */
  ghost predicate InTurn(cs: seq<Candidate>, a: Candidate, k: nat) {
    k < |Offered(cs, a.score, a.group)| && Offered(cs, a.score, a.group)[k] == a
  }

  /** a has the k-th turn of its group, b the l-th, and a's comes first or the groups start in this order. */
  ghost predicate TurnsInOrder(cs: seq<Candidate>, a: Candidate, k: nat, b: Candidate, l: nat) {
    && InTurn(cs, a, k)
    && InTurn(cs, b, l)
    && (k < l || (k == l &&
         FirstOrdinal(Offered(cs, a.score, a.group)) <= FirstOrdinal(Offered(cs, b.score, b.group))))
  }

  /** a is served no later than b: a better score, an earlier turn, or the same turn of a group that starts no later. */
  ghost predicate ServedFirst(cs: seq<Candidate>, a: Candidate, b: Candidate) {
    a.score > b.score || (a.score == b.score && exists k: nat, l: nat :: TurnsInOrder(cs, a, k, b, l))
  }

  /** s holds n of the candidates, in document order, and everybody served before one of them. */
  ghost predicate IsSelection(cs: seq<Candidate>, n: int, s: seq<Candidate>) {
    && |s| == n
    && Ascending(s)
    && (forall c :: c in s ==> c in cs)
    && (forall a, b :: a in cs && b in s && ServedFirst(cs, a, b) ==> a in s)
  }

  // ----- grouping -----

  datatype Bucket<K> = Bucket(key: K, members: seq<Candidate>)

  ghost predicate HasBucket<K>(buckets: seq<Bucket<K>>, k: K) {
    exists i :: 0 <= i < |buckets| && buckets[i].key == k
  }

  ghost predicate DistinctKeys<K>(buckets: seq<Bucket<K>>) {
    forall i, j :: 0 <= i < j < |buckets| ==> buckets[i].key != buckets[j].key
  }

  ghost predicate HoldMatches<K>(keyOf: Candidate -> K, cs: seq<Candidate>, buckets: seq<Bucket<K>>) {
    forall i :: 0 <= i < |buckets| ==>
      buckets[i].members == Matching(keyOf, cs, buckets[i].key) && buckets[i].members != []
  }

  ghost predicate Cover<K>(keyOf: Candidate -> K, cs: seq<Candidate>, buckets: seq<Bucket<K>>) {
    forall c :: c in cs ==> HasBucket(buckets, keyOf(c))
  }

  ghost predicate Grouped<K>(keyOf: Candidate -> K, cs: seq<Candidate>, buckets: seq<Bucket<K>>) {
    DistinctKeys(buckets) && HoldMatches(keyOf, cs, buckets) && Cover(keyOf, cs, buckets)
  }

  lemma {:induction false} NoneMatch<K>(keyOf: Candidate -> K, cs: seq<Candidate>, k: K)
    requires forall c :: c in cs ==> keyOf(c) != k
    ensures Matching(keyOf, cs, k) == []
  {
    if cs != [] { NoneMatch(keyOf, cs[..|cs| - 1], k); }
  }

  lemma MatchingAppend<K>(keyOf: Candidate -> K, cs: seq<Candidate>, c: Candidate, k: K)
    ensures Matching(keyOf, cs + [c], k) == Matching(keyOf, cs, k) + if keyOf(c) == k then [c] else []
  {
    assert (cs + [c])[..|cs|] == cs;
  }

  lemma NewBucketCovers<K>(keyOf: Candidate -> K, cs: seq<Candidate>, buckets: seq<Bucket<K>>, b: Bucket<K>,
      c: Candidate)
    requires Cover(keyOf, cs, buckets) && b.key == keyOf(c)
    ensures Cover(keyOf, cs + [c], buckets + [b])
  {
    var after := buckets + [b];
    forall x | x in cs + [c] ensures HasBucket(after, keyOf(x)) {
      assert after[|buckets|].key == keyOf(c);
      if HasBucket(buckets, keyOf(x)) {
        var i :| 0 <= i < |buckets| && buckets[i].key == keyOf(x);
        assert after[i].key == keyOf(x);
      }
    }
  }

  lemma NewBucketHolds<K>(keyOf: Candidate -> K, cs: seq<Candidate>, buckets: seq<Bucket<K>>, c: Candidate)
    requires Cover(keyOf, cs, buckets) && HoldMatches(keyOf, cs, buckets) && !HasBucket(buckets, keyOf(c))
    ensures HoldMatches(keyOf, cs + [c], buckets + [Bucket(keyOf(c), [c])])
  {
    var after := buckets + [Bucket(keyOf(c), [c])];
    NoneMatch(keyOf, cs, keyOf(c));
    forall i | 0 <= i < |after|
      ensures after[i].members == Matching(keyOf, cs + [c], after[i].key) && after[i].members != []
    {
      MatchingAppend(keyOf, cs, c, after[i].key);
      assert i < |buckets| ==> after[i] == buckets[i] && HasBucket(buckets, after[i].key);
    }
  }

  lemma AddNew<K>(keyOf: Candidate -> K, cs: seq<Candidate>, buckets: seq<Bucket<K>>, c: Candidate)
    requires Grouped(keyOf, cs, buckets) && !HasBucket(buckets, keyOf(c))
    ensures Grouped(keyOf, cs + [c], buckets + [Bucket(keyOf(c), [c])])
  {
    NewBucketHolds(keyOf, cs, buckets, c);
    NewBucketCovers(keyOf, cs, buckets, Bucket(keyOf(c), [c]), c);
    forall i | 0 <= i < |buckets| ensures buckets[i].key != keyOf(c) {
      assert !HasBucket(buckets, keyOf(c));
    }
  }

  lemma AddToOld<K>(keyOf: Candidate -> K, cs: seq<Candidate>, buckets: seq<Bucket<K>>, c: Candidate, i: nat)
    requires Grouped(keyOf, cs, buckets) && i < |buckets| && buckets[i].key == keyOf(c)
    ensures Grouped(keyOf, cs + [c], buckets[i := Bucket(buckets[i].key, buckets[i].members + [c])])
  {
    var after := buckets[i := Bucket(buckets[i].key, buckets[i].members + [c])];
    forall x | x in cs + [c] ensures HasBucket(after, keyOf(x)) {
      assert HasBucket(buckets, keyOf(x));
      var j :| 0 <= j < |buckets| && buckets[j].key == keyOf(x);
      assert after[j].key == keyOf(x);
    }
    forall j | 0 <= j < |after| ensures after[j].members == Matching(keyOf, cs + [c], after[j].key) {
      MatchingAppend(keyOf, cs, c, after[j].key);
    }
  }

  /** Entries of a JavaScript Map, in insertion order. */
  method GroupBy<K(==)>(keyOf: Candidate -> K, cs: seq<Candidate>) returns (buckets: seq<Bucket<K>>)
    ensures Grouped(keyOf, cs, buckets)
  {
    buckets := [];
    for n := 0 to |cs|
      invariant Grouped(keyOf, cs[..n], buckets)
    {
      var c := cs[n];
      var i := FindBucket(buckets, keyOf(c));
      assert cs[..n + 1] == cs[..n] + [c];
      if i < |buckets| {
        AddToOld(keyOf, cs[..n], buckets, c, i);
        buckets := buckets[i := Bucket(buckets[i].key, buckets[i].members + [c])];
      } else {
        AddNew(keyOf, cs[..n], buckets, c);
        buckets := buckets + [Bucket(keyOf(c), [c])];
      }
    }
    assert cs[..|cs|] == cs;
  }

  method FindBucket<K(==)>(buckets: seq<Bucket<K>>, key: K) returns (i: nat)
    ensures i <= |buckets|
    ensures i < |buckets| ==> buckets[i].key == key
    ensures i == |buckets| ==> forall j :: 0 <= j < |buckets| ==> buckets[j].key != key
  {
    i := 0;
    while i < |buckets| && buckets[i].key != key
      invariant i <= |buckets| && forall j :: 0 <= j < i ==> buckets[j].key != key
    {
      i := i + 1;
    }
  }

  // ----- taking turns -----

  /** Different places of the table hold different candidates. */
  ghost predicate AllDifferent(groups: seq<seq<Candidate>>) {
    && (forall i :: 0 <= i < |groups| ==> Distinct(groups[i]))
    && (forall i, j, c :: 0 <= i < j < |groups| && c in groups[i] ==> c !in groups[j])
  }

  /** Exactly the first `round` turns, and the next turn of the first j groups, are in `after`. */
  ghost predicate TakenUpTo(groups: seq<seq<Candidate>>, after: seq<Candidate>, round: int, j: int) {
    forall i, k :: 0 <= i < |groups| && 0 <= k < |groups[i]| ==>
      (groups[i][k] in after <==> k < round || (k == round && i < j))
  }

  ghost predicate OnlyAdds(groups: seq<seq<Candidate>>, before: seq<Candidate>, after: seq<Candidate>) {
    && Distinct(after)
    && (forall c :: c in before ==> c in after)
    && (forall c :: c in after ==> c in before || exists i :: 0 <= i < |groups| && c in groups[i])
  }

  lemma TakeOne(groups: seq<seq<Candidate>>, before: seq<Candidate>, after: seq<Candidate>, round: nat, j: nat)
    requires AllDifferent(groups) && TakenUpTo(groups, after, round, j) && OnlyAdds(groups, before, after)
    requires j < |groups| && round < |groups[j]|
    ensures TakenUpTo(groups, after + [groups[j][round]], round, j + 1)
    ensures OnlyAdds(groups, before, after + [groups[j][round]])
  {
    var c := groups[j][round];
    assert c !in after;
    forall i, k | 0 <= i < |groups| && 0 <= k < |groups[i]|
      ensures groups[i][k] in after + [c] <==> k < round || (k == round && i < j + 1)
    {
      assert groups[i][k] in groups[i] && c in groups[j];
      assert groups[i][k] == c <==> i == j && k == round;
    }
  }

  /** One score tier: the groups take turns until the budget is spent or everybody is taken. */
  method TakeTurns(groups: seq<seq<Candidate>>, before: seq<Candidate>, maxEntries: int)
      returns (selected: seq<Candidate>, ghost round: nat, ghost j: nat)
    requires AllDifferent(groups) && Distinct(before)
    requires forall i, c :: 0 <= i < |groups| && c in groups[i] ==> c !in before
    requires |before| < maxEntries || before == []
    ensures TakenUpTo(groups, selected, round, j) && OnlyAdds(groups, before, selected)
    ensures |selected| <= Max(0, maxEntries)
    ensures |selected| < maxEntries ==> forall i, c :: 0 <= i < |groups| && c in groups[i] ==> c in selected
  {
    selected, round, j := before, 0, 0;
    var turn := 0;
    while |selected| < maxEntries
      invariant turn == round && j == 0
      invariant TakenUpTo(groups, selected, round, 0) && OnlyAdds(groups, before, selected)
      invariant |selected| <= Max(0, maxEntries)
      decreases maxEntries - |selected|
    {
      var added := false;
      ghost var start := |selected|;
      var g := 0;
      while g < |groups|
        invariant 0 <= g <= |groups| && turn == round
        invariant |selected| < maxEntries && |selected| >= start && (added <==> |selected| > start)
        invariant TakenUpTo(groups, selected, round, g) && OnlyAdds(groups, before, selected)
        invariant !added ==> forall i :: 0 <= i < g ==> |groups[i]| <= round
      {
        if turn < |groups[g]| {
          TakeOne(groups, before, selected, round, g);
          selected := selected + [groups[g][turn]];
          added := true;
          if |selected| >= maxEntries { j := g + 1; return; }
        }
        g := g + 1;
      }
      turn := turn + 1;
      round := round + 1;
      if !added { return; }
    }
  }

  // ----- one score tier -----

  /** The groups of one score, each in the order it offers its members, the earliest group first. */
  ghost predicate Table(cs: seq<Candidate>, score: real, groups: seq<seq<Candidate>>) {
    && (forall i :: 0 <= i < |groups| ==> IsOffer(cs, score, groups[i]))
    && (forall i, j :: 0 <= i < j < |groups| ==> FirstOrdinal(groups[i]) < FirstOrdinal(groups[j]))
    && (forall c :: c in cs && c.score == score ==> Offered(cs, score, c.group) in groups)
  }

  ghost predicate IsOffer(cs: seq<Candidate>, score: real, offer: seq<Candidate>) {
    offer != [] && offer == Offered(cs, score, offer[0].group)
  }

  predicate StartsBefore(a: seq<Candidate>, b: seq<Candidate>) { FirstOrdinal(a) <= FirstOrdinal(b) }

  lemma {:induction false} MatchingAscends<K>(keyOf: Candidate -> K, cs: seq<Candidate>, k: K)
    requires Ascending(cs)
    ensures Ascending(Matching(keyOf, cs, k))
  {
    if cs != [] {
      var init := cs[..|cs| - 1];
      MatchingAscends(keyOf, init, k);
      var r := Matching(keyOf, init, k);
      forall i | 0 <= i < |r| ensures r[i].domOrdinal < cs[|cs| - 1].domOrdinal {
        assert r[i] in init;
      }
    }
  }

  lemma OfferedIsDistinct(cs: seq<Candidate>, score: real, group: GroupKey)
    requires Ascending(cs)
    ensures Distinct(Offered(cs, score, group))
  {
    MatchingAscends(ScoreOf, cs, score);
    MatchingAscends(GroupOf, Matching(ScoreOf, cs, score), group);
    OfferedMembers(cs, score, group);
    DistinctPermutes(Run(cs, score, group), Offered(cs, score, group));
  }

  lemma SameOffer(cs: seq<Candidate>, score: real, offer: seq<Candidate>, c: Candidate)
    requires IsOffer(cs, score, offer) && c in offer
    ensures c in cs && c.score == score && offer == Offered(cs, score, c.group)
  {
    OfferedMembers(cs, score, offer[0].group);
  }

  lemma TableIsAllDifferent(cs: seq<Candidate>, score: real, groups: seq<seq<Candidate>>)
    requires Ascending(cs) && Table(cs, score, groups)
    ensures AllDifferent(groups)
  {
    forall i | 0 <= i < |groups| ensures Distinct(groups[i]) {
      OfferedIsDistinct(cs, score, groups[i][0].group);
    }
    forall i, j, c | 0 <= i < j < |groups| && c in groups[i] ensures c !in groups[j] {
      SameOffer(cs, score, groups[i], c);
      if c in groups[j] { SameOffer(cs, score, groups[j], c); }
    }
  }

  lemma DifferentOrdinals(cs: seq<Candidate>, a: Candidate, b: Candidate)
    requires Ascending(cs) && a in cs && b in cs && a != b
    ensures a.domOrdinal != b.domOrdinal
  {
    var i :| 0 <= i < |cs| && cs[i] == a;
    var j :| 0 <= j < |cs| && cs[j] == b;
    assert i < j || j < i;
  }

  lemma DistinctOffersStartApart(cs: seq<Candidate>, score: real, a: seq<Candidate>, b: seq<Candidate>)
    requires Ascending(cs) && IsOffer(cs, score, a) && IsOffer(cs, score, b) && a != b
    ensures FirstOrdinal(a) != FirstOrdinal(b)
  {
    SameOffer(cs, score, a, a[0]);
    SameOffer(cs, score, b, b[0]);
    assert a[0] != b[0];
    DifferentOrdinals(cs, a[0], b[0]);
  }

  lemma SortedOffersAreTable(cs: seq<Candidate>, score: real, offers: seq<seq<Candidate>>)
    requires Ascending(cs) && Distinct(offers)
    requires forall offer :: offer in offers ==> IsOffer(cs, score, offer)
    requires forall c :: c in cs && c.score == score ==> Offered(cs, score, c.group) in offers
    ensures Table(cs, score, Sort(StartsBefore, offers))
  {
    var groups := Sort(StartsBefore, offers);
    SortPermutes(StartsBefore, offers);
    SortSorts(StartsBefore, offers);
    DistinctPermutes(offers, groups);
    SamePermuted(offers, groups);
    OffersInOrder(cs, score, groups);
  }

  lemma OffersInOrder(cs: seq<Candidate>, score: real, groups: seq<seq<Candidate>>)
    requires Ascending(cs) && Distinct(groups) && SortedBy(StartsBefore, groups)
    requires forall offer :: offer in groups ==> IsOffer(cs, score, offer)
    ensures forall i, j :: 0 <= i < j < |groups| ==> FirstOrdinal(groups[i]) < FirstOrdinal(groups[j])
  {
    forall i, j | 0 <= i < j < |groups| ensures FirstOrdinal(groups[i]) < FirstOrdinal(groups[j]) {
      assert StartsBefore(groups[i], groups[j]);
      DistinctOffersStartApart(cs, score, groups[i], groups[j]);
    }
  }

  ghost predicate AllSpread(buckets: seq<Bucket<GroupKey>>, offers: seq<seq<Candidate>>) {
    |offers| == |buckets| && forall i :: 0 <= i < |buckets| ==> offers[i] == SpreadRun(DomBefore, buckets[i].members)
  }

  method SpreadMembers(buckets: seq<Bucket<GroupKey>>) returns (offers: seq<seq<Candidate>>)
    ensures AllSpread(buckets, offers)
  {
    offers := [];
    for i := 0 to |buckets|
      invariant AllSpread(buckets[..i], offers)
    {
      var offer := SpreadDomRun(DomBefore, buckets[i].members);
      assert buckets[..i + 1] == buckets[..i] + [buckets[i]];
      offers := offers + [offer];
    }
    assert buckets[..|buckets|] == buckets;
  }

  method SpreadGroups(ghost cs: seq<Candidate>, ghost score: real, tier: seq<Candidate>)
      returns (groups: seq<seq<Candidate>>)
    requires Ascending(cs) && tier == Matching(ScoreOf, cs, score)
    ensures Table(cs, score, groups)
  {
    var buckets := GroupBy(GroupOf, tier);
    var offers := SpreadMembers(buckets);
    OffersOfBuckets(cs, score, buckets, offers);
    groups := Sort(StartsBefore, offers);
    SortedOffersAreTable(cs, score, offers);
  }

  lemma OfferOfBucket(cs: seq<Candidate>, score: real, bucket: Bucket<GroupKey>)
    requires bucket.members == Matching(GroupOf, Matching(ScoreOf, cs, score), bucket.key) && bucket.members != []
    ensures var offer := SpreadRun(DomBefore, bucket.members);
      offer == Offered(cs, score, bucket.key) && IsOffer(cs, score, offer) && offer[0].group == bucket.key
  {
    OfferedMembers(cs, score, bucket.key);
    var offer := Offered(cs, score, bucket.key);
    var c := bucket.members[0];
    assert c in bucket.members;
    assert c in cs && c.score == score && c.group == bucket.key;
    assert c in offer;
    assert offer[0] in offer;
  }

  lemma OffersOfBuckets(cs: seq<Candidate>, score: real, buckets: seq<Bucket<GroupKey>>, offers: seq<seq<Candidate>>)
    requires Grouped(GroupOf, Matching(ScoreOf, cs, score), buckets) && AllSpread(buckets, offers)
    ensures Distinct(offers)
    ensures forall offer :: offer in offers ==> IsOffer(cs, score, offer)
    ensures forall c :: c in cs && c.score == score ==> Offered(cs, score, c.group) in offers
  {
    forall i | 0 <= i < |offers|
      ensures IsOffer(cs, score, offers[i]) && offers[i][0].group == buckets[i].key
    {
      OfferOfBucket(cs, score, buckets[i]);
    }
    forall c | c in cs && c.score == score ensures Offered(cs, score, c.group) in offers {
      assert HasBucket(buckets, GroupOf(c));
      var i :| 0 <= i < |buckets| && buckets[i].key == GroupOf(c);
      OfferOfBucket(cs, score, buckets[i]);
    }
  }

  lemma InTurnOfOffer(cs: seq<Candidate>, groups: seq<seq<Candidate>>, a: Candidate, k: nat) returns (i: nat)
    requires Offered(cs, a.score, a.group) in groups && InTurn(cs, a, k)
    ensures i < |groups| && k < |groups[i]| && groups[i][k] == a
    ensures FirstOrdinal(groups[i]) == FirstOrdinal(Offered(cs, a.score, a.group))
  {
    i :| 0 <= i < |groups| && groups[i] == Offered(cs, a.score, a.group);
  }

  lemma EarlierTurnIsTaken(cs: seq<Candidate>, score: real, groups: seq<seq<Candidate>>, after: seq<Candidate>,
                           round: nat, j: nat, a: Candidate, k: nat, b: Candidate, l: nat)
    requires Table(cs, score, groups) && TakenUpTo(groups, after, round, j)
    requires a in cs && b in cs && a.score == b.score == score && b in after && TurnsInOrder(cs, a, k, b, l)
    ensures a in after
  {
    var h := InTurnOfOffer(cs, groups, a, k);
    var i := InTurnOfOffer(cs, groups, b, l);
    TakenInOrder(groups, after, round, j, h, k, i, l);
  }

  lemma TakenInOrder(groups: seq<seq<Candidate>>, after: seq<Candidate>, round: nat, j: nat, h: nat, k: nat, i: nat,
      l: nat)
    requires forall i, j :: 0 <= i < j < |groups| ==> FirstOrdinal(groups[i]) < FirstOrdinal(groups[j])
    requires TakenUpTo(groups, after, round, j)
    requires h < |groups| && k < |groups[h]| && i < |groups| && l < |groups[i]| && groups[i][l] in after
    requires k < l || (k == l && FirstOrdinal(groups[h]) <= FirstOrdinal(groups[i]))
    ensures groups[h][k] in after
  {
    assert i < h ==> FirstOrdinal(groups[i]) < FirstOrdinal(groups[h]);
  }

  /** What the turns of one tier leave selected is closed under "served first". */
  lemma TierIsClosed(cs: seq<Candidate>, score: real, groups: seq<seq<Candidate>>,
                     before: seq<Candidate>, after: seq<Candidate>, round: nat, j: nat)
    requires Table(cs, score, groups)
    requires forall c :: c in before <==> c in cs && c.score > score
    requires TakenUpTo(groups, after, round, j) && OnlyAdds(groups, before, after)
    ensures forall a, b :: a in cs && b in after && ServedFirst(cs, a, b) ==> a in after
  {
    forall a, b | a in cs && b in after && ServedFirst(cs, a, b) ensures a in after {
      if a.score > score {
        assert a in before;
      } else {
        assert b !in before;
        var i :| 0 <= i < |groups| && b in groups[i];
        SameOffer(cs, score, groups[i], b);
        var k: nat, l: nat :| TurnsInOrder(cs, a, k, b, l);
        EarlierTurnIsTaken(cs, score, groups, after, round, j, a, k, b, l);
      }
    }
  }

  // ----- all tiers -----

  /** Higher scores first. */
  predicate ScoresBefore(a: Bucket<real>, b: Bucket<real>) { a.key >= b.key }

  ghost predicate Tiers(cs: seq<Candidate>, tiers: seq<Bucket<real>>) {
    && (forall i, j :: 0 <= i < j < |tiers| ==> tiers[i].key > tiers[j].key)
    && (forall i :: 0 <= i < |tiers| ==> tiers[i].members == Matching(ScoreOf, cs, tiers[i].key))
    && (forall c :: c in cs ==> HasBucket(tiers, c.score))
  }

  /** The scores whose tier comes before number t. */
  ghost predicate ScoreDone(tiers: seq<Bucket<real>>, t: nat, score: real) {
    t < |tiers| ==> score > tiers[t].key
  }

  lemma KeysDiffer<K>(buckets: seq<Bucket<K>>, a: Bucket<K>, b: Bucket<K>)
    requires DistinctKeys(buckets) && a in buckets && b in buckets && a != b
    ensures a.key != b.key
  {
    var i :| 0 <= i < |buckets| && buckets[i] == a;
    var j :| 0 <= j < |buckets| && buckets[j] == b;
    assert i < j || j < i;
  }

  lemma SortedBucketsAreTiers(cs: seq<Candidate>, buckets: seq<Bucket<real>>)
    requires Grouped(ScoreOf, cs, buckets)
    ensures Tiers(cs, Sort(ScoresBefore, buckets))
  {
    var tiers := Sort(ScoresBefore, buckets);
    SortPermutes(ScoresBefore, buckets);
    SortSorts(ScoresBefore, buckets);
    DistinctPermutes(buckets, tiers);
    SamePermuted(buckets, tiers);
    forall i, j | 0 <= i < j < |tiers| ensures tiers[i].key > tiers[j].key {
      InOrder(ScoresBefore, tiers, i, j);
      KeysDiffer(buckets, tiers[i], tiers[j]);
    }
    forall i | 0 <= i < |tiers| ensures tiers[i].members == Matching(ScoreOf, cs, tiers[i].key) {
      assert tiers[i] in tiers;
      var j :| 0 <= j < |buckets| && buckets[j] == tiers[i];
    }
    forall c | c in cs ensures HasBucket(tiers, c.score) {
      assert HasBucket(buckets, ScoreOf(c));
      var i :| 0 <= i < |buckets| && buckets[i].key == ScoreOf(c);
      assert buckets[i] in tiers;
    }
  }

  lemma ScoreDoneNext(cs: seq<Candidate>, tiers: seq<Bucket<real>>, t: nat, c: Candidate)
    requires Tiers(cs, tiers) && t < |tiers| && c in cs
    ensures ScoreDone(tiers, t + 1, c.score) <==> ScoreDone(tiers, t, c.score) || c.score == tiers[t].key
  {
    assert HasBucket(tiers, c.score);
    var i :| 0 <= i < |tiers| && tiers[i].key == c.score;
    assert i < t ==> tiers[i].key > tiers[t].key;
    assert i > t ==> tiers[t].key > tiers[i].key;
    assert t + 1 < i ==> tiers[t + 1].key > tiers[i].key;
    assert i < t + 1 < |tiers| ==> tiers[i].key > tiers[t + 1].key;
  }

  /** The whole of the first t tiers is selected, and nothing else. */
  ghost predicate TiersTaken(cs: seq<Candidate>, tiers: seq<Bucket<real>>, t: nat, selected: seq<Candidate>) {
    Distinct(selected) && forall c :: c in selected <==> c in cs && ScoreDone(tiers, t, c.score)
  }

  lemma NextTierTaken(cs: seq<Candidate>, tiers: seq<Bucket<real>>, t: nat, groups: seq<seq<Candidate>>,
                      before: seq<Candidate>, after: seq<Candidate>)
    requires Tiers(cs, tiers) && t < |tiers| && TiersTaken(cs, tiers, t, before)
    requires Table(cs, tiers[t].key, groups) && OnlyAdds(groups, before, after)
    requires forall i, c :: 0 <= i < |groups| && c in groups[i] ==> c in after
    ensures TiersTaken(cs, tiers, t + 1, after)
  {
    var score := tiers[t].key;
    forall c ensures c in after <==> c in cs && ScoreDone(tiers, t + 1, c.score) {
      if c in cs {
        ScoreDoneNext(cs, tiers, t, c);
        if c.score == score {
          var i :| 0 <= i < |groups| && groups[i] == Offered(cs, score, c.group);
          OfferedMembers(cs, score, c.group);
        }
      }
      if c in after && c !in before {
        var i :| 0 <= i < |groups| && c in groups[i];
        SameOffer(cs, score, groups[i], c);
        ScoreDoneNext(cs, tiers, t, c);
      }
    }
  }

  ghost predicate Closed(cs: seq<Candidate>, selected: seq<Candidate>) {
    && Distinct(selected)
    && (forall c :: c in selected ==> c in cs)
    && (forall a, b :: a in cs && b in selected && ServedFirst(cs, a, b) ==> a in selected)
  }

  lemma TakenMembersAreCandidates(cs: seq<Candidate>, score: real, groups: seq<seq<Candidate>>,
                                  before: seq<Candidate>, after: seq<Candidate>)
    requires Table(cs, score, groups) && OnlyAdds(groups, before, after)
    requires forall c :: c in before ==> c in cs
    ensures forall c :: c in after ==> c in cs
  {
    forall c | c in after && c !in before ensures c in cs {
      var i :| 0 <= i < |groups| && c in groups[i];
      SameOffer(cs, score, groups[i], c);
    }
  }

  lemma SortedSelection(cs: seq<Candidate>, selected: seq<Candidate>)
    requires Ascending(cs) && Closed(cs, selected)
    ensures IsSelection(cs, |selected|, Sort(DomBefore, selected))
  {
    var r := Sort(DomBefore, selected);
    SortPermutes(DomBefore, selected);
    SortSorts(DomBefore, selected);
    DistinctPermutes(selected, r);
    SamePermuted(selected, r);
    forall i, j | 0 <= i < j < |r| ensures r[i].domOrdinal < r[j].domOrdinal {
      assert DomBefore(r[i], r[j]);
      DifferentOrdinals(cs, r[i], r[j]);
    }
  }

  lemma AllTiersTaken(cs: seq<Candidate>, tiers: seq<Bucket<real>>, selected: seq<Candidate>)
    requires Ascending(cs) && TiersTaken(cs, tiers, |tiers|, selected)
    ensures |selected| == |cs|
  {
    DistinctFits(cs, selected);
    DistinctFits(selected, cs);
  }

  lemma BudgetSpent(cs: seq<Candidate>, score: real, groups: seq<seq<Candidate>>,
                    before: seq<Candidate>, after: seq<Candidate>, round: nat, j: nat)
    requires Ascending(cs) && Table(cs, score, groups)
    requires forall c :: c in before <==> c in cs && c.score > score
    requires TakenUpTo(groups, after, round, j) && OnlyAdds(groups, before, after)
    ensures IsSelection(cs, |after|, Sort(DomBefore, after)) && |after| <= |cs|
  {
    TierIsClosed(cs, score, groups, before, after, round, j);
    TakenMembersAreCandidates(cs, score, groups, before, after);
    SortedSelection(cs, after);
    DistinctFits(after, cs);
  }

  lemma ApartFromTable(cs: seq<Candidate>, tiers: seq<Bucket<real>>, t: nat, groups: seq<seq<Candidate>>,
      before: seq<Candidate>)
    requires Tiers(cs, tiers) && t < |tiers| && TiersTaken(cs, tiers, t, before) && Table(cs, tiers[t].key, groups)
    ensures forall i, c :: 0 <= i < |groups| && c in groups[i] ==> c !in before
  {
    forall i, c | 0 <= i < |groups| && c in groups[i] ensures c !in before {
      SameOffer(cs, tiers[t].key, groups[i], c);
    }
  }

  /** The body of the loop over the tiers; the whole of the earlier tiers is selected before it. */
  method TakeTier(ghost cs: seq<Candidate>, ghost tiers: seq<Bucket<real>>, ghost t: nat, tier: Bucket<real>,
                  selected: seq<Candidate>, maxEntries: int) returns (after: seq<Candidate>)
    requires Ascending(cs) && Tiers(cs, tiers) && t < |tiers| && tier == tiers[t]
    requires TiersTaken(cs, tiers, t, selected) && (|selected| < maxEntries || selected == [])
    ensures |after| < maxEntries ==> TiersTaken(cs, tiers, t + 1, after)
    ensures |after| >= maxEntries
      ==> |after| == Max(0, maxEntries) <= |cs| && IsSelection(cs, |after|, Sort(DomBefore, after))
  {
    var groups := SpreadGroups(cs, tier.key, tier.members);
    TableIsAllDifferent(cs, tier.key, groups);
    ApartFromTable(cs, tiers, t, groups, selected);
    ghost var round, j;
    after, round, j := TakeTurns(groups, selected, maxEntries);
    if |after| >= maxEntries {
      BudgetSpent(cs, tier.key, groups, selected, after, round, j);
    } else {
      NextTierTaken(cs, tiers, t, groups, selected, after);
    }
  }

  method SelectCandidateBudget(cs: seq<Candidate>, maxEntries: int) returns (r: seq<Candidate>)
    requires Ascending(cs)
    ensures IsSelection(cs, Min(|cs|, Max(0, maxEntries)), r)
  {
    if |cs| <= maxEntries { return cs; }
    var buckets := GroupBy(ScoreOf, cs);
    var orderedTiers := Sort(ScoresBefore, buckets);
    SortedBucketsAreTiers(cs, buckets);
    var selected: seq<Candidate> := [];
    var t := 0;
    while t < |orderedTiers|
      invariant 0 <= t <= |orderedTiers|
      invariant TiersTaken(cs, orderedTiers, t, selected)
      invariant |selected| < maxEntries || selected == []
    {
      var after := TakeTier(cs, orderedTiers, t, orderedTiers[t], selected, maxEntries);
      if |after| >= maxEntries { return Sort(DomBefore, after); }
      selected := after;
      t := t + 1;
    }
    AllTiersTaken(cs, orderedTiers, selected);
    r := Sort(DomBefore, selected);
  }

  // ----- what a selection guarantees -----

  lemma HasTurn(cs: seq<Candidate>, c: Candidate) returns (k: nat)
    requires c in cs
    ensures InTurn(cs, c, k)
  {
    OfferedMembers(cs, c.score, c.group);
    k :| 0 <= k < |Offered(cs, c.score, c.group)| && Offered(cs, c.score, c.group)[k] == c;
  }

  lemma ServedInSomeOrder(cs: seq<Candidate>, a: Candidate, b: Candidate)
    requires a in cs && b in cs
    ensures ServedFirst(cs, a, b) || ServedFirst(cs, b, a)
  {
    if a.score == b.score {
      var k := HasTurn(cs, a);
      var l := HasTurn(cs, b);
      assert TurnsInOrder(cs, a, k, b, l) || TurnsInOrder(cs, b, l, a, k);
    }
  }

  lemma {:induction false} AscendingUnique(s: seq<Candidate>, t: seq<Candidate>)
    requires Ascending(s) && Ascending(t) && |s| == |t|
    requires forall c :: c in s <==> c in t
    ensures s == t
  {
    var n := |s|;
    if n > 0 {
      assert s[n - 1] in t && t[n - 1] in s;
      var i :| 0 <= i < n && t[i] == s[n - 1];
      var j :| 0 <= j < n && s[j] == t[n - 1];
      assert i == n - 1;
      var init, tail := s[..n - 1], t[..n - 1];
      forall c ensures c in init <==> c in tail {
        assert c in s <==> c in init || c == s[n - 1];
        assert c in t <==> c in tail || c == t[n - 1];
        assert s[n - 1] !in init && t[n - 1] !in tail;
      }
      AscendingUnique(init, tail);
      assert s == init + [s[n - 1]] && t == tail + [t[n - 1]];
    }
  }

  lemma SelectionContained(cs: seq<Candidate>, n: int, s: seq<Candidate>, t: seq<Candidate>, c: Candidate)
    requires IsSelection(cs, n, s) && IsSelection(cs, n, t) && c in s
    ensures c in t
  {
    if c !in t {
      if forall d :: d in t ==> d in s {
        DistinctFits(t + [c], s);
        assert false;
      }
      var d :| d in t && d !in s;
      ServedInSomeOrder(cs, c, d);
    }
  }

  /** The specification leaves no choice: the budget determines the selection. */
  lemma SelectionIsUnique(cs: seq<Candidate>, n: int, s: seq<Candidate>, t: seq<Candidate>)
    requires IsSelection(cs, n, s) && IsSelection(cs, n, t)
    ensures s == t
  {
    forall c ensures c in s <==> c in t {
      if c in s { SelectionContained(cs, n, s, t, c); }
      if c in t { SelectionContained(cs, n, t, s, c); }
    }
    AscendingUnique(s, t);
  }

  /** How many of these are selected. */
  ghost function Picked(offer: seq<Candidate>, s: seq<Candidate>): nat {
    if offer == [] then 0 else Picked(offer[..|offer| - 1], s) + if offer[|offer| - 1] in s then 1 else 0
  }

  ghost predicate TakenInTurn(a: seq<Candidate>, b: seq<Candidate>, s: seq<Candidate>) {
    forall k, l :: 0 <= k < |a| && 0 <= l < |b| ==>
      (b[l] in s && (k < l || (k == l && FirstOrdinal(a) <= FirstOrdinal(b))) ==> a[k] in s)
  }

  lemma {:induction false} PickedPrefix(offer: seq<Candidate>, s: seq<Candidate>, i: nat)
    requires TakenInTurn(offer, offer, s) && i < |offer|
    ensures offer[i] in s <==> i < Picked(offer, s)
    ensures Picked(offer, s) <= |offer|
    decreases |offer|
  {
    var init, last := offer[..|offer| - 1], offer[|offer| - 1];
    assert TakenInTurn(init, init, s);
    if init != [] {
      PickedPrefix(init, s, |init| - 1);
      PickedPrefix(init, s, if i < |init| then i else 0);
    }
  }

  lemma TurnInOffer(cs: seq<Candidate>, score: real, offer: seq<Candidate>, k: nat)
    requires IsOffer(cs, score, offer) && k < |offer|
    ensures var c := offer[k];
      c in cs && c.score == score && InTurn(cs, c, k) && Offered(cs, c.score, c.group) == offer
  {
    SameOffer(cs, score, offer, offer[k]);
  }

  lemma InTurnMeansServed(cs: seq<Candidate>, n: int, s: seq<Candidate>, a: Candidate, k: nat, b: Candidate, l: nat)
    requires IsSelection(cs, n, s) && a in cs && b in s
    requires a.score == b.score && InTurn(cs, a, k) && InTurn(cs, b, l)
    requires k < l ||
      (k == l && FirstOrdinal(Offered(cs, a.score, a.group)) <= FirstOrdinal(Offered(cs, b.score, b.group)))
    ensures a in s
  {
    assert TurnsInOrder(cs, a, k, b, l);
    assert ServedFirst(cs, a, b);
  }

  lemma EarlierInOffer(cs: seq<Candidate>, n: int, s: seq<Candidate>, a: seq<Candidate>, b: seq<Candidate>,
                       score: real, k: nat, l: nat)
    requires IsSelection(cs, n, s) && IsOffer(cs, score, a) && IsOffer(cs, score, b)
    requires l < |b| && b[l] in s && k < |a|
    requires k < l || (k == l && FirstOrdinal(a) <= FirstOrdinal(b))
    ensures a[k] in s
  {
    TurnInOffer(cs, score, a, k);
    TurnInOffer(cs, score, b, l);
    InTurnMeansServed(cs, n, s, a[k], k, b[l], l);
  }

  lemma TopScores(cs: seq<Candidate>, n: int, s: seq<Candidate>, c: Candidate, d: Candidate)
    requires IsSelection(cs, n, s) && c in s && d in cs && d !in s
    ensures c.score >= d.score
  {
    assert !ServedFirst(cs, d, c);
  }

  lemma FairCounts(a: seq<Candidate>, b: seq<Candidate>, s: seq<Candidate>)
    requires TakenInTurn(a, a, s) && TakenInTurn(b, b, s) && TakenInTurn(a, b, s) && a != [] && b != []
    ensures Picked(b, s) <= Picked(a, s) + 1 || Picked(a, s) == |a|
    ensures Picked(b, s) == Picked(a, s) + 1 && Picked(a, s) < |a| ==> FirstOrdinal(b) <= FirstOrdinal(a)
  {
    var k, l := Picked(a, s), Picked(b, s);
    PickedPrefix(a, s, 0);
    PickedPrefix(b, s, 0);
    if k < |a| && k < l {
      PickedPrefix(a, s, k);
      PickedPrefix(b, s, l - 1);
      assert a[k] !in s && b[l - 1] in s;
    }
  }

  lemma OfferSharesAreFair(cs: seq<Candidate>, n: int, s: seq<Candidate>, score: real, a: seq<Candidate>,
      b: seq<Candidate>)
    requires IsSelection(cs, n, s) && IsOffer(cs, score, a) && IsOffer(cs, score, b)
    ensures Picked(b, s) <= Picked(a, s) + 1 || Picked(a, s) == |a|
    ensures Picked(b, s) == Picked(a, s) + 1 && Picked(a, s) < |a| ==> FirstOrdinal(b) <= FirstOrdinal(a)
  {
    OffersTakenInTurn(cs, n, s, score, a, a);
    OffersTakenInTurn(cs, n, s, score, b, b);
    OffersTakenInTurn(cs, n, s, score, a, b);
    FairCounts(a, b, s);
  }

  lemma OffersTakenInTurn(cs: seq<Candidate>, n: int, s: seq<Candidate>, score: real, a: seq<Candidate>,
      b: seq<Candidate>)
    requires IsSelection(cs, n, s) && IsOffer(cs, score, a) && IsOffer(cs, score, b)
    ensures TakenInTurn(a, b, s)
  {
    forall k, l | 0 <= k < |a| && 0 <= l < |b| && b[l] in s && (k < l || (k == l && FirstOrdinal(a) <= FirstOrdinal(b)))
      ensures a[k] in s
    {
      EarlierInOffer(cs, n, s, a, b, score, k, l);
    }
  }

  /** The picks of a group are a prefix of the order in which it offers its members. */
  lemma PicksArePrefix(cs: seq<Candidate>, n: int, s: seq<Candidate>, score: real, offer: seq<Candidate>, i: nat)
    requires IsSelection(cs, n, s) && IsOffer(cs, score, offer) && i < |offer|
    ensures offer[i] in s <==> i < Picked(offer, s)
    ensures Picked(offer, s) <= |offer|
  {
    OffersTakenInTurn(cs, n, s, score, offer, offer);
    PickedPrefix(offer, s, i);
  }

  lemma OfferIsSpreadRun(cs: seq<Candidate>, score: real, group: GroupKey)
    requires Ascending(cs)
    ensures var run := Run(cs, score, group);
      Within(SpreadOrder(|run|), |run|) && Offered(cs, score, group) == Pick(run, SpreadOrder(|run|))
  {
    var run := Run(cs, score, group);
    MatchingAscends(ScoreOf, cs, score);
    MatchingAscends(GroupOf, Matching(ScoreOf, cs, score), group);
    SortOfSorted(DomBefore, run);
    SpreadOrderWithin(|run|);
  }

  /** The positions of its run that a group gets: the first so many of the spread order. */
  lemma PickedPositions(cs: seq<Candidate>, n: int, s: seq<Candidate>, score: real, group: GroupKey, p: nat)
    requires Ascending(cs) && IsSelection(cs, n, s) && p < |Run(cs, score, group)|
    ensures var k := Picked(Offered(cs, score, group), s);
      && k <= |SpreadOrder(|Run(cs, score, group)|)|
      && (Run(cs, score, group)[p] in s <==> p in SpreadOrder(|Run(cs, score, group)|)[..k])
  {
    var run, offer := Run(cs, score, group), Offered(cs, score, group);
    var order, k := SpreadOrder(|run|), Picked(offer, s);
    OfferIsSpreadRun(cs, score, group);
    OfferedMembers(cs, score, group);
    assert run[p] in run && offer[0] in offer;
    SpreadOrderHas(|run|, p);
    var i :| 0 <= i < |order| && order[i] == p;
    PicksArePrefix(cs, n, s, score, offer, i);
    if p in order[..k] {
      var j :| 0 <= j < k && order[j] == p;
      PicksArePrefix(cs, n, s, score, offer, j);
      assert offer[j] == run[p];
    }
    if i < k { assert order[..k][i] == p; }
  }

  // ----- shares and starts, in the terms of the candidates alone -----

  function MembersOf(cs: seq<Candidate>, score: real, group: GroupKey): set<Candidate> {
    set c | c in cs && c.score == score && c.group == group
  }

  /** How many entries a group of one score gets. */
  function Share(s: seq<Candidate>, score: real, group: GroupKey): nat { |MembersOf(s, score, group)| }

  /** Some candidate of score and group h stands in the document before all those of group g. */
  ghost predicate StartsEarlier(cs: seq<Candidate>, score: real, h: GroupKey, g: GroupKey) {
    exists b :: b in MembersOf(cs, score, h) && forall c :: c in MembersOf(cs, score, g) ==> b.domOrdinal < c.domOrdinal
  }

  lemma {:induction false} PickedIsSize(offer: seq<Candidate>, s: seq<Candidate>)
    requires Distinct(offer)
    ensures Picked(offer, s) == |set c | c in offer && c in s|
  {
    if offer != [] {
      PickedIsSize(offer[..|offer| - 1], s);
      OneMoreInBoth(offer[..|offer| - 1], offer[|offer| - 1], s);
      assert offer == offer[..|offer| - 1] + [offer[|offer| - 1]];
    }
  }

  lemma OneMoreInBoth(init: seq<Candidate>, last: Candidate, s: seq<Candidate>)
    requires last !in init
    ensures |set c | c in init + [last] && c in s| == |set c | c in init && c in s| + if last in s then 1 else 0
  {
    var some := set c | c in init && c in s;
    assert last !in some;
    assert (set c | c in init + [last] && c in s) == some + if last in s then {last} else {};
  }

  lemma ShareIsPicked(cs: seq<Candidate>, n: int, s: seq<Candidate>, score: real, group: GroupKey)
    requires Ascending(cs) && IsSelection(cs, n, s)
    ensures Share(s, score, group) == Picked(Offered(cs, score, group), s)
  {
    var offer := Offered(cs, score, group);
    OfferedIsDistinct(cs, score, group);
    OfferedMembers(cs, score, group);
    PickedIsSize(offer, s);
    assert MembersOf(s, score, group) == set c | c in offer && c in s;
  }

  /** What a group offers first is its first member in the document. */
  lemma FirstOfferedIsFirst(cs: seq<Candidate>, score: real, group: GroupKey, c: Candidate)
    requires Ascending(cs) && c in MembersOf(cs, score, group)
    ensures var offer := Offered(cs, score, group);
      IsOffer(cs, score, offer) && offer[0] in MembersOf(cs, score, group) && offer[0].domOrdinal <= c.domOrdinal
  {
    var run, offer := Run(cs, score, group), Offered(cs, score, group);
    OfferIsSpreadRun(cs, score, group);
    OfferedMembers(cs, score, group);
    MatchingAscends(ScoreOf, cs, score);
    MatchingAscends(GroupOf, Matching(ScoreOf, cs, score), group);
    assert c in run;
    var p :| 0 <= p < |run| && run[p] == c;
    SpreadOrderStarts(|run|);
    assert offer[0] == run[0] && offer[0] in offer;
  }

  /**
   Two groups of one score get the same number of entries, give or take one, unless the smaller share is a
   whole group; and the one entry more goes to the group that starts earlier in the document.
   */
  lemma SharesAreFair(cs: seq<Candidate>, n: int, s: seq<Candidate>, score: real,
                      g: GroupKey, h: GroupKey, left: Candidate)
    requires Ascending(cs) && IsSelection(cs, n, s)
    requires left in MembersOf(cs, score, g) && left !in s
    ensures Share(s, score, h) <= Share(s, score, g) + 1
    ensures Share(s, score, h) > Share(s, score, g) ==> StartsEarlier(cs, score, h, g)
  {
    var a, b := Offered(cs, score, g), Offered(cs, score, h);
    ShareIsPicked(cs, n, s, score, g);
    ShareIsPicked(cs, n, s, score, h);
    if Share(s, score, h) > Share(s, score, g) {
      var d := PickedOne(cs, n, s, score, h);
      FirstOfferedIsFirst(cs, score, g, left);
      FirstOfferedIsFirst(cs, score, h, d);
      NotAllPicked(cs, n, s, score, g, left);
      OfferSharesAreFair(cs, n, s, score, a, b);
      EarlierStart(cs, score, g, h);
    }
  }

  lemma PickedOne(cs: seq<Candidate>, n: int, s: seq<Candidate>, score: real, h: GroupKey) returns (d: Candidate)
    requires IsSelection(cs, n, s) && Share(s, score, h) > 0
    ensures d in MembersOf(cs, score, h)
  {
    assert MembersOf(s, score, h) != {};
    d :| d in MembersOf(s, score, h);
  }

  lemma NotAllPicked(cs: seq<Candidate>, n: int, s: seq<Candidate>, score: real, g: GroupKey, left: Candidate)
    requires Ascending(cs) && IsSelection(cs, n, s) && left in MembersOf(cs, score, g) && left !in s
    ensures Picked(Offered(cs, score, g), s) < |Offered(cs, score, g)|
  {
    var offer := Offered(cs, score, g);
    FirstOfferedIsFirst(cs, score, g, left);
    OfferedMembers(cs, score, g);
    var i :| 0 <= i < |offer| && offer[i] == left;
    PicksArePrefix(cs, n, s, score, offer, i);
  }

  lemma EarlierStart(cs: seq<Candidate>, score: real, g: GroupKey, h: GroupKey)
    requires Ascending(cs) && g != h && MembersOf(cs, score, g) != {} && MembersOf(cs, score, h) != {}
    requires FirstOrdinal(Offered(cs, score, h)) <= FirstOrdinal(Offered(cs, score, g))
    ensures StartsEarlier(cs, score, h, g)
  {
    var d :| d in MembersOf(cs, score, h);
    FirstOfferedIsFirst(cs, score, h, d);
    var b := Offered(cs, score, h)[0];
    forall c | c in MembersOf(cs, score, g) ensures b.domOrdinal < c.domOrdinal {
      FirstOfferedIsFirst(cs, score, g, c);
      DifferentOrdinals(cs, b, c);
    }
  }

  /**
   A group that gets at least 2^d + 1 entries gets them from all over its run: at most (size - 2) / 2^d
   members are left out between two neighbouring picks.
   */
  lemma PicksAreEvenlySpread(cs: seq<Candidate>, n: int, s: seq<Candidate>, score: real, group: GroupKey,
                             d: nat, p: nat, q: nat)
    requires Ascending(cs) && IsSelection(cs, n, s)
    requires var run := Run(cs, score, group);
      |run| > 2 && p < q < |run| && run[p] in s && run[q] in s && forall x :: p < x < q ==> run[x] !in s
    requires Share(s, score, group) >= Pow2(d) + 1
    ensures (q - p - 1) * Pow2(d) <= |Run(cs, score, group)| - 2
  {
    var run := Run(cs, score, group);
    var k := Picked(Offered(cs, score, group), s);
    ShareIsPicked(cs, n, s, score, group);
    PickedPositions(cs, n, s, score, group, p);
    PickedPositions(cs, n, s, score, group, q);
    forall x | p < x < q ensures x !in SpreadOrder(|run|)[..k] {
      PickedPositions(cs, n, s, score, group, x);
    }
    TakenAreEvenlySpread(|run|, d, k, p, q);
  }
}
