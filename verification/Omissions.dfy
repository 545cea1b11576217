/**
 What a snapshot reports about the candidates it leaves out: the region a candidate belongs to, and how many
 candidates were omitted per key, with the rarest keys merged into one when there are too many.
 */
module Omissions {
  import opened Prelude
  import opened Sorting

  // ----- regions -----

  /** An element on the way up to the body: its role, explicit or implied, and its normalised label. */
  datatype Ancestor = Ancestor(role: string, name: string)

  const LANDMARK_ROLES: set<string> :=
    {"main", "navigation", "banner", "contentinfo", "complementary", "region", "search"}

  const OTHER := "other"

  function RegionName(a: Ancestor): string { if a.name != "" then a.role + ":" + a.name else a.role }

  /** The region of the nearest landmark on the path. */
  function RegionOf(path: seq<Ancestor>): string {
    if path == [] then "unscoped"
    else if path[0].role in LANDMARK_ROLES then RegionName(path[0])
    else RegionOf(path[1..])
  }

  ghost predicate IsNearestLandmark(path: seq<Ancestor>, i: int)
    requires 0 <= i < |path|
  {
    path[i].role in LANDMARK_ROLES && forall j :: 0 <= j < i ==> path[j].role !in LANDMARK_ROLES
  }

  method CandidateRegion(path: seq<Ancestor>) returns (region: string)
    ensures region == RegionOf(path)
    ensures (forall i :: 0 <= i < |path| ==> path[i].role !in LANDMARK_ROLES) ==> region == "unscoped"
    ensures forall i :: 0 <= i < |path| && IsNearestLandmark(path, i) ==>
      region == path[i].role + (if path[i].name == "" then "" else ":" + path[i].name)
  {
    var i := 0;
    while i < |path|
      invariant 0 <= i <= |path| && RegionOf(path[i..]) == RegionOf(path)
      invariant forall j :: 0 <= j < i ==> path[j].role !in LANDMARK_ROLES
    {
      if path[i].role in LANDMARK_ROLES {
        assert RegionName(path[i]) == path[i].role + (if path[i].name == "" then "" else ":" + path[i].name);
        return RegionName(path[i]);
      }
      assert path[i..][1..] == path[i + 1..];
      i := i + 1;
    }
    return "unscoped";
  }

  /** The key of the merged rest is never a region. */
  lemma {:induction false} RegionIsNotOther(path: seq<Ancestor>)
    ensures RegionOf(path) != OTHER
  {
    if path == [] {
      assert "unscoped"[0] != OTHER[0];
    } else if path[0].role in LANDMARK_ROLES {
      LandmarkIsNotOther(path[0]);
    } else {
      RegionIsNotOther(path[1..]);
    }
  }

  lemma LandmarkIsNotOther(a: Ancestor)
    requires a.role in LANDMARK_ROLES
    ensures RegionName(a) != OTHER
  {
    assert a.role != "" && a.role[0] != OTHER[0];
    assert RegionName(a)[0] == a.role[0];
  }

  // ----- categories, and what kind of keys they and the regions are -----

  function LandmarkOf(role: string): Option<string> { if role in LANDMARK_ROLES then Some(role) else None }

  /** A level is 1 to 6. */
  function ShowLevel(level: nat): string
    requires level < 10
  {
    ["0123456789"[level]]
  }

  function CandidateCategory(role: string, interactive: bool, headingLevel: Option<nat>,
      landmark: Option<string>): string
    requires headingLevel.Some? ==> headingLevel.value < 10
  {
    if landmark.Some? && landmark.value != "" then "landmark:" + landmark.value
    else if role != "" then "role:" + role
    else if headingLevel.Some? && headingLevel.value > 0 then "heading:h" + ShowLevel(headingLevel.value)
    else if interactive then "interactive" else "structural"
  }

  /** What a category is made from: the first of these that an element has. */
  datatype Feature =
    | OfLandmark(landmark: string)
    | OfRole(role: string)
    | OfHeading(level: nat)
    | Plain(interactive: bool)

  ghost predicate HasFeature(role: string, interactive: bool, headingLevel: Option<nat>, landmark: Option<string>,
      t: Feature)
  {
    var scoped := landmark.Some? && landmark.value != "";
    var heads := headingLevel.Some? && headingLevel.value > 0;
    match t
    case OfLandmark(name) => scoped && name == landmark.value
    case OfRole(name) => !scoped && role != "" && name == role
    case OfHeading(level) => !scoped && role == "" && heads && level == headingLevel.value
    case Plain(b) => !scoped && role == "" && !heads && b == interactive
  }

  lemma SameRest(prefix: string, a: string, b: string)
    ensures prefix + a == prefix + b <==> a == b
  {
    assert (prefix + a)[|prefix|..] == a && (prefix + b)[|prefix|..] == b;
  }

  /** Two elements have the same category exactly when the first feature that each of them has is the same. */
  lemma CategoryTells(role: string, interactive: bool, headingLevel: Option<nat>, landmark: Option<string>,
      role': string, interactive': bool, headingLevel': Option<nat>, landmark': Option<string>, t: Feature)
    requires (headingLevel.Some? ==> headingLevel.value < 10) && (headingLevel'.Some? ==> headingLevel'.value < 10)
    requires HasFeature(role, interactive, headingLevel, landmark, t)
    ensures CandidateCategory(role, interactive, headingLevel, landmark)
      == CandidateCategory(role', interactive', headingLevel', landmark')
      <==> HasFeature(role', interactive', headingLevel', landmark', t)
  {
    var (c, d) := (CandidateCategory(role, interactive, headingLevel, landmark),
                   CandidateCategory(role', interactive', headingLevel', landmark'));
    assert "landmark:"[0] != "role:"[0] && "structural"[0] == 's' && "interactive"[0] == 'i' && "heading:h"[0] == 'h';
    assert c[0] == (match t case OfLandmark(_) => 'l' case OfRole(_) => 'r' case OfHeading(_) => 'h'
                    case Plain(b) => if b then 'i' else 's');
    match t
    case OfLandmark(name) => if landmark'.Some? { SameRest("landmark:", name, landmark'.value); }
    case OfRole(name) => SameRest("role:", name, role');
    case OfHeading(level) =>
      if headingLevel'.Some? {
        SameRest("heading:h", ShowLevel(level), ShowLevel(headingLevel'.value));
        LevelsDiffer(level, headingLevel'.value);
      }
    case Plain(_) =>
  }

  lemma LevelsDiffer(a: nat, b: nat)
    requires a < 10 && b < 10
    ensures ShowLevel(a) == ShowLevel(b) <==> a == b
  {
    assert ShowLevel(a)[0] == "0123456789"[a] && ShowLevel(b)[0] == "0123456789"[b];
  }

  /** The names every object of the host language inherits. */
  const INHERITED: set<string> :=
    {"constructor", "hasOwnProperty", "isPrototypeOf", "propertyIsEnumerable", "toLocaleString", "toString", "valueOf",
     "__proto__", "__defineGetter__", "__defineSetter__", "__lookupGetter__", "__lookupSetter__"}

  /**
   A key for which a plain object is a faithful record: it inherits nothing under that name, and lists it where it
   was inserted, which it does not do for a number.
   */
  predicate IsPlainKey(key: string) { key !in INHERITED && key != "" && !('0' <= key[0] <= '9') }

  /** The beginnings of regions and categories, each compared with the inherited names that begin alike. */
  lemma PlainByItsBeginning(key: string)
    requires |key| >= 4
    requires key[0] in "bmnrslu" || (key[0] == 'c' && key[3] != 's') || (key[0] in "hi" && key[1] in "en")
    ensures IsPlainKey(key)
  {
    assert "constructor"[3] == 's' && "hasOwnProperty"[1] == 'a' && "isPrototypeOf"[1] == 's';
    assert "propertyIsEnumerable"[0] == 'p' && "toLocaleString"[0] == "toString"[0] == 't' && "valueOf"[0] == 'v';
    assert "__proto__"[0] == "__defineGetter__"[0] == "__defineSetter__"[0] == '_';
    assert "__lookupGetter__"[0] == "__lookupSetter__"[0] == '_';
  }

  lemma CategoryIsPlainKey(role: string, interactive: bool, headingLevel: Option<nat>, landmark: Option<string>)
    requires headingLevel.Some? ==> headingLevel.value < 10
    ensures IsPlainKey(CandidateCategory(role, interactive, headingLevel, landmark))
  {
    PlainByItsBeginning(CandidateCategory(role, interactive, headingLevel, landmark));
  }

  lemma LandmarkIsPlainKey(a: Ancestor)
    requires a.role in LANDMARK_ROLES
    ensures IsPlainKey(RegionName(a))
  {
    assert |a.role| >= 4 && RegionName(a)[..4] == a.role[..4];
    var r := RegionName(a);
    assert r[0] == a.role[0] && r[3] == a.role[3];
    PlainByItsBeginning(r);
  }

  lemma {:induction false} RegionIsPlainKey(path: seq<Ancestor>)
    ensures IsPlainKey(RegionOf(path))
  {
    if path == [] {
      PlainByItsBeginning("unscoped");
    } else if path[0].role in LANDMARK_ROLES {
      LandmarkIsPlainKey(path[0]);
    } else {
      RegionIsPlainKey(path[1..]);
    }
  }

  // ----- counting -----

  datatype Entry<K> = Entry(key: K, count: nat)

  function Total<K>(entries: seq<Entry<K>>): nat {
    if entries == [] then 0 else entries[0].count + Total(entries[1..])
  }

  /** The position of a key, or the length of the record when it has none. */
  function Find<K(==)>(entries: seq<Entry<K>>, key: K): (i: nat)
    ensures i <= |entries|
    ensures i < |entries| ==> entries[i].key == key
    ensures forall j :: 0 <= j < i ==> entries[j].key != key
  {
    if entries == [] || entries[0].key == key then 0 else 1 + Find(entries[1..], key)
  }

  /** Assignment to a key of a JavaScript object. */
  function Put<K(==)>(entries: seq<Entry<K>>, key: K, count: nat): seq<Entry<K>> {
    var i := Find(entries, key);
    if i < |entries| then entries[i := Entry(key, count)] else entries + [Entry(key, count)]
  }

  function CountSoFar<K(==)>(entries: seq<Entry<K>>, key: K): nat {
    var i := Find(entries, key);
    if i < |entries| then entries[i].count else 0
  }

  ghost predicate DistinctEntryKeys<K>(entries: seq<Entry<K>>) {
    forall i, j :: 0 <= i < j < |entries| ==> entries[i].key != entries[j].key
  }

  /** The entries are the keys that occur, each with the number of its occurrences. */
  ghost predicate Counts<K>(entries: seq<Entry<K>>, values: seq<K>) {
    && DistinctEntryKeys(entries)
    && (forall i :: 0 <= i < |entries| ==> entries[i].count == multiset(values)[entries[i].key] > 0)
    && (forall v :: v in values ==> exists i :: 0 <= i < |entries| && entries[i].key == v)
  }

  lemma {:induction false} TotalAppend<K>(a: seq<Entry<K>>, b: seq<Entry<K>>)
    ensures Total(a + b) == Total(a) + Total(b)
  {
    if a == [] {
      assert a + b == b;
    } else {
      assert (a + b)[1..] == a[1..] + b;
      TotalAppend(a[1..], b);
    }
  }

  lemma TotalUpdate<K>(entries: seq<Entry<K>>, i: nat, e: Entry<K>)
    requires i < |entries|
    ensures Total(entries[i := e]) == Total(entries) - entries[i].count + e.count
  {
    var before, after := entries[..i], entries[i + 1..];
    assert entries == before + ([entries[i]] + after);
    assert entries[i := e] == before + ([e] + after);
    TotalAppend(before, [entries[i]] + after);
    TotalAppend(before, [e] + after);
    TotalAppend([entries[i]], after);
    TotalAppend([e], after);
  }

  lemma PutTotal<K>(entries: seq<Entry<K>>, key: K, count: nat)
    ensures Total(Put(entries, key, count)) ==
      Total(entries) + count - CountSoFar(entries, key)
  {
    var i := Find(entries, key);
    if i < |entries| { TotalUpdate(entries, i, Entry(key, count)); } else { TotalAppend(entries, [Entry(key, count)]); }
  }

  lemma CountOne<K>(entries: seq<Entry<K>>, values: seq<K>, v: K)
    requires Counts(entries, values)
    ensures Counts(Put(entries, v, multiset(values)[v] + 1), values + [v])
  {
    var i := Find(entries, v);
    var after := Put(entries, v, multiset(values)[v] + 1);
    assert multiset(values + [v]) == multiset(values) + multiset{v};
    forall w | w in values + [v] ensures exists j :: 0 <= j < |after| && after[j].key == w {
      if w == v {
        assert after[i].key == v;
      } else {
        var j :| 0 <= j < |entries| && entries[j].key == w;
        assert after[j].key == w;
      }
    }
  }

  lemma FoundCount<K>(entries: seq<Entry<K>>, values: seq<K>, v: K)
    requires Counts(entries, values)
    ensures CountSoFar(entries, v) == multiset(values)[v]
  {
    assert v in multiset(values) <==> v in values;
  }

  function CountUp<K(==)>(entries: seq<Entry<K>>, key: K): seq<Entry<K>> {
    Put(entries, key, CountSoFar(entries, key) + 1)
  }

  lemma CountNext<K>(entries: seq<Entry<K>>, values: seq<K>, v: K)
    requires Counts(entries, values) && Total(entries) == |values|
    ensures Counts(CountUp(entries, v), values + [v]) && Total(CountUp(entries, v)) == |values| + 1
  {
    FoundCount(entries, values, v);
    CountOne(entries, values, v);
    PutTotal(entries, v, CountSoFar(entries, v) + 1);
  }

  /** Frequent keys first; equally frequent ones in the order of their names. */
  function ByFrequency<K>(keyOrder: (K, K) -> bool): (Entry<K>, Entry<K>) -> bool {
    (a: Entry<K>, b: Entry<K>) => a.count > b.count || (a.count == b.count && keyOrder(a.key, b.key))
  }

  lemma ByFrequencyIsPreorder<K(!new)>(keyOrder: (K, K) -> bool)
    requires TotalPreorder(keyOrder)
    ensures TotalPreorder(ByFrequency(keyOrder))
  {
    var leq := ByFrequency(keyOrder);
    forall a, b ensures leq(a, b) || leq(b, a) {
      assert keyOrder(a.key, b.key) || keyOrder(b.key, a.key);
    }
    forall a, b, c | leq(a, b) && leq(b, c) ensures leq(a, c) {
      if a.count == b.count == c.count { assert keyOrder(a.key, b.key) && keyOrder(b.key, c.key); }
    }
  }

  lemma {:induction false} InsertTotal<K>(leq: (Entry<K>, Entry<K>) -> bool, e: Entry<K>, s: seq<Entry<K>>)
    ensures Total(Insert(leq, e, s)) == e.count + Total(s)
  {
    if s != [] { InsertTotal(leq, e, s[1..]); }
  }

  lemma {:induction false} SortTotal<K>(leq: (Entry<K>, Entry<K>) -> bool, s: seq<Entry<K>>)
    ensures Total(Sort(leq, s)) == Total(s)
  {
    if s != [] {
      SortTotal(leq, s[1..]);
      InsertTotal(leq, s[0], Sort(leq, s[1..]));
    }
  }

  lemma CountsPermuted<K>(a: seq<Entry<K>>, b: seq<Entry<K>>, values: seq<K>)
    requires Counts(a, values) && multiset(a) == multiset(b)
    ensures Counts(b, values)
  {
    SamePermuted(a, b);
    DistinctPermutes(a, b);
    forall i | 0 <= i < |b| ensures b[i].count == multiset(values)[b[i].key] > 0 {
      assert b[i] in a;
    }
    forall v | v in values ensures exists i :: 0 <= i < |b| && b[i].key == v {
      var i :| 0 <= i < |a| && a[i].key == v;
      assert a[i] in b;
    }
  }

  /** All keys are reported unless a positive or negative limit is exceeded; a limit of zero is no limit. */
  predicate AllReported(keys: nat, maxBuckets: Option<int>) {
    maxBuckets.None? || maxBuckets.value == 0 || keys <= maxBuckets.value
  }

  function KeptBuckets(maxBuckets: Option<int>): nat { Max(0, maxBuckets.GetOr(1) - 1) }

  /** What is reported of all the keys: every one, or the first ones and a single count for the rest. */
  function Reported<K(==)>(ordered: seq<Entry<K>>, maxBuckets: Option<int>, other: K): seq<Entry<K>> {
    if AllReported(|ordered|, maxBuckets) then ordered else
      var kept := KeptBuckets(maxBuckets);
      Put(ordered[..kept], other, Total(ordered[kept..]))
  }

  ghost predicate IsOrderedCount<K>(ordered: seq<Entry<K>>, values: seq<K>, keyOrder: (K, K) -> bool) {
    && Counts(ordered, values) && Total(ordered) == |values|
    && forall i, j :: 0 <= i < j < |ordered| ==>
         ordered[i].count > ordered[j].count
         || (ordered[i].count == ordered[j].count && keyOrder(ordered[i].key, ordered[j].key))
  }

  method CountValues<K(==)>(values: seq<K>) returns (counts: seq<Entry<K>>)
    ensures Counts(counts, values) && Total(counts) == |values|
  {
    counts := [];
    ghost var seen: seq<K> := [];
    for i := 0 to |values|
      invariant seen == values[..i]
      invariant Counts(counts, seen) && Total(counts) == |seen|
    {
      CountNext(counts, seen, values[i]);
      counts := CountUp(counts, values[i]);
      seen := seen + [values[i]];
    }
    assert seen == values;
  }

  lemma SortCounts<K(!new)>(counts: seq<Entry<K>>, values: seq<K>, keyOrder: (K, K) -> bool)
    requires Counts(counts, values) && TotalPreorder(keyOrder)
    ensures var sorted := Sort(ByFrequency(keyOrder), counts);
      Counts(sorted, values) && Total(sorted) == Total(counts) && SortedBy(ByFrequency(keyOrder), sorted)
  {
    ByFrequencyIsPreorder(keyOrder);
    SortPermutes(ByFrequency(keyOrder), counts);
    SortSorts(ByFrequency(keyOrder), counts);
    CountsPermuted(counts, Sort(ByFrequency(keyOrder), counts), values);
    SortTotal(ByFrequency(keyOrder), counts);
  }

  /**
   What is reported for these values: all keys with their counts, the most frequent first, merged beyond the
   limit.
   */
  ghost predicate IsOmissionCount<K(!new)>(r: seq<Entry<K>>, values: seq<K>, maxBuckets: Option<int>, other: K,
                                           keyOrder: (K, K) -> bool) {
    exists ordered: seq<Entry<K>> :: IsOrderedCount(ordered, values, keyOrder)
      && r == Reported(ordered, maxBuckets, other)
  }

  method CountOmissions<K(==, !new)>(values: seq<K>, maxBuckets: Option<int>, other: K, keyOrder: (K, K) -> bool)
      returns (r: seq<Entry<K>>)
    requires TotalPreorder(keyOrder)
    ensures IsOmissionCount(r, values, maxBuckets, other, keyOrder)
  {
    var counts := CountValues(values);
    var ordered := Sort(ByFrequency(keyOrder), counts);
    SortCounts(counts, values, keyOrder);
    if AllReported(|ordered|, maxBuckets) {
      r := ordered;
    } else {
      var retained := ordered[..KeptBuckets(maxBuckets)];
      r := Put(retained, other, Total(ordered[|retained|..]));
    }
    assert IsOrderedCount(ordered, values, keyOrder) && r == Reported(ordered, maxBuckets, other);
  }

  /** The reported counts add up exactly when no kept key is the name of the merged rest. */
  lemma CountsAddUp<K>(ordered: seq<Entry<K>>, values: seq<K>, maxBuckets: Option<int>, other: K)
    requires Counts(ordered, values) && Total(ordered) == |values|
    ensures Total(Reported(ordered, maxBuckets, other)) == |values|
      <==> (AllReported(|ordered|, maxBuckets)
            || forall i :: 0 <= i < KeptBuckets(maxBuckets) ==> ordered[i].key != other)
  {
    if !AllReported(|ordered|, maxBuckets) { MergedAddUp(ordered, KeptBuckets(maxBuckets), other); }
  }

  /**
   Beyond a limit the keys before the last place keep their counts, in order; the rest is one count under the
   name of the rest, in the place of a kept key of that name if there is one and behind them otherwise.
   */
  lemma RestIsMerged<K>(ordered: seq<Entry<K>>, limit: int, other: K)
    requires limit != 0 && |ordered| > limit && DistinctEntryKeys(ordered)
    ensures var (r, kept) := (Reported(ordered, Some(limit), other), if limit > 1 then limit - 1 else 0);
      && kept <= |r| <= kept + 1 && kept <= |ordered|
      && (|r| == kept + 1 <==> forall i :: 0 <= i < kept ==> ordered[i].key != other)
      && (forall i :: 0 <= i < kept && ordered[i].key != other ==> r[i] == ordered[i])
      && (forall i :: 0 <= i < |r| && (i == kept || ordered[i].key == other) ==>
            r[i] == Entry(other, Total(ordered[kept..])))
  {
  }

  /** Up to the limit, and without one, every key is reported with its count. */
  lemma AllAreReported<K>(ordered: seq<Entry<K>>, maxBuckets: Option<int>, other: K)
    requires maxBuckets == None || maxBuckets == Some(0) || (maxBuckets.Some? && |ordered| <= maxBuckets.value)
    ensures Reported(ordered, maxBuckets, other) == ordered
  {
  }

  function TwoOfOther<K>(other: K, x: K, y: K): seq<Entry<K>> { [Entry(other, 2), Entry(x, 1), Entry(y, 1)] }

  lemma CountThem<K>(other: K, x: K, y: K)
    requires x != other && y != other && x != y
    ensures var m := multiset([other, other, x, y]); m[other] == 2 && m[x] == 1 && m[y] == 1
  {
    assert multiset([other, other, x, y]) == multiset{other, other, x, y};
  }

  lemma TwoOfOtherCounts<K>(other: K, x: K, y: K)
    requires x != other && y != other && x != y
    ensures Counts(TwoOfOther(other, x, y), [other, other, x, y])
  {
    CountThem(other, x, y);
    var entries := TwoOfOther(other, x, y);
    forall v | v in [other, other, x, y] ensures exists i :: 0 <= i < |entries| && entries[i].key == v {
      assert entries[0].key == other && entries[1].key == x && entries[2].key == y;
    }
  }

  lemma TwoOfOtherTotal<K>(other: K, x: K, y: K)
    ensures Total(TwoOfOther(other, x, y)) == 4
  {
    TotalAppend([Entry(other, 2)], [Entry(x, 1), Entry(y, 1)]);
    TotalAppend([Entry(x, 1)], [Entry(y, 1)]);
    assert [Entry(other, 2)] + [Entry(x, 1), Entry(y, 1)] == TwoOfOther(other, x, y);
    assert [Entry(x, 1)] + [Entry(y, 1)] == [Entry(x, 1), Entry(y, 1)];
    assert [Entry(other, 2)][1..] == [] && [Entry(x, 1)][1..] == [] && [Entry(y, 1)][1..] == [];
  }

  /** Two of the name of the rest and two others, with room for two keys: counts are lost. */
  lemma KeptOtherIsLost<K>(other: K, x: K, y: K)
    requires x != other && y != other && x != y
    ensures var ordered := TwoOfOther(other, x, y);
      Counts(ordered, [other, other, x, y]) && Total(ordered) == 4 && Total(Reported(ordered, Some(2), other)) != 4
  {
    TwoOfOtherCounts(other, x, y);
    TwoOfOtherTotal(other, x, y);
    CountsAddUp(TwoOfOther(other, x, y), [other, other, x, y], Some(2), other);
  }

  lemma MergedAddUp<K>(ordered: seq<Entry<K>>, kept: nat, other: K)
    requires kept <= |ordered| && forall i :: 0 <= i < |ordered| ==> ordered[i].count > 0
    ensures Total(Put(ordered[..kept], other, Total(ordered[kept..]))) == Total(ordered)
      <==> forall i :: 0 <= i < kept ==> ordered[i].key != other
  {
    var retained, rest := ordered[..kept], ordered[kept..];
    assert ordered == retained + rest;
    TotalAppend(retained, rest);
    PutTotal(retained, other, Total(rest));
    var i := Find(retained, other);
    if i < |retained| { assert ordered[i].count > 0; }
    assert i == |retained| ==> forall j :: 0 <= j < kept ==> retained[j].key == ordered[j].key != other;
  }
}
