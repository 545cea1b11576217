/** The end of the snapshot script: which candidates become entries, and the account of the others. */
module SnapshotReport {
  import opened Prelude
  import opened Sorting
  import opened BudgetSelection
  import opened Omissions

  /** The level of an h1 to h6. */
  type Level = l: Option<nat> | l.Some? ==> 1 <= l.value <= 6 witness None

  /** A candidate with what the report needs beside it; queryScore is a match score, so never negative. */
  datatype Found = Found(
    candidate: Candidate,
    queryScore: real,
    role: string,
    interactive: bool,
    headingLevel: Level,
    path: seq<Ancestor>)

  function CategoryOf(f: Found): string {
    CandidateCategory(f.role, f.interactive, f.headingLevel, LandmarkOf(f.role))
  }

  datatype Report = Report(
    entries: seq<Candidate>,
    truncated: bool,
    total: nat,
    budgetOmitted: nat,
    queryFiltered: nat,
    byCategory: seq<Entry<string>>,
    byRegion: seq<Entry<string>>)

  const MAX_REGIONS: int := 20

  function Where<T(!new)>(p: T -> bool, s: seq<T>): (r: seq<T>)
    ensures forall x :: x in r <==> x in s && p(x)
  {
    if s == [] then [] else
      assert forall x :: x in s <==> x == s[0] || x in s[1..];
      (if p(s[0]) then [s[0]] else []) + Where(p, s[1..])
  }

  function Not<T>(p: T -> bool): T -> bool { x => !p(x) }

  function Both<T>(p: T -> bool, q: T -> bool): T -> bool { x => p(x) && q(x) }

  lemma {:induction false} WhereSplits<T(!new)>(p: T -> bool, s: seq<T>)
    ensures multiset(s) == multiset(Where(p, s)) + multiset(Where(Not(p), s))
    ensures |s| == |Where(p, s)| + |Where(Not(p), s)|
  {
    if s != [] {
      assert s == [s[0]] + s[1..];
      WhereSplits(p, s[1..]);
    }
  }

  lemma {:induction false} WhereTwice<T(!new)>(p: T -> bool, q: T -> bool, s: seq<T>)
    ensures Where(p, Where(q, s)) == Where(Both(p, q), s)
  {
    if s != [] {
      WhereTwice(p, q, s[1..]);
      var kept := Where(q, s);
      if q(s[0]) { assert kept[0] == s[0] && kept[1..] == Where(q, s[1..]); }
      else { assert kept == Where(q, s[1..]); }
    }
  }

  lemma {:induction false} WhereSame<T(!new)>(p: T -> bool, q: T -> bool, s: seq<T>)
    requires forall x :: x in s ==> p(x) == q(x)
    ensures Where(p, s) == Where(q, s)
  {
    if s != [] { WhereSame(p, q, s[1..]); }
  }

  /**
   With `chosen` a subset of the eligible ones, what is not chosen is what was filtered out together with the
   eligible ones not chosen.
   */
  lemma OmittedSplits<T(!new)>(eligible: T -> bool, chosen: T -> bool, s: seq<T>)
    requires forall x :: x in s && chosen(x) ==> eligible(x)
    ensures multiset(Where(Not(chosen), s)) ==
      multiset(Where(Not(chosen), Where(eligible, s))) + multiset(Where(Not(eligible), s))
    ensures |Where(Not(chosen), s)| == |Where(Not(chosen), Where(eligible, s))| + |Where(Not(eligible), s)|
  {
    var omitted := Where(Not(chosen), s);
    WhereSplits(eligible, omitted);
    WhereTwice(eligible, Not(chosen), s);
    WhereTwice(Not(chosen), eligible, s);
    WhereSame(Both(eligible, Not(chosen)), Both(Not(chosen), eligible), s);
    WhereTwice(Not(eligible), Not(chosen), s);
    WhereSame(Both(Not(eligible), Not(chosen)), Not(eligible), s);
  }

  function Candidates(s: seq<Found>): (r: seq<Candidate>)
    ensures |r| == |s| && forall i :: 0 <= i < |r| ==> r[i] == s[i].candidate
  {
    seq(|s|, i requires 0 <= i < |s| => s[i].candidate)
  }

  function Categories(s: seq<Found>): (r: seq<string>)
    ensures |r| == |s| && forall i :: 0 <= i < |r| ==>
      r[i] == CandidateCategory(s[i].role, s[i].interactive, s[i].headingLevel,
                                if s[i].role in LANDMARK_ROLES then Some(s[i].role) else None)
  {
    seq(|s|, i requires 0 <= i < |s| => CategoryOf(s[i]))
  }

  function Regions(s: seq<Found>): (r: seq<string>)
    ensures |r| == |s| && forall i :: 0 <= i < |r| ==> r[i] == RegionOf(s[i].path)
  {
    seq(|s|, i requires 0 <= i < |s| => RegionOf(s[i].path))
  }

  /** Without a query every candidate is eligible; with one, those that match it at all. */
  function Eligible(query: bool): Found -> bool { (f: Found) => !query || f.queryScore > 0.0 }

  function Chosen(entries: seq<Candidate>): Found -> bool { (f: Found) => f.candidate in entries }

  lemma {:induction false} WhereAscends(p: Found -> bool, s: seq<Found>)
    requires Ascending(Candidates(s))
    ensures Ascending(Candidates(Where(p, s)))
  {
    if s != [] {
      var rest := s[1..];
      assert forall i :: 0 <= i < |rest| ==> Candidates(rest)[i] == Candidates(s)[i + 1];
      WhereAscends(p, rest);
      var kept := Where(p, rest);
      forall i | 0 <= i < |kept| ensures s[0].candidate.domOrdinal < kept[i].candidate.domOrdinal {
        assert kept[i] in rest;
        var j :| 0 <= j < |rest| && rest[j] == kept[i];
        assert Candidates(s)[0].domOrdinal < Candidates(s)[j + 1].domOrdinal;
      }
    }
  }

  /** The eligible candidates that were chosen are the selection itself. */
  lemma ChosenAreEntries(eligible: seq<Found>, n: int, entries: seq<Candidate>)
    requires Ascending(Candidates(eligible)) && IsSelection(Candidates(eligible), n, entries)
    ensures Candidates(Where(Chosen(entries), eligible)) == entries
  {
    var chosen := Where(Chosen(entries), eligible);
    WhereAscends(Chosen(entries), eligible);
    forall c ensures c in Candidates(chosen) <==> c in entries {
      if c in Candidates(chosen) {
        var i :| 0 <= i < |chosen| && chosen[i].candidate == c;
        assert chosen[i] in chosen;
      }
      if c in entries {
        var i :| 0 <= i < |eligible| && Candidates(eligible)[i] == c;
        assert eligible[i] in eligible;
        assert eligible[i] in chosen;
        var j :| 0 <= j < |chosen| && chosen[j] == eligible[i];
        assert Candidates(chosen)[j] == c;
      }
    }
    DistinctFits(Candidates(chosen), entries);
    DistinctFits(entries, Candidates(chosen));
    AscendingUnique(Candidates(chosen), entries);
  }

  /** Nothing is ever counted under a name that a plain object already has, or would list elsewhere. */
  lemma KeysArePlain(s: seq<Found>)
    ensures forall key :: key in Categories(s) || key in Regions(s) ==> IsPlainKey(key)
  {
    forall i | 0 <= i < |s| ensures IsPlainKey(Categories(s)[i]) && IsPlainKey(Regions(s)[i]) {
      CategoryIsPlainKey(s[i].role, s[i].interactive, s[i].headingLevel, LandmarkOf(s[i].role));
      RegionIsPlainKey(s[i].path);
    }
  }

  lemma RegionsAreNotOther(s: seq<Found>)
    ensures OTHER !in Regions(s)
  {
    forall i | 0 <= i < |s| ensures Regions(s)[i] != OTHER { RegionIsNotOther(s[i].path); }
  }

  /** Merging the regions beyond the limit loses no omission, because no region is called like the merged rest. */
  lemma RegionsAddUp(r: seq<Entry<string>>, omitted: seq<Found>, keyOrder: (string, string) -> bool)
    requires IsOmissionCount(r, Regions(omitted), Some(MAX_REGIONS), OTHER, keyOrder)
    ensures Total(r) == |omitted|
  {
    var ordered: seq<Entry<string>> :| IsOrderedCount(ordered, Regions(omitted), keyOrder)
      && r == Reported(ordered, Some(MAX_REGIONS), OTHER);
    RegionsAreNotOther(omitted);
    forall i | 0 <= i < |ordered| ensures ordered[i].key != OTHER {
      assert ordered[i].key in multiset(Regions(omitted));
    }
    CountsAddUp(ordered, Regions(omitted), Some(MAX_REGIONS), OTHER);
  }

  lemma OmittedCount(found: seq<Found>, query: bool, n: int, entries: seq<Candidate>)
    requires Ascending(Candidates(found)) && IsSelection(Candidates(Where(Eligible(query), found)), n, entries)
    ensures var omitted := Where(Not(Chosen(entries)), found);
      var budgetOmitted := Where(Not(Chosen(entries)), Where(Eligible(query), found));
      && |omitted| == |budgetOmitted| + |Where(Not(Eligible(query)), found)|
      && |budgetOmitted| == |Where(Eligible(query), found)| - |entries|
      && Candidates(Where(Chosen(entries), found)) == entries
  {
    var eligible := Where(Eligible(query), found);
    WhereAscends(Eligible(query), found);
    ChosenAreEntries(eligible, n, entries);
    WhereSplits(Chosen(entries), eligible);
    forall f | f in found && Chosen(entries)(f) ensures Eligible(query)(f) {
      ChosenIsEligible(found, query, n, entries, f);
    }
    OmittedSplits(Eligible(query), Chosen(entries), found);
    WhereTwice(Chosen(entries), Eligible(query), found);
    WhereSame(Both(Chosen(entries), Eligible(query)), Chosen(entries), found);
  }

  lemma EntryIsCandidate(cs: seq<Candidate>, n: int, entries: seq<Candidate>, c: Candidate)
    requires IsSelection(cs, n, entries) && c in entries
    ensures c in cs
  {
  }

  /** No two found candidates share their candidate. */
  lemma FoundOnce(found: seq<Found>, f: Found, g: Found)
    requires Ascending(Candidates(found)) && f in found && g in found && f.candidate == g.candidate
    ensures f == g
  {
    var j :| 0 <= j < |found| && found[j] == f;
    var k :| 0 <= k < |found| && found[k] == g;
    assert Candidates(found)[j].domOrdinal == Candidates(found)[k].domOrdinal;
  }

  lemma ChosenIsEligible(found: seq<Found>, query: bool, n: int, entries: seq<Candidate>, f: Found)
    requires Ascending(Candidates(found)) && IsSelection(Candidates(Where(Eligible(query), found)), n, entries)
    requires f in found && f.candidate in entries
    ensures Eligible(query)(f)
  {
    var eligible := Where(Eligible(query), found);
    EntryIsCandidate(Candidates(eligible), n, entries, f.candidate);
    var i :| 0 <= i < |eligible| && Candidates(eligible)[i] == f.candidate;
    assert eligible[i] in eligible;
    FoundOnce(found, f, eligible[i]);
  }

  ghost predicate IsBudgeted(found: seq<Found>, query: bool, maxEntries: int, entries: seq<Candidate>) {
    var eligible := Where(Eligible(query), found);
    IsSelection(Candidates(eligible), Min(|eligible|, Max(0, maxEntries)), entries)
  }

  /** The numbers of a report: candidates, eligible ones, entries, and those left out by the budget and by the query. */
  predicate AddUp(found: int, eligible: int, maxEntries: int, entries: int, left: int, filtered: int, omitted: int) {
    && left == Max(0, eligible - Max(0, maxEntries))
    && (left > 0 <==> eligible > Max(0, maxEntries))
    && filtered == found - eligible
    && omitted == left + filtered == found - entries
  }

  lemma BudgetArithmetic(found: int, eligible: nat, maxEntries: int, entries: int, left: int, filtered: int,
      omitted: int)
    requires entries == Min(eligible, Max(0, maxEntries)) && left == eligible - entries
    requires found == eligible + filtered && omitted == left + filtered
    ensures AddUp(found, eligible, maxEntries, entries, left, filtered, omitted)
  {
  }

  lemma BudgetedCount(found: seq<Found>, query: bool, maxEntries: int, entries: seq<Candidate>)
    requires Ascending(Candidates(found)) && IsBudgeted(found, query, maxEntries, entries)
    ensures Candidates(Where(Chosen(entries), found)) == entries
    ensures var eligible := Where(Eligible(query), found);
      AddUp(|found|, |eligible|, maxEntries, |entries|, |Where(Not(Chosen(entries)), eligible)|,
            |Where(Not(Eligible(query)), found)|, |Where(Not(Chosen(entries)), found)|)
  {
    var eligible := Where(Eligible(query), found);
    OmittedCount(found, query, Min(|eligible|, Max(0, maxEntries)), entries);
    WhereSplits(Eligible(query), found);
    BudgetArithmetic(|found|, |eligible|, maxEntries, |entries|, |Where(Not(Chosen(entries)), eligible)|,
                     |Where(Not(Eligible(query)), found)|, |Where(Not(Chosen(entries)), found)|);
  }

  method SelectEntries(found: seq<Found>, query: bool, eligible: seq<Found>, maxEntries: int)
      returns (entries: seq<Candidate>)
    requires Ascending(Candidates(found)) && eligible == Where(Eligible(query), found)
    ensures IsBudgeted(found, query, maxEntries, entries)
  {
    WhereAscends(Eligible(query), found);
    entries := SelectCandidateBudget(Candidates(eligible), maxEntries);
  }

  lemma {:induction false} WhereAll<T(!new)>(p: T -> bool, s: seq<T>)
    requires forall x :: x in s ==> p(x)
    ensures Where(p, s) == s && Where(Not(p), s) == []
  {
    if s != [] { WhereAll(p, s[1..]); }
  }

  method SplitByQuery(found: seq<Found>, query: bool) returns (eligible: seq<Found>, filtered: seq<Found>)
    requires forall f :: f in found ==> f.queryScore >= 0.0
    ensures eligible == Where(Eligible(query), found) && filtered == Where(Not(Eligible(query)), found)
  {
    if query {
      filtered := Where((f: Found) => f.queryScore == 0.0, found);
      eligible := Where((f: Found) => f.queryScore > 0.0, found);
      WhereSame((f: Found) => f.queryScore > 0.0, Eligible(query), found);
      WhereSame((f: Found) => f.queryScore == 0.0, Not(Eligible(query)), found);
    } else {
      eligible, filtered := found, [];
      WhereAll(Eligible(query), found);
    }
  }

  method CountBoth(omitted: seq<Found>, keyOrder: (string, string) -> bool)
      returns (byCategory: seq<Entry<string>>, byRegion: seq<Entry<string>>)
    requires TotalPreorder(keyOrder)
    ensures IsOmissionCount(byCategory, Categories(omitted), None, OTHER, keyOrder)
    ensures IsOmissionCount(byRegion, Regions(omitted), Some(MAX_REGIONS), OTHER, keyOrder)
    ensures Total(byCategory) == Total(byRegion) == |omitted|
  {
    byCategory := CountOmissions(Categories(omitted), None, OTHER, keyOrder);
    byRegion := CountOmissions(Regions(omitted), Some(MAX_REGIONS), OTHER, keyOrder);
    RegionsAddUp(byRegion, omitted, keyOrder);
  }

  /**
   The entries are the budgeted selection among the eligible candidates; every other candidate is counted once,
   as left out by the budget or by the query, and once by category and by region.
   */
  method BuildReport(found: seq<Found>, query: bool, maxEntries: int, keyOrder: (string, string) -> bool)
      returns (report: Report)
    requires Ascending(Candidates(found)) && forall f :: f in found ==> f.queryScore >= 0.0
    requires TotalPreorder(keyOrder)
    ensures IsBudgeted(found, query, maxEntries, report.entries)
    ensures Candidates(Where(Chosen(report.entries), found)) == report.entries
    ensures var eligible := |Where(Eligible(query), found)|;
      && report.truncated == (eligible > Max(0, maxEntries))
      && report.budgetOmitted == Max(0, eligible - Max(0, maxEntries))
      && report.queryFiltered == |found| - eligible
    ensures report.total == report.budgetOmitted + report.queryFiltered == |found| - |report.entries|
    ensures Total(report.byCategory) == Total(report.byRegion) == report.total
    ensures var omitted := Where(Not(Chosen(report.entries)), found);
      && IsOmissionCount(report.byCategory, Categories(omitted), None, OTHER, keyOrder)
      && IsOmissionCount(report.byRegion, Regions(omitted), Some(MAX_REGIONS), OTHER, keyOrder)
  {
    var eligible, filtered := SplitByQuery(found, query);
    var entries := SelectEntries(found, query, eligible, maxEntries);
    BudgetedCount(found, query, maxEntries, entries);
    var budgetOmitted := |Where(Not(Chosen(entries)), eligible)|;
    var omitted := Where(Not(Chosen(entries)), found);
    var byCategory, byRegion := CountBoth(omitted, keyOrder);
    report := Report(entries, budgetOmitted > 0, |omitted|, budgetOmitted, |filtered|, byCategory, byRegion);
  }
}
