/**
 Finding a remembered element again: how well a candidate matches a locator, and when the best match is good
 and clear enough to act on. Scores are real numbers; texts are normalised (trimmed, lower case) already.
 */
module LocatorResolution {
  import opened Prelude
  import opened Sorting

  // ----- matching texts -----

  predicate StartsWith(s: string, prefix: string) { prefix <= s }

  predicate Includes(s: string, part: string) {
    StartsWith(s, part) || (s != [] && Includes(s[1..], part))
  }

  ghost predicate OccursAt(s: string, part: string, i: nat) { i + |part| <= |s| && s[i..i + |part|] == part }

  ghost predicate Occurs(s: string, part: string) { exists i: nat :: OccursAt(s, part, i) }

  /** A text includes another one exactly when that stands somewhere in it. */
  lemma {:induction false} IncludesMeans(s: string, part: string)
    ensures Includes(s, part) <==> Occurs(s, part)
  {
    if StartsWith(s, part) {
      assert OccursAt(s, part, 0);
    } else if s != [] {
      IncludesMeans(s[1..], part);
      if Occurs(s[1..], part) {
        var i: nat :| OccursAt(s[1..], part, i);
        assert s[i + 1..i + 1 + |part|] == s[1..][i..i + |part|];
        assert OccursAt(s, part, i + 1);
      }
      if Occurs(s, part) {
        var i: nat :| OccursAt(s, part, i);
        assert i > 0;
        assert s[1..][i - 1..i - 1 + |part|] == s[i..i + |part|];
        assert OccursAt(s[1..], part, i - 1);
      }
    }
  }

  /** The words of a text. */
  function Words(s: string): seq<string> { WordsFrom(s, "") }

  function WordsFrom(s: string, word: string): seq<string>
    decreases |s|
  {
    var done := if word == "" then [] else [word];
    if s == "" then done
    else if IsSpace(s[0]) then done + WordsFrom(s[1..], "")
    else WordsFrom(s[1..], word + [s[0]])
  }

  /** From i to j there are no spaces, and it cannot be made longer at either end. */
  ghost predicate IsRun(s: string, i: nat, j: nat) {
    && i < j <= |s| && (forall k :: i <= k < j ==> !IsSpace(s[k]))
    && (i == 0 || IsSpace(s[i - 1])) && (j == |s| || IsSpace(s[j]))
  }

  ghost predicate IsRunFrom(s: string, from: nat, word: string) {
    exists i: nat, j: nat :: from <= i && IsRun(s, i, j) && s[i..j] == word
  }

  /** A run begins where the last word was begun, or after the next space. */
  lemma NextRun(s: string, begin: nat, i: nat, word: string)
    requires begin <= i < |s| && (begin == 0 || IsSpace(s[begin - 1]))
    requires (forall k :: begin <= k < i ==> !IsSpace(s[k])) && IsSpace(s[i])
    ensures IsRunFrom(s, begin, word) <==> IsRunFrom(s, i + 1, word) || (begin < i && s[begin..i] == word)
  {
    if IsRunFrom(s, begin, word) {
      var a: nat, b: nat :| begin <= a && IsRun(s, a, b) && s[a..b] == word;
      if a <= i {
        assert a == begin && b == i;
      }
    }
    if begin < i { assert IsRun(s, begin, i); }
  }

  lemma LastRun(s: string, begin: nat, word: string)
    requires begin <= |s| && (begin == 0 || IsSpace(s[begin - 1])) && forall k :: begin <= k < |s| ==> !IsSpace(s[k])
    ensures IsRunFrom(s, begin, word) <==> begin < |s| && s[begin..] == word
  {
    if begin < |s| {
      assert IsRun(s, begin, |s|) && s[begin..|s|] == s[begin..];
    }
    forall a: nat, b: nat | begin <= a && IsRun(s, a, b) ensures a == begin && b == |s| {
    }
  }

  lemma TailAt(s: string, i: nat)
    requires i < |s|
    ensures s[i..] != "" && s[i..][0] == s[i] && s[i..][1..] == s[i + 1..]
  {
  }

  lemma GrowsBy(s: string, begin: nat, i: nat)
    requires begin <= i < |s|
    ensures s[begin..i] + [s[i]] == s[begin..i + 1]
  {
  }

  lemma WordsAtSpace(s: string, begin: nat, i: nat, word: string)
    requires begin <= i < |s| && IsSpace(s[i])
    ensures word in WordsFrom(s[i..], s[begin..i])
      <==> word in WordsFrom(s[i + 1..], "") || (begin < i && s[begin..i] == word)
  {
    TailAt(s, i);
  }

  lemma WordsInside(s: string, begin: nat, i: nat)
    requires begin <= i < |s| && !IsSpace(s[i])
    ensures WordsFrom(s[i..], s[begin..i]) == WordsFrom(s[i + 1..], s[begin..i + 1])
  {
    TailAt(s, i);
    GrowsBy(s, begin, i);
    assert [] + WordsFrom(s[i + 1..], s[begin..i + 1]) == WordsFrom(s[i + 1..], s[begin..i + 1]);
  }

  lemma {:induction false} WordsFromAreRuns(s: string, begin: nat, i: nat, word: string)
    requires begin <= i <= |s| && (begin == 0 || IsSpace(s[begin - 1]))
    requires forall k :: begin <= k < i ==> !IsSpace(s[k])
    ensures word in WordsFrom(s[i..], s[begin..i]) <==> IsRunFrom(s, begin, word)
    decreases |s| - i
  {
    if i == |s| {
      LastRun(s, begin, word);
      assert s[begin..] == s[begin..i] && s[i..] == "";
    } else if IsSpace(s[i]) {
      WordsFromAreRuns(s, i + 1, i + 1, word);
      NextRun(s, begin, i, word);
      WordsAtSpace(s, begin, i, word);
      assert s[i + 1..i + 1] == "";
    } else {
      WordsFromAreRuns(s, begin, i + 1, word);
      WordsInside(s, begin, i);
    }
  }

  function NonSpaces(s: string): string {
    if s == "" then "" else (if IsSpace(s[0]) then "" else [s[0]]) + NonSpaces(s[1..])
  }

  function Joined(words: seq<string>): string { if words == [] then "" else words[0] + Joined(words[1..]) }

  lemma JoinedNext(word: string, words: seq<string>)
    ensures Joined([word] + words) == word + Joined(words)
  {
    assert ([word] + words)[1..] == words;
  }

  lemma {:induction false} JoinedFrom(s: string, word: string)
    ensures Joined(WordsFrom(s, word)) == word + NonSpaces(s)
    decreases |s|
  {
    if s == "" {
      if word != "" { JoinedNext(word, []); }
      assert word + "" == word;
    } else if IsSpace(s[0]) {
      JoinedFrom(s[1..], "");
      JoinedNext(word, WordsFrom(s[1..], ""));
      assert [] + WordsFrom(s[1..], "") == WordsFrom(s[1..], "");
      assert "" + NonSpaces(s[1..]) == NonSpaces(s[1..]);
    } else {
      JoinedFrom(s[1..], word + [s[0]]);
      Assoc(word, [s[0]], NonSpaces(s[1..]));
    }
  }

  /** The words are the longest stretches without spaces, and all of the text but its spaces, in order. */
  lemma WordsMean(s: string, word: string)
    ensures word in Words(s) <==> IsRunFrom(s, 0, word)
    ensures Joined(Words(s)) == NonSpaces(s)
  {
    WordsFromAreRuns(s, 0, 0, word);
    assert s[0..] == s && s[0..0] == "";
    JoinedFrom(s, "");
    assert "" + NonSpaces(s) == NonSpaces(s);
  }

  /** How many of these words the text includes. */
  function Overlap(words: seq<string>, text: string): (n: nat)
    ensures n <= |words|
  {
    if words == [] then 0
    else Overlap(words[..|words| - 1], text) + if Includes(text, words[|words| - 1]) then 1 else 0
  }

  /** Which of these words occur in the text. */
  ghost function Occurring(words: seq<string>, text: string): set<int> {
    set i | 0 <= i < |words| && Occurs(text, words[i])
  }

  lemma OneMoreWord(init: seq<string>, word: string, text: string)
    ensures |Occurring(init + [word], text)| == |Occurring(init, text)| + if Occurs(text, word) then 1 else 0
  {
    var (before, n) := (Occurring(init, text), |init|);
    assert n !in before;
    assert Occurring(init + [word], text) == before + if Occurs(text, word) then {n} else {};
  }

  lemma {:induction false} OverlapMeans(words: seq<string>, text: string)
    ensures Overlap(words, text) == |Occurring(words, text)|
  {
    if words != [] {
      var (init, last) := (words[..|words| - 1], words[|words| - 1]);
      OverlapMeans(init, text);
      IncludesMeans(text, last);
      OneMoreWord(init, last, text);
      assert words == init + [last];
    }
  }

  function Quotient(n: nat, d: nat): (q: real)
    requires n <= d && d > 0
    ensures 0.0 <= q <= 1.0
    ensures q == 1.0 <==> n == d
    ensures q == 0.0 <==> n == 0
  {
    QuotientInRange(n as real, d as real);
    n as real / d as real
  }

  lemma QuotientInRange(n: real, d: real)
    requires 0.0 <= n <= d && d > 0.0
    ensures 0.0 <= n / d <= 1.0
    ensures n / d == 1.0 <==> n == d
    ensures n / d == 0.0 <==> n == 0.0
  {
    var q := n / d;
    assert q * d == n;
  }

  function TextMatch(query: string, text: string): real {
    if query == "" || text == "" then 0.0
    else if query == text then 1.0
    else if Includes(text, query) then 0.78
    else if Words(query) == [] then 0.0
    else Quotient(Overlap(Words(query), text), |Words(query)|) * 0.62
  }

  /** Full marks for the same text only; a text that merely shares words stays below one that contains the query. */
  lemma TextMatchRanks(query: string, text: string)
    ensures 0.0 <= TextMatch(query, text) <= 1.0
    ensures TextMatch(query, text) == 1.0 <==> query == text != ""
    ensures TextMatch(query, text) > 0.62 <==> query != "" && text != "" && (query == text || Includes(text, query))
  {
    if Words(query) != [] {
      var q := Quotient(Overlap(Words(query), text), |Words(query)|);
      assert 0.0 <= q * 0.62 <= 0.62;
    }
  }

  /** Two different texts: 0.78 if the other contains the query, else by the share of the query's words it contains. */
  lemma TextMatchMeans(query: string, text: string)
    requires query != "" && text != "" && query != text
    ensures Occurs(text, query) ==> TextMatch(query, text) == 0.78
    ensures !Occurs(text, query) ==>
      var (found, all) := (|Occurring(Words(query), text)|, |Words(query)|);
      found <= all && TextMatch(query, text) == if all == 0 then 0.0 else Quotient(found, all) * 0.62
  {
    IncludesMeans(text, query);
    OverlapMeans(Words(query), text);
  }

  method TextMatchScore(query: string, text: string) returns (score: real)
    ensures score == TextMatch(query, text)
  {
    if query == "" || text == "" { return 0.0; }
    if query == text { return 1.0; }
    if Includes(text, query) { return 0.78; }
    var words := Words(query);
    if words == [] { return 0.0; }
    var overlap := 0;
    for i := 0 to |words|
      invariant overlap == Overlap(words[..i], text)
    {
      assert words[..i + 1][..i] == words[..i];
      if Includes(text, words[i]) { overlap := overlap + 1; }
    }
    assert words[..|words|] == words;
    if overlap == 0 { return 0.0; }
    return Quotient(overlap, |words|) * 0.62;
  }

  // ----- matching positions -----

  /** The length of the longest common prefix. */
  function CommonPrefix(a: seq<int>, b: seq<int>): (n: nat)
    ensures n <= |a| && n <= |b| && a[..n] == b[..n]
    ensures n < |a| && n < |b| ==> a[n] != b[n]
  {
    if a == [] || b == [] || a[0] != b[0] then 0 else 1 + CommonPrefix(a[1..], b[1..])
  }

  lemma {:induction false} CommonPrefixIs(a: seq<int>, b: seq<int>, n: nat)
    requires n <= |a| && n <= |b| && a[..n] == b[..n]
    requires n == |a| || n == |b| || a[n] != b[n]
    ensures CommonPrefix(a, b) == n
  {
    if n > 0 {
      assert a[0] == a[..n][0] == b[..n][0] == b[0];
      assert a[1..][..n - 1] == a[..n][1..] && b[1..][..n - 1] == b[..n][1..];
      CommonPrefixIs(a[1..], b[1..], n - 1);
    }
  }

  function ListSimilarity(a: seq<int>, b: seq<int>): real {
    if a == [] || b == [] then 0.0 else Quotient(CommonPrefix(a, b), Max(|a|, |b|))
  }

  lemma ListSimilarityRanks(a: seq<int>, b: seq<int>)
    ensures 0.0 <= ListSimilarity(a, b) <= 1.0
    ensures ListSimilarity(a, b) == 1.0 <==> a == b != []
  {
    assert a[..|a|] == a && b[..|b|] == b;
    if a == b { CommonPrefixIs(a, b, |a|); }
  }

  method NumberListSimilarity(a: seq<int>, b: seq<int>) returns (score: real)
    ensures score == ListSimilarity(a, b)
  {
    if a == [] || b == [] { return 0.0; }
    var equalPrefix := 0;
    while equalPrefix < |a| && equalPrefix < |b| && a[equalPrefix] == b[equalPrefix]
      invariant 0 <= equalPrefix <= |a| && equalPrefix <= |b| && a[..equalPrefix] == b[..equalPrefix]
    {
      equalPrefix := equalPrefix + 1;
    }
    CommonPrefixIs(a, b, equalPrefix);
    if equalPrefix == 0 { return 0.0; }
    return Quotient(equalPrefix, Max(|a|, |b|));
  }

  datatype Box = Box(x: real, y: real, width: real, height: real)

  function MaxReal(a: real, b: real): real { if a < b then b else a }

  function SizeNorm(a: Box, b: Box): real {
    MaxReal(1.0, MaxReal(MaxReal(a.width, a.height), MaxReal(b.width, b.height)))
  }

  /** The distance of the centres is at most `factor` sizes; compared by squares, so no root is taken. */
  predicate CentresWithin(a: Box, b: Box, factor: real) {
    var (dx, dy) := (a.x + a.width / 2.0 - (b.x + b.width / 2.0), a.y + a.height / 2.0 - (b.y + b.height / 2.0));
    var limit := factor * SizeNorm(a, b);
    dx * dx + dy * dy <= limit * limit
  }

  function BoundingBoxSimilarity(a: Option<Box>, b: Option<Box>): real {
    if a.None? || b.None? then 0.0
    else if CentresWithin(a.value, b.value, 0.5) then 1.0
    else if CentresWithin(a.value, b.value, 1.5) then 0.6
    else if CentresWithin(a.value, b.value, 3.0) then 0.3
    else 0.0
  }

  /** The larger of 1 and every side of the two boxes. */
  ghost predicate IsSize(n: real, a: Box, b: Box) {
    && n in [1.0, a.width, a.height, b.width, b.height]
    && forall side :: side in [1.0, a.width, a.height, b.width, b.height] ==> side <= n
  }

  lemma SizeNormMeans(n: real, a: Box, b: Box)
    requires IsSize(n, a, b)
    ensures SizeNorm(a, b) == n
  {
    var sides := [1.0, a.width, a.height, b.width, b.height];
    assert 1.0 in sides && a.width in sides && a.height in sides && b.width in sides && b.height in sides;
  }

  lemma CentresWithinMeans(a: Box, b: Box, n: real, factor: real)
    requires SizeNorm(a, b) == n
    ensures CentresWithin(a, b, factor) <==> TwiceApart(a, b) <= (2.0 * factor * n) * (2.0 * factor * n)
  {
    var (dx, dy) := (a.x + a.width / 2.0 - (b.x + b.width / 2.0), a.y + a.height / 2.0 - (b.y + b.height / 2.0));
    var (x, y) := (2.0 * a.x + a.width - 2.0 * b.x - b.width, 2.0 * a.y + a.height - 2.0 * b.y - b.height);
    assert x == 2.0 * dx && y == 2.0 * dy;
    SquareOfDouble(dx);
    SquareOfDouble(dy);
    SquareOfDouble(factor * n);
    assert 2.0 * factor * n == 2.0 * (factor * n);
  }

  lemma SquareOfDouble(x: real)
    ensures (2.0 * x) * (2.0 * x) == 4.0 * (x * x)
  {
  }

  /** The square of twice the distance of the centres. */
  function TwiceApart(a: Box, b: Box): real {
    var (x, y) := (2.0 * a.x + a.width - 2.0 * b.x - b.width, 2.0 * a.y + a.height - 2.0 * b.y - b.height);
    x * x + y * y
  }

  /** The steps of the similarity: half a size, one and a half, three; here by the doubled distance. */
  lemma BoxSimilaritySteps(a: Box, b: Box, n: real)
    requires IsSize(n, a, b)
    ensures var (apart, similarity) := (TwiceApart(a, b), BoundingBoxSimilarity(Some(a), Some(b)));
      && (similarity == 1.0 <==> apart <= n * n)
      && (similarity == 0.6 <==> n * n < apart <= (3.0 * n) * (3.0 * n))
      && (similarity == 0.3 <==> (3.0 * n) * (3.0 * n) < apart <= (6.0 * n) * (6.0 * n))
      && (similarity == 0.0 <==> apart > (6.0 * n) * (6.0 * n))
  {
    SizeNormMeans(n, a, b);
    CentresWithinMeans(a, b, n, 0.5);
    CentresWithinMeans(a, b, n, 1.5);
    CentresWithinMeans(a, b, n, 3.0);
    SquaresGrow(n);
  }

  lemma SquaresGrow(n: real)
    ensures n * n <= (3.0 * n) * (3.0 * n) <= (6.0 * n) * (6.0 * n)
  {
    var square := n * n;
    assert square >= 0.0;
    assert (3.0 * n) * (3.0 * n) == 9.0 * square && (6.0 * n) * (6.0 * n) == 36.0 * square;
  }

  // ----- scoring -----

  /**
   What a locator remembers, and what a candidate shows; an empty text or list stands for an absent one. Whether
   there is a tag name is asked before it is trimmed, so a tag of blanks is one whose normalised name is empty.
   */
  datatype Description = Description(
    selectors: seq<string>,
    role: string,
    name: string,
    text: string,
    caption: string,
    hasTag: bool,
    tagName: string,
    ordinalPath: seq<int>,
    box: Option<Box>)

  datatype Reason = BySelector | ByRole | ByName | ByText | ByLabel | ByTag | ByOrdinal | ByBox

  const STABLE_PREFIX := "shuvgeist-stable-id:"

  predicate IsStrong(selector: string) {
    || (StartsWith(selector, STABLE_PREFIX) && !StartsWith(selector[|STABLE_PREFIX|..], "sg-"))
    || StartsWith(selector, "#")
    || Includes(selector, "[data-testid=")
    || Includes(selector, "[name=")
  }

  /** The non-empty selectors of the locator that the candidate has too. */
  function Shared(l: seq<string>, c: seq<string>): seq<string> {
    if l == [] then [] else (if l[0] != "" && l[0] in c then [l[0]] else []) + Shared(l[1..], c)
  }

  predicate AnyStrong(selectors: seq<string>) {
    selectors != [] && (IsStrong(selectors[0]) || AnyStrong(selectors[1..]))
  }

  /** What each kind of evidence adds to the score. */
  function Contribution(l: Description, c: Description, reason: Reason): real {
    match reason
    case BySelector =>
      var shared := Shared(l.selectors, c.selectors);
      if shared == [] then 0.0 else if AnyStrong(shared) then 0.36 else 0.28
    case ByRole => if l.role != "" && l.role == c.role then 0.16 else 0.0
    case ByName => TextMatch(l.name, c.name) * 0.14
    case ByText => TextMatch(l.text, c.text) * 0.12
    case ByLabel => TextMatch(l.caption, c.caption) * 0.1
    case ByTag => if l.hasTag && l.tagName == c.tagName then 0.05 else 0.0
    case ByOrdinal => ListSimilarity(l.ordinalPath, c.ordinalPath) * 0.04
    case ByBox => BoundingBoxSimilarity(l.box, c.box) * 0.03
  }

  function Weight(reason: Reason): real {
    match reason
    case BySelector => 0.36
    case ByRole => 0.16
    case ByName => 0.14
    case ByText => 0.12
    case ByLabel => 0.1
    case ByTag => 0.05
    case ByOrdinal => 0.04
    case ByBox => 0.03
  }

  lemma ContributionInRange(l: Description, c: Description, reason: Reason)
    ensures 0.0 <= Contribution(l, c, reason) <= Weight(reason)
  {
    TextMatchRanks(l.name, c.name);
    TextMatchRanks(l.text, c.text);
    TextMatchRanks(l.caption, c.caption);
    ListSimilarityRanks(l.ordinalPath, c.ordinalPath);
  }

  /** A selector that names one element on purpose. */
  ghost predicate Anchors(selector: string) {
    || (exists rest :: selector == STABLE_PREFIX + rest && !("sg-" <= rest))
    || (selector != "" && selector[0] == '#')
    || Occurs(selector, "[data-testid=")
    || Occurs(selector, "[name=")
  }

  lemma StrongMeans(selector: string)
    ensures IsStrong(selector) <==> Anchors(selector)
  {
    IncludesMeans(selector, "[data-testid=");
    IncludesMeans(selector, "[name=");
    if StartsWith(selector, STABLE_PREFIX) { assert selector == STABLE_PREFIX + selector[|STABLE_PREFIX|..]; }
    forall rest | selector == STABLE_PREFIX + rest ensures selector[|STABLE_PREFIX|..] == rest {}
  }

  ghost predicate Shares(l: Description, c: Description, selector: string) {
    selector != "" && selector in l.selectors && selector in c.selectors
  }

  lemma {:induction false} SharedMeans(l: seq<string>, c: seq<string>, selector: string)
    ensures selector in Shared(l, c) <==> selector != "" && selector in l && selector in c
  {
    if l != [] {
      SharedMeans(l[1..], c, selector);
      assert l == [l[0]] + l[1..];
    }
  }

  lemma {:induction false} AnyStrongMeans(selectors: seq<string>)
    ensures AnyStrong(selectors) <==> exists s :: s in selectors && IsStrong(s)
  {
    if selectors != [] {
      AnyStrongMeans(selectors[1..]);
      assert selectors == [selectors[0]] + selectors[1..];
    }
  }

  /** A shared selector adds 0.28, or 0.36 if one of them anchors the element. */
  lemma SelectorsAdd(l: Description, c: Description)
    ensures Contribution(l, c, BySelector) ==
      if exists s :: Shares(l, c, s) && Anchors(s) then 0.36 else if exists s :: Shares(l, c, s) then 0.28 else 0.0
  {
    var shared := Shared(l.selectors, c.selectors);
    forall s ensures s in shared <==> Shares(l, c, s) { SharedMeans(l.selectors, c.selectors, s); }
    forall s ensures IsStrong(s) <==> Anchors(s) { StrongMeans(s); }
    AnyStrongMeans(shared);
    if shared != [] { assert Shares(l, c, shared[0]); }
    if s :| Shares(l, c, s) { assert s in shared; }
  }

  lemma TextAdds(query: string, text: string, weight: real)
    requires weight > 0.0
    ensures TextMatch(query, text) * weight == weight <==> query == text != ""
  {
    TextMatchRanks(query, text);
    assert TextMatch(query, text) < 1.0 ==> TextMatch(query, text) * weight < weight;
  }

  /** When each kind of evidence has its full weight. */
  ghost predicate FullEvidence(l: Description, c: Description, reason: Reason) {
    match reason
    case BySelector => exists s :: Shares(l, c, s) && Anchors(s)
    case ByRole => l.role == c.role != ""
    case ByName => l.name == c.name != ""
    case ByText => l.text == c.text != ""
    case ByLabel => l.caption == c.caption != ""
    case ByTag => l.hasTag && l.tagName == c.tagName
    case ByOrdinal => l.ordinalPath == c.ordinalPath != []
    case ByBox =>
      && l.box.Some? && c.box.Some?
      && exists n :: IsSize(n, l.box.value, c.box.value) && TwiceApart(l.box.value, c.box.value) <= n * n
  }

  lemma BoxAdds(l: Description, c: Description)
    ensures Contribution(l, c, ByBox) == 0.03 <==> FullEvidence(l, c, ByBox)
  {
    if l.box.Some? && c.box.Some? {
      var n := SizeNorm(l.box.value, c.box.value);
      assert IsSize(n, l.box.value, c.box.value);
      forall m | IsSize(m, l.box.value, c.box.value)
        ensures BoundingBoxSimilarity(l.box, c.box) == 1.0 <==> TwiceApart(l.box.value, c.box.value) <= m * m
      {
        BoxSimilaritySteps(l.box.value, c.box.value, m);
      }
    }
  }

  /** Evidence adds its full weight exactly when it is full. */
  lemma FullEvidenceAdds(l: Description, c: Description, reason: Reason)
    ensures Contribution(l, c, reason) == Weight(reason) <==> FullEvidence(l, c, reason)
  {
    match reason
    case BySelector => SelectorsAdd(l, c);
    case ByRole =>
    case ByName => TextAdds(l.name, c.name, 0.14);
    case ByText => TextAdds(l.text, c.text, 0.12);
    case ByLabel => TextAdds(l.caption, c.caption, 0.1);
    case ByTag =>
    case ByOrdinal => ListSimilarityRanks(l.ordinalPath, c.ordinalPath);
    case ByBox => BoxAdds(l, c);
  }

  /** The whole score is reached exactly by a candidate that agrees in everything. */
  lemma FullScoreExactly(l: Description, c: Description)
    ensures Score(l, c) == 1.0 <==> forall reason :: FullEvidence(l, c, reason)
  {
    forall r: Reason
      ensures Contribution(l, c, r) <= Weight(r)
      ensures Contribution(l, c, r) == Weight(r) <==> FullEvidence(l, c, r)
    {
      ContributionInRange(l, c, r);
      FullEvidenceAdds(l, c, r);
    }
    assert (forall r :: FullEvidence(l, c, r)) ==> forall r: Reason :: Contribution(l, c, r) == Weight(r);
    if Score(l, c) == 1.0 {
      forall r ensures FullEvidence(l, c, r) {
        assert Contribution(l, c, r) == Weight(r);
      }
    }
  }

  function Score(l: Description, c: Description): real {
    Contribution(l, c, BySelector) + Contribution(l, c, ByRole) + Contribution(l, c, ByName)
    + Contribution(l, c, ByText) + Contribution(l, c, ByLabel) + Contribution(l, c, ByTag)
    + Contribution(l, c, ByOrdinal) + Contribution(l, c, ByBox)
  }

  /** A score lies between 0 and 1, so the cap at 1 never acts. */
  lemma ScoreInRange(l: Description, c: Description)
    ensures 0.0 <= Score(l, c) <= 1.0
  {
    forall r: Reason ensures 0.0 <= Contribution(l, c, r) <= Weight(r) { ContributionInRange(l, c, r); }
  }

  /** Evidence without any meaning in it: selectors, tag, position and box. */
  predicate OnlyWeakEvidence(l: Description, c: Description) {
    && Contribution(l, c, ByRole) == 0.0
    && Contribution(l, c, ByName) == 0.0
    && Contribution(l, c, ByText) == 0.0
    && Contribution(l, c, ByLabel) == 0.0
  }

  lemma WeakEvidenceIsBounded(l: Description, c: Description)
    requires OnlyWeakEvidence(l, c)
    ensures Score(l, c) <= 0.48
  {
    forall r: Reason ensures Contribution(l, c, r) <= Weight(r) { ContributionInRange(l, c, r); }
  }

  method Add(score: real, reasons: seq<Reason>, reason: Reason, amount: real) returns (total: real, named: seq<Reason>)
    requires amount >= 0.0
    ensures total == score + amount
    ensures forall r :: r in named <==> r in reasons || (r == reason && amount > 0.0)
  {
    total, named := score, reasons;
    if amount > 0.0 { total, named := score + amount, reasons + [reason]; }
  }

  /** The part of the score that rests on selectors and on what the element says. */
  method ScoreMeaning(l: Description, c: Description) returns (score: real, reasons: seq<Reason>)
    ensures score == Contribution(l, c, BySelector) + Contribution(l, c, ByRole) + Contribution(l, c, ByName)
                     + Contribution(l, c, ByText) + Contribution(l, c, ByLabel)
    ensures forall r :: r in reasons <==>
      r in {BySelector, ByRole, ByName, ByText, ByLabel} && Contribution(l, c, r) > 0.0
  {
    forall r: Reason ensures Contribution(l, c, r) >= 0.0 { ContributionInRange(l, c, r); }
    var shared := Shared(l.selectors, c.selectors);
    score, reasons := Add(0.0, [], BySelector, if shared == [] then 0.0 else if AnyStrong(shared) then 0.36 else 0.28);
    score, reasons := Add(score, reasons, ByRole, if l.role != "" && l.role == c.role then 0.16 else 0.0);
    var nameScore := TextMatchScore(l.name, c.name);
    score, reasons := Add(score, reasons, ByName, nameScore * 0.14);
    var textScore := TextMatchScore(l.text, c.text);
    score, reasons := Add(score, reasons, ByText, textScore * 0.12);
    var captionScore := TextMatchScore(l.caption, c.caption);
    score, reasons := Add(score, reasons, ByLabel, captionScore * 0.1);
  }

  /** The score, and which kinds of evidence it rests on. */
  method ScoreRefCandidate(l: Description, c: Description) returns (score: real, reasons: seq<Reason>)
    ensures score == Score(l, c) && 0.0 <= score <= 1.0
    ensures forall r :: r in reasons <==> Contribution(l, c, r) > 0.0
  {
    ContributionInRange(l, c, ByTag);
    ContributionInRange(l, c, ByOrdinal);
    ContributionInRange(l, c, ByBox);
    score, reasons := ScoreMeaning(l, c);
    score, reasons := Add(score, reasons, ByTag, if l.hasTag && l.tagName == c.tagName then 0.05 else 0.0);
    var ordinalScore := NumberListSimilarity(l.ordinalPath, c.ordinalPath);
    score, reasons := Add(score, reasons, ByOrdinal, ordinalScore * 0.04);
    score, reasons := Add(score, reasons, ByBox, BoundingBoxSimilarity(l.box, c.box) * 0.03);
    ScoreInRange(l, c);
    score := if score > 1.0 then 1.0 else score;
  }

  // ----- resolving -----

  datatype Resolution<C> =
    | NotFound
    | LowConfidence(candidates: seq<C>)
    | Ambiguous(candidates: seq<C>)
    | Match(winner: C)

  datatype Kind = IsNotFound | IsLowConfidence | IsAmbiguous | IsMatch

  function KindOf<C>(r: Resolution<C>): Kind {
    match r
    case NotFound => IsNotFound
    case LowConfidence(_) => IsLowConfidence
    case Ambiguous(_) => IsAmbiguous
    case Match(_) => IsMatch
  }

  const DEFAULT_MIN_SCORE := 0.62
  const DEFAULT_AMBIGUOUS_DELTA := 0.04

  function Better<C>(score: C -> real): (C, C) -> bool { (a: C, b: C) => score(a) >= score(b) }

  function FirstThree<C>(s: seq<C>): seq<C> { s[..Min(3, |s|)] }

  function Resolve<C>(score: C -> real, candidates: seq<C>, minScore: real, delta: real): Resolution<C> {
    if candidates == [] then NotFound else
      var scored := Sort(Better(score), candidates);
      if score(scored[0]) < minScore then LowConfidence(FirstThree(scored))
      else if |scored| > 1 && score(scored[0]) - score(scored[1]) <= delta then Ambiguous(FirstThree(scored))
      else Match(scored[0])
  }

  /** One candidate, once in the list, reaches the minimum and beats every other by more than the delta. */
  ghost predicate IsWinner<C(!new)>(score: C -> real, candidates: seq<C>, minScore: real, delta: real, w: C) {
    && multiset(candidates)[w] == 1
    && score(w) >= minScore
    && forall x :: x in candidates && x != w ==> score(w) - score(x) > delta
  }

  lemma BestFirst<C(!new)>(score: C -> real, candidates: seq<C>)
    ensures var scored := Sort(Better(score), candidates);
      && multiset(scored) == multiset(candidates)
      && |scored| == |candidates|
      && (forall x :: x in scored <==> x in candidates)
      && forall i, j :: 0 <= i < j < |scored| ==> score(scored[i]) >= score(scored[j])
  {
    var scored := Sort(Better(score), candidates);
    SortPermutes(Better(score), candidates);
    SortSorts(Better(score), candidates);
    SamePermuted(candidates, scored);
    forall i, j | 0 <= i < j < |scored| ensures score(scored[i]) >= score(scored[j]) {
      InOrder(Better(score), scored, i, j);
    }
  }

  lemma CountsOnce<T>(s: seq<T>, i: nat)
    requires i < |s| && forall j :: 0 <= j < |s| && j != i ==> s[j] != s[i]
    ensures multiset(s)[s[i]] == 1
  {
    assert s == s[..i] + [s[i]] + s[i + 1..];
    assert s[i] !in s[..i] && s[i] !in s[i + 1..];
  }

  ghost predicate IsTop<C(!new)>(score: C -> real, candidates: seq<C>, x: C) {
    x in candidates && forall y :: y in candidates ==> score(y) <= score(x)
  }

  ghost predicate IsFirstTopAt<C(!new)>(score: C -> real, candidates: seq<C>, i: nat) {
    && i < |candidates|
    && (forall j :: 0 <= j < |candidates| ==> score(candidates[j]) <= score(candidates[i]))
    && forall j :: 0 <= j < i ==> score(candidates[j]) < score(candidates[i])
  }

  /** The first listed of the candidates that reach the best score. */
  ghost predicate IsFirstTop<C(!new)>(score: C -> real, candidates: seq<C>, w: C) {
    exists i: nat :: IsFirstTopAt(score, candidates, i) && candidates[i] == w
  }

  /** One candidate more in front: it is the first of the best if it is as good as the best so far. */
  lemma FirstTopAfter<C(!new)>(score: C -> real, candidates: seq<C>, i: nat)
    requires candidates != [] && IsFirstTopAt(score, candidates[1..], i)
    ensures IsFirstTopAt(score, candidates, if score(candidates[0]) >= score(candidates[i + 1]) then 0 else i + 1)
  {
    var rest := candidates[1..];
    forall j | 0 < j < |candidates| ensures score(candidates[j]) <= score(candidates[i + 1]) {
      assert candidates[j] == rest[j - 1];
    }
    forall j | 0 < j < i + 1 ensures score(candidates[j]) < score(candidates[i + 1]) {
      assert candidates[j] == rest[j - 1];
    }
  }

  lemma {:induction false} SortedFirst<C(!new)>(score: C -> real, candidates: seq<C>) returns (i: nat)
    requires candidates != []
    ensures IsFirstTopAt(score, candidates, i) && Sort(Better(score), candidates)[0] == candidates[i]
  {
    if |candidates| == 1 {
      i := 0;
    } else {
      var k := SortedFirst(score, candidates[1..]);
      FirstTopAfter(score, candidates, k);
      i := if score(candidates[0]) >= score(candidates[k + 1]) then 0 else k + 1;
    }
  }

  /**
   When a candidate is the match: for a negative delta nothing is ambiguous, and the first listed of the
   best wins.
   */
  ghost predicate Succeeds<C(!new)>(score: C -> real, candidates: seq<C>, minScore: real, delta: real, w: C) {
    if delta >= 0.0 then IsWinner(score, candidates, minScore, delta, w)
    else IsFirstTop(score, candidates, w) && score(w) >= minScore
  }

  lemma ResolvesExactly<C(!new)>(score: C -> real, candidates: seq<C>, minScore: real, delta: real, w: C)
    ensures Resolve(score, candidates, minScore, delta) == Match(w) <==> Succeeds(score, candidates, minScore, delta, w)
  {
    if delta >= 0.0 {
      ResolvesToWinner(score, candidates, minScore, delta, w);
    } else if candidates != [] {
      BestFirst(score, candidates);
      var i := SortedFirst(score, candidates);
      assert IsFirstTop(score, candidates, candidates[i]);
      if IsFirstTop(score, candidates, w) { FirstTopIsOne(score, candidates, w, candidates[i]); }
    }
  }

  /** As many as there are, up to three, the best first. */
  ghost predicate AreBest<C(!new)>(score: C -> real, candidates: seq<C>, best: seq<C>) {
    && |best| == (if |candidates| < 3 then |candidates| else 3)
    && (forall i, j :: 0 <= i < j < |best| ==> score(best[i]) >= score(best[j]))
    && exists others: seq<C> :: SplitsBest(score, candidates, best, others)
  }

  /** No other candidate is better than any of the best. */
  ghost predicate SplitsBest<C(!new)>(score: C -> real, candidates: seq<C>, best: seq<C>, others: seq<C>) {
    && multiset(best + others) == multiset(candidates)
    && forall i, j :: 0 <= i < |best| && 0 <= j < |others| ==> score(best[i]) >= score(others[j])
  }

  lemma SplitsAt<C(!new)>(score: C -> real, candidates: seq<C>, scored: seq<C>, n: nat)
    requires multiset(scored) == multiset(candidates) && n <= |scored|
    requires forall i, j :: 0 <= i < j < |scored| ==> score(scored[i]) >= score(scored[j])
    ensures SplitsBest(score, candidates, scored[..n], scored[n..])
  {
    var (best, others) := (scored[..n], scored[n..]);
    assert scored == best + others;
    forall i, j | 0 <= i < n && 0 <= j < |others| ensures score(best[i]) >= score(others[j]) {
      assert score(scored[i]) >= score(scored[n + j]);
    }
  }

  lemma FirstThreeAreBest<C(!new)>(score: C -> real, candidates: seq<C>)
    ensures AreBest(score, candidates, FirstThree(Sort(Better(score), candidates)))
  {
    BestFirst(score, candidates);
    var scored := Sort(Better(score), candidates);
    SplitsAt(score, candidates, scored, Min(3, |scored|));
  }

  /**
   How resolution fails: nothing to choose from, every candidate below the minimum, or a best score that is high
   enough but not ahead of the next one. A failure names the best candidates.
   */
  lemma FailsExactly<C(!new)>(score: C -> real, candidates: seq<C>, minScore: real, delta: real)
    ensures var r := Resolve(score, candidates, minScore, delta);
      && (r.NotFound? <==> candidates == [])
      && (r.LowConfidence? <==> candidates != [] && forall x :: x in candidates ==> score(x) < minScore)
      && (r.LowConfidence? || r.Ambiguous? ==> AreBest(score, candidates, r.candidates))
  {
    BestFirst(score, candidates);
    FirstThreeAreBest(score, candidates);
    var scored := Sort(Better(score), candidates);
    if candidates != [] {
      assert scored[0] in candidates;
      forall x | x in candidates ensures score(x) <= score(scored[0]) {
        var i :| 0 <= i < |scored| && scored[i] == x;
      }
    }
  }

  lemma FirstTopIsOne<C(!new)>(score: C -> real, candidates: seq<C>, v: C, w: C)
    requires IsFirstTop(score, candidates, v) && IsFirstTop(score, candidates, w)
    ensures v == w
  {
    var i: nat :| IsFirstTopAt(score, candidates, i) && candidates[i] == v;
    var k: nat :| IsFirstTopAt(score, candidates, k) && candidates[k] == w;
  }

  lemma ResolvesToWinner<C(!new)>(score: C -> real, candidates: seq<C>, minScore: real, delta: real, w: C)
    requires delta >= 0.0
    ensures Resolve(score, candidates, minScore, delta) == Match(w) <==> IsWinner(score, candidates, minScore, delta, w)
  {
    var scored := Sort(Better(score), candidates);
    BestFirst(score, candidates);
    if Resolve(score, candidates, minScore, delta) == Match(w) {
      forall j | 0 < j < |scored| ensures score(w) - score(scored[j]) > delta {
        assert score(scored[1]) >= score(scored[j]);
      }
      CountsOnce(scored, 0);
      forall x | x in candidates && x != w ensures score(w) - score(x) > delta {
        var j :| 0 <= j < |scored| && scored[j] == x;
      }
    }
    if IsWinner(score, candidates, minScore, delta, w) {
      WinnerIsFirst(score, scored, minScore, delta, w);
    }
  }

  lemma WinnerIsFirst<C(!new)>(score: C -> real, scored: seq<C>, minScore: real, delta: real, w: C)
    requires delta >= 0.0 && IsWinner(score, scored, minScore, delta, w)
    requires forall i, j :: 0 <= i < j < |scored| ==> score(scored[i]) >= score(scored[j])
    ensures scored != [] && scored[0] == w
    ensures |scored| > 1 ==> score(scored[0]) - score(scored[1]) > delta
  {
    assert w in multiset(scored);
    var i :| 0 <= i < |scored| && scored[i] == w;
    assert scored[0] in scored;
    assert i > 0 ==> score(scored[0]) >= score(w);
    if |scored| > 1 {
      assert scored[1] in scored;
      if scored[1] == scored[0] { MultisetAtTwo(scored, 0, 1); }
    }
  }

  lemma BestScoreAtLeast<C(!new)>(score: C -> real, x: seq<C>, y: seq<C>)
    requires multiset(x) == multiset(y) && x != []
    requires forall i, j :: 0 <= i < j < |y| ==> score(y[i]) >= score(y[j])
    ensures |y| == |x| && score(x[0]) <= score(y[0])
  {
    SamePermuted(x, y);
    assert x[0] in y;
  }

  lemma SecondScoreAtLeast<C(!new)>(score: C -> real, x: seq<C>, y: seq<C>)
    requires multiset(x) == multiset(y) && |x| > 1
    requires forall i, j :: 0 <= i < j < |x| ==> score(x[i]) >= score(x[j])
    requires forall i, j :: 0 <= i < j < |y| ==> score(y[i]) >= score(y[j])
    ensures |y| == |x| && score(x[1]) <= score(y[1])
  {
    SamePermuted(x, y);
    assert x[0] in y && x[1] in y;
    var i :| 0 <= i < |y| && y[i] == x[0];
    var j :| 0 <= j < |y| && y[j] == x[1];
    if i == 0 && j == 0 {
      MultisetAtTwo(x, 0, 1);
      var k := TwiceAt(y, x[0]);
      assert score(y[1]) >= score(y[k]);
    } else if j == 0 {
      assert score(y[1]) >= score(y[i]);
    } else {
      assert j == 1 || score(y[1]) >= score(y[j]);
    }
  }

  lemma TwiceAt<T>(s: seq<T>, x: T) returns (k: nat)
    requires multiset(s)[x] >= 2
    ensures 0 < k < |s| && s[k] == x
  {
    assert s == [s[0]] + s[1..];
    var rest := s[1..];
    assert x in multiset(rest);
    var i :| 0 <= i < |rest| && rest[i] == x;
    k := i + 1;
  }

  /**
   Whether resolution succeeds, and how it fails, does not depend on the order of the candidates, whatever
   the delta.
   */
  lemma KindIgnoresOrder<C(!new)>(score: C -> real, a: seq<C>, b: seq<C>, minScore: real, delta: real)
    requires multiset(a) == multiset(b)
    ensures KindOf(Resolve(score, a, minScore, delta)) == KindOf(Resolve(score, b, minScore, delta))
  {
    SamePermuted(a, b);
    BestFirst(score, a);
    BestFirst(score, b);
    SameTopScores(score, Sort(Better(score), a), Sort(Better(score), b));
  }

  lemma SameTopScores<C(!new)>(score: C -> real, x: seq<C>, y: seq<C>)
    requires multiset(x) == multiset(y)
    requires forall i, j :: 0 <= i < j < |x| ==> score(x[i]) >= score(x[j])
    requires forall i, j :: 0 <= i < j < |y| ==> score(y[i]) >= score(y[j])
    ensures |x| == |y|
    ensures |x| > 0 ==> score(x[0]) == score(y[0])
    ensures |x| > 1 ==> score(x[1]) == score(y[1])
  {
    SamePermuted(x, y);
    if |x| > 0 {
      BestScoreAtLeast(score, x, y);
      BestScoreAtLeast(score, y, x);
    }
    if |x| > 1 {
      SecondScoreAtLeast(score, x, y);
      SecondScoreAtLeast(score, y, x);
    }
  }

  // ----- whether the winner depends on the order of the candidates -----

  ghost predicate SameMatch<C(!new)>(score: C -> real, a: seq<C>, b: seq<C>, minScore: real, delta: real) {
    forall w :: Resolve(score, a, minScore, delta) == Match(w) <==> Resolve(score, b, minScore, delta) == Match(w)
  }

  ghost predicate OrderIsIrrelevant<C(!new)>(score: C -> real, a: seq<C>, minScore: real, delta: real) {
    forall b :: multiset(b) == multiset(a) ==> SameMatch(score, a, b, minScore, delta)
  }

  /** The candidates that reach the best score are all the same, unless that score is too low. */
  ghost predicate OneTop<C(!new)>(score: C -> real, a: seq<C>, minScore: real) {
    forall x, y :: IsTop(score, a, x) && IsTop(score, a, y) && score(x) >= minScore ==> x == y
  }

  lemma OneTopPermuted<C(!new)>(score: C -> real, a: seq<C>, b: seq<C>, minScore: real)
    requires multiset(a) == multiset(b) && OneTop(score, a, minScore)
    ensures OneTop(score, b, minScore)
  {
    SamePermuted(a, b);
    forall x, y | IsTop(score, b, x) && IsTop(score, b, y) && score(x) >= minScore ensures x == y {
      assert IsTop(score, a, x) && IsTop(score, a, y);
    }
  }

  lemma MatchKept<C(!new)>(score: C -> real, a: seq<C>, b: seq<C>, minScore: real, delta: real, w: C)
    requires multiset(a) == multiset(b) && (delta >= 0.0 || OneTop(score, a, minScore))
    requires Resolve(score, a, minScore, delta) == Match(w)
    ensures Resolve(score, b, minScore, delta) == Match(w)
  {
    SamePermuted(a, b);
    ResolvesExactly(score, a, minScore, delta, w);
    if delta < 0.0 {
      var i := SortedFirst(score, b);
      assert IsTop(score, a, b[i]) && IsTop(score, a, w);
      assert b[i] == w && IsFirstTop(score, b, w);
    }
    ResolvesExactly(score, b, minScore, delta, w);
  }

  /** A candidate that reaches the best score is the match for a negative delta, if it is listed first. */
  lemma ListedFirst<C(!new)>(score: C -> real, a: seq<C>, minScore: real, delta: real, x: C) returns (b: seq<C>)
    requires delta < 0.0 && IsTop(score, a, x) && score(x) >= minScore
    ensures multiset(b) == multiset(a) && Resolve(score, b, minScore, delta) == Match(x)
  {
    var i :| 0 <= i < |a| && a[i] == x;
    b := [x] + (a[..i] + a[i + 1..]);
    assert a == a[..i] + [x] + a[i + 1..];
    SamePermuted(a, b);
    assert IsFirstTopAt(score, b, 0) && b[0] == x;
    ResolvesExactly(score, b, minScore, delta, x);
  }

  /**
   For a delta that is not negative the winner never depends on the order; for a negative one it does unless
   the candidates that reach an acceptable best score are all the same.
   */
  lemma WinnerIgnoresOrderExactly<C(!new)>(score: C -> real, a: seq<C>, minScore: real, delta: real)
    ensures OrderIsIrrelevant(score, a, minScore, delta) <==> delta >= 0.0 || OneTop(score, a, minScore)
  {
    if delta >= 0.0 || OneTop(score, a, minScore) {
      forall b | multiset(b) == multiset(a) ensures SameMatch(score, a, b, minScore, delta) {
        SamePermuted(a, b);
        if OneTop(score, a, minScore) { OneTopPermuted(score, a, b, minScore); }
        forall w
          ensures Resolve(score, a, minScore, delta) == Match(w) <==> Resolve(score, b, minScore, delta) == Match(w)
        {
          if Resolve(score, a, minScore, delta) == Match(w) { MatchKept(score, a, b, minScore, delta, w); }
          if Resolve(score, b, minScore, delta) == Match(w) { MatchKept(score, b, a, minScore, delta, w); }
        }
      }
    }
    if delta < 0.0 && OrderIsIrrelevant(score, a, minScore, delta) {
      forall x, y | IsTop(score, a, x) && IsTop(score, a, y) && score(x) >= minScore ensures x == y {
        var b := ListedFirst(score, a, minScore, delta, x);
        var c := ListedFirst(score, a, minScore, delta, y);
        assert SameMatch(score, a, b, minScore, delta) && SameMatch(score, a, c, minScore, delta);
      }
    }
  }

  /** For any negative delta, of two equally good candidates the first listed wins. */
  lemma NegativeDeltaDependsOnOrder<C(!new)>(score: C -> real, minScore: real, delta: real, x: C, y: C)
    requires delta < 0.0 && score(x) == score(y) >= minScore
    ensures multiset([x, y]) == multiset([y, x])
    ensures Resolve(score, [x, y], minScore, delta) == Match(x)
    ensures Resolve(score, [y, x], minScore, delta) == Match(y)
  {
    assert SortedBy(Better(score), [x, y]) && SortedBy(Better(score), [y, x]);
    SortOfSorted(Better(score), [x, y]);
    SortOfSorted(Better(score), [y, x]);
    assert multiset([x, y]) == multiset{x, y} == multiset([y, x]);
  }

  // ----- with the default options -----

  function ResolveLocatorCandidates(l: Description, candidates: seq<Description>, minScore: Option<real>,
      delta: Option<real>): Resolution<Description>
  {
    Resolve((c: Description) => Score(l, c), candidates,
            minScore.GetOr(DEFAULT_MIN_SCORE), delta.GetOr(DEFAULT_AMBIGUOUS_DELTA))
  }

  /** Without options a candidate is acted on from 0.62 on, when it is more than 0.04 ahead of every other. */
  lemma DefaultsMean(l: Description, candidates: seq<Description>, w: Description)
    ensures ResolveLocatorCandidates(l, candidates, None, None) == Match(w) <==>
      IsWinner((c: Description) => Score(l, c), candidates, 0.62, 0.04, w)
  {
    ResolvesExactly((c: Description) => Score(l, c), candidates, 0.62, 0.04, w);
  }

  /** With the default minimum, or any above 0.48, a candidate with nothing but weak evidence is never acted on. */
  lemma WeakEvidenceIsNotEnough(l: Description, candidates: seq<Description>, minScore: Option<real>,
      delta: Option<real>, w: Description)
    requires OnlyWeakEvidence(l, w) && (minScore.Some? ==> minScore.value > 0.48)
    ensures ResolveLocatorCandidates(l, candidates, minScore, delta) != Match(w)
  {
    WeakEvidenceIsBounded(l, w);
  }
}
