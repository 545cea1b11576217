/**
 The bytes from which the build identity is hashed: which files they cover, in which order, and why they can be
 read back. The hash itself is not part of the model.
 */
module BuildDigest {
  import opened Prelude
  import opened Sorting
  import opened Utf8

  const COLON: Byte := 58
  const NEWLINE: Byte := 10
  const SLASH: CodeUnit := 47
  const BACKSLASH: CodeUnit := 92

  // ----- collecting files -----

  /** A file system entry; a directory also has the order in which it happens to be listed. */
  datatype Node =
    | RegularFile(data: seq<Byte>)
    | Directory(listing: seq<Text>, children: map<Text, Node>)
    | Special

  /** The order of strings in JavaScript: by code units. */
  predicate TextBefore(a: Text, b: Text) {
    a == [] || (b != [] && (a[0] < b[0] || (a[0] == b[0] && TextBefore(a[1..], b[1..]))))
  }

  lemma {:induction false} TextBeforeTotal(a: Text, b: Text)
    ensures TextBefore(a, b) || TextBefore(b, a)
  {
    if a != [] && b != [] { TextBeforeTotal(a[1..], b[1..]); }
  }

  lemma {:induction false} TextBeforeTransitive(a: Text, b: Text, c: Text)
    requires TextBefore(a, b) && TextBefore(b, c)
    ensures TextBefore(a, c)
  {
    if a != [] && a[0] == b[0] == c[0] { TextBeforeTransitive(a[1..], b[1..], c[1..]); }
  }

  lemma {:induction false} TextBeforeBoth(a: Text, b: Text)
    requires TextBefore(a, b) && TextBefore(b, a)
    ensures a == b
  {
    if a != [] {
      TextBeforeBoth(a[1..], b[1..]);
      assert a == [a[0]] + a[1..] && b == [b[0]] + b[1..];
    }
  }

  lemma TextBeforeIsPreorder()
    ensures TotalPreorder(TextBefore)
  {
    forall a, b ensures TextBefore(a, b) || TextBefore(b, a) { TextBeforeTotal(a, b); }
    forall a, b, c | TextBefore(a, b) && TextBefore(b, c) ensures TextBefore(a, c) { TextBeforeTransitive(a, b, c); }
  }

  /** A file and the names that lead to it. */
  datatype Located = Located(route: seq<Text>, data: seq<Byte>)

  /** Nothing when something below is neither a regular file nor a directory. */
  function CollectFiles(node: Node, route: seq<Text>): Option<seq<Located>>
    decreases node, 1
  {
    match node
    case RegularFile(data) => Some([Located(route, data)])
    case Special => None
    case Directory(listing, _) => CollectEntries(node, Sort(TextBefore, listing), route)
  }

  function CollectEntries(node: Node, names: seq<Text>, route: seq<Text>): Option<seq<Located>>
    requires node.Directory?
    decreases node, 0, |names|
  {
    if names == [] then Some([])
    else if names[0] !in node.children then None
    else
      var first := CollectFiles(node.children[names[0]], route + [names[0]]);
      var rest := CollectEntries(node, names[1..], route);
      if first.None? || rest.None? then None else Some(first.value + rest.value)
  }

  /** A directory lists each of its entries once. */
  ghost predicate WellListed(node: Node)
    decreases node
  {
    node.Directory? ==>
      && Distinct(node.listing)
      && (forall name :: name in node.listing <==> name in node.children)
      && (forall name :: name in node.children ==> WellListed(node.children[name]))
  }

  /** The contents of the regular file at the end of a route. */
  function FileAt(node: Node, route: seq<Text>): Option<seq<Byte>>
    decreases |route|
  {
    if route == [] then if node.RegularFile? then Some(node.data) else None
    else if node.Directory? && route[0] in node.children then FileAt(node.children[route[0]], route[1..])
    else None
  }

  /** These are the files below the node, each once; `route` leads to the node. */
  ghost predicate ListsOnce(files: seq<Located>, node: Node, route: seq<Text>) {
    && (forall f :: f in files <==> route <= f.route && FileAt(node, f.route[|route|..]) == Some(f.data))
    && (forall i, j :: 0 <= i < j < |files| ==> files[i].route != files[j].route)
  }

  /** The same for the entries with these names. */
  ghost predicate ListsEntriesOnce(files: seq<Located>, node: Node, names: seq<Text>, route: seq<Text>) {
    && (forall f :: f in files <==>
         (route < f.route && f.route[|route|] in names && FileAt(node, f.route[|route|..]) == Some(f.data)))
    && (forall i, j :: 0 <= i < j < |files| ==> files[i].route != files[j].route)
  }

  lemma RouteThrough(node: Node, route: seq<Text>, name: Text, r: seq<Text>)
    requires node.Directory? && name in node.children
    ensures route + [name] <= r <==> (route < r && r[|route|] == name)
    ensures route + [name] <= r ==>
      FileAt(node, r[|route|..]) == FileAt(node.children[name], r[|route| + 1..])
  {
    if route + [name] <= r {
      assert (route + [name])[|route|] == r[|route|];
      assert r[|route|..][1..] == r[|route| + 1..];
      assert route == (route + [name])[..|route|] == r[..|route|];
    }
    if route < r && r[|route|] == name {
      assert r[..|route| + 1] == route + [name];
    }
  }

  /** Membership in the files below one entry, seen from the directory. */
  lemma FirstEntry(node: Node, name: Text, first: seq<Located>, route: seq<Text>, f: Located)
    requires node.Directory? && name in node.children && ListsOnce(first, node.children[name], route + [name])
    ensures f in first <==>
      (route < f.route && f.route[|route|] == name && FileAt(node, f.route[|route|..]) == Some(f.data))
  {
    RouteThrough(node, route, name, f.route);
    assert |route + [name]| == |route| + 1;
  }

  lemma JoinEntries(node: Node, names: seq<Text>, first: seq<Located>, rest: seq<Located>, route: seq<Text>)
    requires node.Directory? && names != [] && names[0] in node.children && Distinct(names)
    requires ListsOnce(first, node.children[names[0]], route + [names[0]])
    requires ListsEntriesOnce(rest, node, names[1..], route)
    ensures ListsEntriesOnce(first + rest, node, names, route)
  {
    assert names == [names[0]] + names[1..];
    forall f ensures f in first + rest <==>
      (route < f.route && f.route[|route|] in names && FileAt(node, f.route[|route|..]) == Some(f.data))
    {
      FirstEntry(node, names[0], first, route, f);
    }
    var all := first + rest;
    forall i, j | 0 <= i < j < |all| ensures all[i].route != all[j].route {
      if i < |first| && j >= |first| {
        FirstEntry(node, names[0], first, route, first[i]);
        assert all[i] in first && all[j] in rest;
        assert all[j].route[|route|] in names[1..];
      }
    }
  }

  lemma {:induction false} EntriesCollectedOnce(node: Node, names: seq<Text>, route: seq<Text>)
    requires node.Directory? && WellListed(node) && Distinct(names) && CollectEntries(node, names, route).Some?
    ensures ListsEntriesOnce(CollectEntries(node, names, route).value, node, names, route)
    decreases node, 0, |names|
  {
    if names != [] {
      CollectedOnce(node.children[names[0]], route + [names[0]]);
      EntriesCollectedOnce(node, names[1..], route);
      JoinEntries(node, names, CollectFiles(node.children[names[0]], route + [names[0]]).value,
                  CollectEntries(node, names[1..], route).value, route);
    }
  }

  /** Every regular file below the node is collected exactly once, and nothing else is. */
  lemma {:induction false} CollectedOnce(node: Node, route: seq<Text>)
    requires WellListed(node) && CollectFiles(node, route).Some?
    ensures ListsOnce(CollectFiles(node, route).value, node, route)
    decreases node, 1
  {
    var files := CollectFiles(node, route).value;
    if node.Directory? {
      var names := Sort(TextBefore, node.listing);
      SortPermutes(TextBefore, node.listing);
      DistinctPermutes(node.listing, names);
      SamePermuted(node.listing, names);
      EntriesCollectedOnce(node, names, route);
      forall f ensures f in files <==> route <= f.route && FileAt(node, f.route[|route|..]) == Some(f.data) {
        DirectoryRoute(node, route, f.route);
      }
    } else {
      forall f ensures f in files <==> route <= f.route && FileAt(node, f.route[|route|..]) == Some(f.data) {
        if route <= f.route && f.route[|route|..] == [] { assert f.route == route; }
      }
    }
  }

  lemma DirectoryRoute(node: Node, route: seq<Text>, r: seq<Text>)
    requires node.Directory?
    ensures route <= r && FileAt(node, r[|route|..]).Some? ==> route < r && r[|route|] in node.children
  {
    if route <= r && FileAt(node, r[|route|..]).Some? {
      assert r[|route|..] != [];
      assert r[|route|..][0] == r[|route|];
    }
  }

  // ----- what can be collected -----

  /** What is at the end of a route. */
  function NodeAt(node: Node, route: seq<Text>): Option<Node>
    decreases |route|
  {
    if route == [] then Some(node)
    else if node.Directory? && route[0] in node.children then NodeAt(node.children[route[0]], route[1..])
    else None
  }

  /** Somewhere below is something that is neither a regular file nor a directory. */
  ghost predicate HasSpecial(node: Node) { exists route :: NodeAt(node, route) == Some(Special) }

  lemma SpecialBelow(node: Node, name: Text)
    requires node.Directory? && name in node.children && HasSpecial(node.children[name])
    ensures HasSpecial(node)
  {
    var route :| NodeAt(node.children[name], route) == Some(Special);
    assert ([name] + route)[1..] == route;
    assert NodeAt(node, [name] + route) == Some(Special);
  }

  lemma {:induction false} EntriesCollectable(node: Node, names: seq<Text>, route: seq<Text>)
    requires node.Directory? && WellListed(node) && forall name :: name in names ==> name in node.children
    ensures CollectEntries(node, names, route).Some? <==>
      forall name :: name in names ==> !HasSpecial(node.children[name])
    decreases node, 0, |names|
  {
    if names != [] {
      assert names == [names[0]] + names[1..];
      CollectableExactly(node.children[names[0]], route + [names[0]]);
      EntriesCollectable(node, names[1..], route);
    }
  }

  /** Collecting fails exactly when there is something special below. */
  lemma {:induction false} CollectableExactly(node: Node, route: seq<Text>)
    requires WellListed(node)
    ensures CollectFiles(node, route).Some? <==> !HasSpecial(node)
    decreases node, 1
  {
    assert NodeAt(node, []) == Some(node);
    if node.Directory? {
      var names := Sort(TextBefore, node.listing);
      SortPermutes(TextBefore, node.listing);
      SamePermuted(node.listing, names);
      EntriesCollectable(node, names, route);
      forall name | name in names && HasSpecial(node.children[name]) ensures HasSpecial(node) {
        SpecialBelow(node, name);
      }
      if HasSpecial(node) {
        var r :| NodeAt(node, r) == Some(Special);
        assert NodeAt(node.children[r[0]], r[1..]) == Some(Special);
        assert r[0] in names;
      }
    }
  }

  // ----- the listing order does not matter -----

  ghost predicate SameTree(a: Node, b: Node)
    decreases a
  {
    match (a, b)
    case (RegularFile(d), RegularFile(e)) => d == e
    case (Special, Special) => true
    case (Directory(_, c), Directory(_, d)) =>
      c.Keys == d.Keys && forall name :: name in c ==> SameTree(c[name], d[name])
    case _ => false
  }

  lemma {:induction false} SortedNamesUnique(a: seq<Text>, b: seq<Text>)
    requires SortedBy(TextBefore, a) && SortedBy(TextBefore, b) && Distinct(a) && Distinct(b)
    requires forall x :: x in a <==> x in b
    ensures a == b
  {
    DistinctFits(b, a);
    if a != [] {
      assert a[0] in b;
      assert b[0] in a;
      var i :| 0 <= i < |b| && b[i] == a[0];
      var j :| 0 <= j < |a| && a[j] == b[0];
      if i > 0 {
        InOrder(TextBefore, b, 0, i);
        InOrder(TextBefore, a, 0, j);
        TextBeforeBoth(a[0], b[0]);
      }
      assert a[0] == b[0];
      forall x ensures x in a[1..] <==> x in b[1..] {
        assert x in a <==> x == a[0] || x in a[1..];
        assert x in b <==> x == b[0] || x in b[1..];
        assert a[0] !in a[1..] && b[0] !in b[1..];
      }
      SortedNamesUnique(a[1..], b[1..]);
      assert a == [a[0]] + a[1..] && b == [b[0]] + b[1..];
    }
  }

  lemma SameNames(a: Node, b: Node)
    requires WellListed(a) && WellListed(b) && a.Directory? && b.Directory? && a.children.Keys == b.children.Keys
    ensures Sort(TextBefore, a.listing) == Sort(TextBefore, b.listing)
  {
    TextBeforeIsPreorder();
    var x, y := Sort(TextBefore, a.listing), Sort(TextBefore, b.listing);
    SortPermutes(TextBefore, a.listing);
    SortPermutes(TextBefore, b.listing);
    SortSorts(TextBefore, a.listing);
    SortSorts(TextBefore, b.listing);
    DistinctPermutes(a.listing, x);
    DistinctPermutes(b.listing, y);
    SamePermuted(a.listing, x);
    SamePermuted(b.listing, y);
    SortedNamesUnique(x, y);
  }

  lemma {:induction false} EntriesIgnoreListing(a: Node, b: Node, names: seq<Text>, route: seq<Text>)
    requires a.Directory? && b.Directory? && WellListed(a) && WellListed(b) && SameTree(a, b)
    ensures CollectEntries(a, names, route) == CollectEntries(b, names, route)
    decreases a, 0, |names|
  {
    if names != [] && names[0] in a.children {
      ListingOrderIsIrrelevant(a.children[names[0]], b.children[names[0]], route + [names[0]]);
      EntriesIgnoreListing(a, b, names[1..], route);
    }
  }

  /** Two trees that differ only in the order in which directories are listed give the same files in the same order. */
  lemma {:induction false} ListingOrderIsIrrelevant(a: Node, b: Node, route: seq<Text>)
    requires WellListed(a) && WellListed(b) && SameTree(a, b)
    ensures CollectFiles(a, route) == CollectFiles(b, route)
    decreases a, 1
  {
    if a.Directory? {
      SameNames(a, b);
      EntriesIgnoreListing(a, b, Sort(TextBefore, a.listing), route);
    }
  }

  // ----- paths -----

  /** posix.join of the input's path and the names below it. */
  function PathOf(input: Text, route: seq<Text>): Text {
    if route == [] then input else PathOf(input, route[..|route| - 1]) + [SLASH] + route[|route| - 1]
  }

  /** The same from the front: every name follows a slash. */
  lemma {:induction false} PathFromFront(input: Text, name: Text, route: seq<Text>)
    ensures PathOf(input, [name] + route) == PathOf(input + [SLASH] + name, route)
    decreases |route|
  {
    var whole := [name] + route;
    if route == [] {
      assert whole[..|whole| - 1] == [];
    } else {
      var init := route[..|route| - 1];
      assert whole[..|whole| - 1] == [name] + init;
      PathFromFront(input, name, init);
    }
  }

  /** A name as file systems allow it. */
  predicate IsName(name: Text) { name != [] && SLASH !in name }

  lemma SlashNotLater(a: Text, x: Text, b: Text, y: Text)
    requires SLASH !in y && a + [SLASH] + x == b + [SLASH] + y
    ensures |a| <= |b|
  {
    var s := b + [SLASH] + y;
    assert (a + [SLASH] + x)[|a|] == SLASH;
    assert forall i :: |b| < i < |s| ==> s[i] == y[i - |b| - 1] && y[i - |b| - 1] in y;
  }

  lemma LastSlash(a: Text, x: Text, b: Text, y: Text)
    requires SLASH !in x && SLASH !in y && a + [SLASH] + x == b + [SLASH] + y
    ensures a == b && x == y
  {
    SlashNotLater(a, x, b, y);
    SlashNotLater(b, y, a, x);
    var s, t := a + [SLASH] + x, b + [SLASH] + y;
    assert s[..|a|] == a && t[..|b|] == b && s[|a| + 1..] == x && t[|b| + 1..] == y;
  }

  lemma {:induction false} DeeperIsLonger(input: Text, route: seq<Text>)
    requires route != []
    ensures |PathOf(input, route)| > |input|
  {
    if |route| > 1 { DeeperIsLonger(input, route[..|route| - 1]); }
  }

  /** Different routes below one input have different paths. */
  lemma {:induction false} PathsAreDistinct(input: Text, a: seq<Text>, b: seq<Text>)
    requires (forall n :: n in a ==> IsName(n)) && (forall n :: n in b ==> IsName(n))
    requires PathOf(input, a) == PathOf(input, b)
    ensures a == b
  {
    if a == [] {
      if b != [] { DeeperIsLonger(input, b); }
    } else {
      if b == [] { DeeperIsLonger(input, a); }
      var a', b' := a[..|a| - 1], b[..|b| - 1];
      assert a[|a| - 1] in a && b[|b| - 1] in b;
      LastSlash(PathOf(input, a'), a[|a| - 1], PathOf(input, b'), b[|b| - 1]);
      assert forall n :: n in a' ==> n in a;
      assert forall n :: n in b' ==> n in b;
      PathsAreDistinct(input, a', b');
      assert a == a' + [a[|a| - 1]] && b == b' + [b[|b| - 1]];
    }
  }

  // ----- the framed stream -----

  datatype File = File(path: Text, data: seq<Byte>)

  function Digit(d: nat): Byte
    requires d < 10
  {
    48 + d
  }

  /** A number in decimal. */
  function Decimal(n: nat): (r: seq<Byte>)
    ensures r != []
  {
    if n < 10 then [Digit(n)] else Decimal(n / 10) + [Digit(n % 10)]
  }

  function Value(digits: seq<Byte>): int {
    if digits == [] then 0 else
      var last: int := digits[|digits| - 1];
      10 * Value(digits[..|digits| - 1]) + (last - 48)
  }

  lemma {:induction false} ValueOfDecimal(n: nat)
    ensures Value(Decimal(n)) == n && COLON !in Decimal(n)
  {
    if n < 10 {
      assert [Digit(n)][..0] == [];
    } else {
      ValueOfDecimal(n / 10);
      var r := Decimal(n);
      assert r[..|r| - 1] == Decimal(n / 10) && r[|r| - 1] == Digit(n % 10);
    }
  }

  function Frame(f: File): seq<Byte> {
    Decimal(|f.path|) + ([COLON] + (Encode(f.path) + ([COLON] +
      (Decimal(|f.data|) + ([COLON] + (f.data + [NEWLINE]))))))
  }

  function Stream(files: seq<File>): seq<Byte> {
    if files == [] then [] else Frame(files[0]) + Stream(files[1..])
  }

  /** No half of a surrogate pair stands alone. */
  predicate WellFormed(s: Text) {
    s == [] || ((StartsWithPair(s) || !(IsHigh(s[0]) || IsLow(s[0]))) && WellFormed(s[FirstWidth(s)..]))
  }

  /** The number before the first colon. */
  lemma NumberFirst(n: nat, a: seq<Byte>, m: nat, b: seq<Byte>)
    requires Decimal(n) + ([COLON] + a) == Decimal(m) + ([COLON] + b)
    ensures n == m && a == b
  {
    ValueOfDecimal(n);
    ValueOfDecimal(m);
    ColonFirst(Decimal(n), a, Decimal(m), b);
  }

  lemma ColonNotEarlier(x: seq<Byte>, a: seq<Byte>, y: seq<Byte>, b: seq<Byte>)
    requires COLON !in y && x + ([COLON] + a) == y + ([COLON] + b)
    ensures |y| <= |x|
  {
    var s := y + ([COLON] + b);
    assert (x + ([COLON] + a))[|x|] == COLON;
    assert forall i :: 0 <= i < |y| ==> s[i] == y[i] && y[i] in y;
  }

  lemma ColonFirst(x: seq<Byte>, a: seq<Byte>, y: seq<Byte>, b: seq<Byte>)
    requires COLON !in x && COLON !in y && x + ([COLON] + a) == y + ([COLON] + b)
    ensures x == y && a == b
  {
    ColonNotEarlier(x, a, y, b);
    ColonNotEarlier(y, b, x, a);
    SplitAt(x, [COLON] + a, y, [COLON] + b);
    SplitAt([COLON], a, [COLON], b);
  }

  lemma SplitAt<T>(x: seq<T>, a: seq<T>, y: seq<T>, b: seq<T>)
    requires |x| == |y| && x + a == y + b
    ensures x == y && a == b
  {
    assert (x + a)[..|x|] == x && (y + b)[..|y|] == y;
    assert (x + a)[|x|..] == a && (y + b)[|y|..] == b;
  }

  lemma EncodeFirst(s: Text)
    requires s != []
    ensures Encode(s) == EncodeScalar(FirstScalar(s)) + Encode(s[FirstWidth(s)..])
  {
    var first := s[..FirstWidth(s)];
    assert FirstScalar(first) == FirstScalar(s);
    assert Characters(s)[0] == first && Characters(s)[1..] == Characters(s[FirstWidth(s)..]);
  }

  /** The scalar value at the front of an encoding, read back. */
  function DecodeScalar(bytes: seq<Byte>): int
    requires |bytes| >= 4
  {
    var (a: int, b: int, c: int, d: int) := (bytes[0], bytes[1], bytes[2], bytes[3]);
    if a < 0x80 then a
    else if a < 0xE0 then (a - 0xC0) * 0x40 + (b - 0x80)
    else if a < 0xF0 then (a - 0xE0) * 0x1000 + (b - 0x80) * 0x40 + (c - 0x80)
    else (a - 0xF0) * 0x4_0000 + (b - 0x80) * 0x1000 + (c - 0x80) * 0x40 + (d - 0x80)
  }

  /** The digits of a scalar value to the base 64. */
  lemma SixBitDigits(c: nat)
    ensures c == c / 0x40 * 0x40 + c % 0x40
    ensures c / 0x40 == c / 0x1000 * 0x40 + c / 0x40 % 0x40
    ensures c / 0x1000 == c / 0x4_0000 * 0x40 + c / 0x1000 % 0x40
  {
  }

  lemma StartsLike(e: seq<Byte>, rest: seq<Byte>, i: nat)
    requires i < |e|
    ensures (e + rest)[i] == e[i]
  {
  }

  lemma DecodeEncoded(c: int, rest: seq<Byte>)
    requires 0 <= c < 0x11_0000 && |rest| >= 3
    ensures DecodeScalar(EncodeScalar(c) + rest) == c
  {
    var e := EncodeScalar(c);
    StartsLike(e, rest, 0);
    if |e| > 1 { StartsLike(e, rest, 1); }
    if |e| > 2 { StartsLike(e, rest, 2); }
    if |e| > 3 { StartsLike(e, rest, 3); }
    SixBitDigits(c);
  }

  lemma ScalarFirst(c: int, a: seq<Byte>, d: int, b: seq<Byte>)
    requires 0 <= c < 0x11_0000 && 0 <= d < 0x11_0000
    requires EncodeScalar(c) + a == EncodeScalar(d) + b
    ensures c == d && a == b
  {
    var pad: seq<Byte> := [0, 0, 0];
    Assoc(EncodeScalar(c), a, pad);
    Assoc(EncodeScalar(d), b, pad);
    DecodeEncoded(c, a + pad);
    DecodeEncoded(d, b + pad);
    SplitAt(EncodeScalar(c), a, EncodeScalar(d), b);
  }

  lemma SameFirstCharacter(s: Text, t: Text)
    requires s != [] && t != [] && WellFormed(s) && WellFormed(t) && FirstScalar(s) == FirstScalar(t)
    ensures FirstWidth(s) == FirstWidth(t) && s[..FirstWidth(s)] == t[..FirstWidth(t)]
  {
    if StartsWithPair(s) {
      assert StartsWithPair(t);
      PairOfScalar(s[0], s[1], t[0], t[1]);
      assert s[..2] == [s[0], s[1]] && t[..2] == [t[0], t[1]];
    } else {
      assert !StartsWithPair(t);
      assert s[..1] == [s[0]] && t[..1] == [t[0]];
    }
  }

  lemma PairOfScalar(h: int, l: int, h': int, l': int)
    requires 0xDC00 <= l < 0xE000 && 0xDC00 <= l' < 0xE000
    requires (h - 0xD800) * 0x400 + (l - 0xDC00) == (h' - 0xD800) * 0x400 + (l' - 0xDC00)
    ensures h == h' && l == l'
  {
  }

  /** A well-formed path is determined by its number of code units and any stream that begins with its encoding. */
  lemma {:induction false} PathFirst(p: Text, a: seq<Byte>, q: Text, b: seq<Byte>)
    requires WellFormed(p) && WellFormed(q) && |p| == |q|
    requires Encode(p) + a == Encode(q) + b
    ensures p == q && a == b
    decreases |p|
  {
    if p == [] {
      assert Encode(p) == [] && [] + a == a && [] + b == b;
    } else {
      var w, v := FirstWidth(p), FirstWidth(q);
      EncodeFirst(p);
      EncodeFirst(q);
      Assoc(EncodeScalar(FirstScalar(p)), Encode(p[w..]), a);
      Assoc(EncodeScalar(FirstScalar(q)), Encode(q[v..]), b);
      ScalarFirst(FirstScalar(p), Encode(p[w..]) + a, FirstScalar(q), Encode(q[v..]) + b);
      SameFirstCharacter(p, q);
      PathFirst(p[w..], a, q[v..], b);
      assert p == p[..w] + p[w..] && q == q[..v] + q[v..];
    }
  }

  lemma FrameFirst(f: File, a: seq<Byte>, g: File, b: seq<Byte>)
    requires WellFormed(f.path) && WellFormed(g.path) && Frame(f) + a == Frame(g) + b
    ensures f == g && a == b
  {
    FrameParts(f, a);
    FrameParts(g, b);
    NumberFirst(|f.path|, AfterLength(f, a), |g.path|, AfterLength(g, b));
    PathFirst(f.path, [COLON] + AfterPath(f, a), g.path, [COLON] + AfterPath(g, b));
    SplitAt([COLON], AfterPath(f, a), [COLON], AfterPath(g, b));
    NumberFirst(|f.data|, f.data + ([NEWLINE] + a), |g.data|, g.data + ([NEWLINE] + b));
    SplitAt(f.data, [NEWLINE] + a, g.data, [NEWLINE] + b);
    SplitAt([NEWLINE], a, [NEWLINE], b);
  }

  function AfterPath(f: File, rest: seq<Byte>): seq<Byte> {
    Decimal(|f.data|) + ([COLON] + (f.data + ([NEWLINE] + rest)))
  }

  function AfterLength(f: File, rest: seq<Byte>): seq<Byte> {
    Encode(f.path) + ([COLON] + AfterPath(f, rest))
  }

  lemma FrameParts(f: File, rest: seq<Byte>)
    ensures Frame(f) + rest == Decimal(|f.path|) + ([COLON] + AfterLength(f, rest))
  {
    Regroup(Decimal(|f.path|), Encode(f.path), Decimal(|f.data|), f.data, rest);
  }

  lemma Regroup(a: seq<Byte>, b: seq<Byte>, c: seq<Byte>, d: seq<Byte>, rest: seq<Byte>)
    ensures (a + ([COLON] + (b + ([COLON] + (c + ([COLON] + (d + [NEWLINE]))))))) + rest
      == a + ([COLON] + (b + ([COLON] + (c + ([COLON] + (d + ([NEWLINE] + rest)))))))
  {
    var e := d + [NEWLINE];
    Assoc(d, [NEWLINE], rest);
    Assoc([COLON], e, rest);
    Assoc(c, [COLON] + e, rest);
    Assoc([COLON], c + ([COLON] + e), rest);
    Assoc(b, [COLON] + (c + ([COLON] + e)), rest);
    Assoc([COLON], b + ([COLON] + (c + ([COLON] + e))), rest);
    Assoc(a, [COLON] + (b + ([COLON] + (c + ([COLON] + e)))), rest);
  }

  /** The stream determines the files: equal streams come from equal lists of paths and contents. */
  lemma {:induction false} StreamIsDecodable(xs: seq<File>, ys: seq<File>)
    requires (forall f :: f in xs ==> WellFormed(f.path)) && (forall f :: f in ys ==> WellFormed(f.path))
    requires Stream(xs) == Stream(ys)
    ensures xs == ys
    decreases |xs|
  {
    if xs == [] || ys == [] {
      FrameNotEmpty(xs);
      FrameNotEmpty(ys);
    } else {
      FrameFirst(xs[0], Stream(xs[1..]), ys[0], Stream(ys[1..]));
      StreamIsDecodable(xs[1..], ys[1..]);
      assert xs == [xs[0]] + xs[1..] && ys == [ys[0]] + ys[1..];
    }
  }

  lemma FrameNotEmpty(files: seq<File>)
    ensures files != [] ==> Stream(files) != []
  {
    if files != [] { assert |Frame(files[0])| > 0; }
  }

  // ----- any path at all -----

  /** Every lone surrogate replaced by U+FFFD, which is what an encoder does to it. */
  function Repair(s: Text): (r: Text)
    ensures |r| == |s|
    ensures r != [] && StartsWithPair(r) <==> s != [] && StartsWithPair(s)
    ensures WellFormed(r)
  {
    if s == [] then [] else
      var rest := Repair(s[FirstWidth(s)..]);
      if StartsWithPair(s) then
        var r: Text := [s[0], s[1]] + rest;
        assert r[2..] == rest;
        r
      else
        var r: Text := [if IsHigh(s[0]) || IsLow(s[0]) then 0xFFFD else s[0]] + rest;
        assert r[1..] == rest;
        r
  }

  lemma {:induction false} RepairEncodesAlike(s: Text)
    ensures Encode(Repair(s)) == Encode(s)
    decreases |s|
  {
    if s != [] {
      var w, r := FirstWidth(s), Repair(s);
      RepairEncodesAlike(s[w..]);
      EncodeFirst(s);
      EncodeFirst(r);
      assert r[w..] == Repair(s[w..]);
    }
  }

  function RepairAll(files: seq<File>): (r: seq<File>)
    ensures forall f :: f in r ==> WellFormed(f.path)
  {
    if files == [] then [] else [File(Repair(files[0].path), files[0].data)] + RepairAll(files[1..])
  }

  lemma {:induction false} RepairStreamsAlike(files: seq<File>)
    ensures Stream(RepairAll(files)) == Stream(files)
  {
    if files != [] {
      RepairEncodesAlike(files[0].path);
      RepairStreamsAlike(files[1..]);
    }
  }

  lemma FramesAgreeExactly(xs: seq<File>, ys: seq<File>)
    ensures Stream(xs) == Stream(ys) <==> RepairAll(xs) == RepairAll(ys)
  {
    RepairStreamsAlike(xs);
    RepairStreamsAlike(ys);
    if Stream(xs) == Stream(ys) { StreamIsDecodable(RepairAll(xs), RepairAll(ys)); }
  }

  // ----- backslashes -----

  /** Backslashes replaced by slashes, as the path is hashed. */
  function Normalise(path: Text): (r: Text)
    ensures |r| == |path| && BACKSLASH !in r
    ensures BACKSLASH !in path ==> r == path
  {
    if path == [] then [] else
      var r: Text := [if path[0] == BACKSLASH then SLASH else path[0]] + Normalise(path[1..]);
      assert path == [path[0]] + path[1..];
      r
  }

  function NormaliseAll(files: seq<File>): seq<File> {
    if files == [] then [] else [File(Normalise(files[0].path), files[0].data)] + NormaliseAll(files[1..])
  }

  /** What is hashed of a list of files. */
  function HashedStream(files: seq<File>): seq<Byte> { Stream(NormaliseAll(files)) }

  /**
   Exactly when two lists of files are hashed alike, for any paths: when they are the same files but for
   lone surrogates in their paths and for slashes that are backslashes in the other.
   */
  lemma StreamsAgreeExactly(xs: seq<File>, ys: seq<File>)
    ensures HashedStream(xs) == HashedStream(ys) <==> RepairAll(NormaliseAll(xs)) == RepairAll(NormaliseAll(ys))
  {
    FramesAgreeExactly(NormaliseAll(xs), NormaliseAll(ys));
  }

  /** A path that is hashed as it is. */
  predicate IsPlain(path: Text) { WellFormed(path) && BACKSLASH !in path }

  lemma {:induction false} PlainIsKept(files: seq<File>)
    requires forall f :: f in files ==> IsPlain(f.path)
    ensures NormaliseAll(files) == files
  {
    if files != [] { PlainIsKept(files[1..]); }
  }

  /** Lists of files with plain paths are hashed alike only if they are equal. */
  lemma PlainStreamsDiffer(xs: seq<File>, ys: seq<File>)
    requires (forall f :: f in xs ==> IsPlain(f.path)) && (forall f :: f in ys ==> IsPlain(f.path))
    requires HashedStream(xs) == HashedStream(ys)
    ensures xs == ys
  {
    PlainIsKept(xs);
    PlainIsKept(ys);
    StreamIsDecodable(xs, ys);
  }

  /** A file called a\b and a file b in a directory a are hashed alike. */
  lemma BackslashesCollide(a: Text, b: Text, data: seq<Byte>)
    ensures HashedStream([File(a + [BACKSLASH] + b, data)]) == HashedStream([File(a + [SLASH] + b, data)])
    ensures File(a + [BACKSLASH] + b, data) != File(a + [SLASH] + b, data)
  {
    var (x, y) := (a + [BACKSLASH] + b, a + [SLASH] + b);
    NormaliseMiddle(a, BACKSLASH, b);
    NormaliseMiddle(a, SLASH, b);
    assert x[|a|] != y[|a|];
    OneNormalised(File(x, data));
    OneNormalised(File(y, data));
  }

  lemma OneNormalised(f: File)
    ensures NormaliseAll([f]) == [File(Normalise(f.path), f.data)]
  {
    assert [f][1..] == [];
  }

  lemma {:induction false} NormaliseMiddle(a: Text, c: CodeUnit, b: Text)
    ensures Normalise(a + [c] + b) == Normalise(a) + [if c == BACKSLASH then SLASH else c] + Normalise(b)
  {
    var s := a + [c] + b;
    if a == [] {
      assert s == [c] + b && s[1..] == b;
    } else {
      assert s[0] == a[0] && s[1..] == a[1..] + [c] + b;
      NormaliseMiddle(a[1..], c, b);
    }
  }

  /** Two different lists that are hashed alike. */
  lemma LoneSurrogatesCollide(data: seq<Byte>)
    ensures HashedStream([File([0xD800], data)]) == HashedStream([File([0xFFFD], data)])
    ensures File([0xD800], data) != File([0xFFFD], data)
  {
    var lone: Text, replacement: Text := [0xD800], [0xFFFD];
    EncodeFirst(lone);
    EncodeFirst(replacement);
    assert lone[1..] == [] && replacement[1..] == [];
    var f, g := File(lone, data), File(replacement, data);
    assert f.path != g.path by { assert lone[0] != replacement[0]; }
    assert Frame(f) == Frame(g);
    OneNormalised(f);
    OneNormalised(g);
    assert [f][1..] == [] && [g][1..] == [];
  }

  // ----- the digest's input -----

  /** One of the inputs: its path relative to the root, and what the file system has there. */
  datatype Input = Input(path: Text, node: Node)

  function FilesOf(input: Text, located: seq<Located>): seq<File> {
    if located == [] then [] else
      [File(PathOf(input, located[0].route), located[0].data)] + FilesOf(input, located[1..])
  }

  function AllFiles(inputs: seq<Input>): Option<seq<File>> {
    if inputs == [] then Some([]) else
      var (first, rest) := (CollectFiles(inputs[0].node, []), AllFiles(inputs[1..]));
      if first.None? || rest.None? then None else Some(FilesOf(inputs[0].path, first.value) + rest.value)
  }

  /** Where a file comes from: from which input, and by which route below it. */
  datatype Origin = Origin(input: nat, route: seq<Text>)

  /** File k of the list is the regular file that origin k names. */
  ghost predicate ComesFrom(f: File, inputs: seq<Input>, o: Origin) {
    && o.input < |inputs|
    && f.path == PathOf(inputs[o.input].path, o.route)
    && FileAt(inputs[o.input].node, o.route) == Some(f.data)
  }

  lemma {:induction false} FilesOfAt(input: Text, located: seq<Located>, k: nat)
    requires k < |located|
    ensures |FilesOf(input, located)| == |located|
    ensures FilesOf(input, located)[k] == File(PathOf(input, located[k].route), located[k].data)
  {
    if |located| > 1 { FilesOfAt(input, located[1..], if k > 0 then k - 1 else 0); }
  }

  ghost predicate AllComeFrom(files: seq<File>, inputs: seq<Input>, origins: seq<Origin>) {
    |origins| == |files| && forall k :: 0 <= k < |files| ==> ComesFrom(files[k], inputs, origins[k])
  }

  /** Every regular file below input i is among the origins. */
  ghost predicate CoversInput(inputs: seq<Input>, i: nat, origins: seq<Origin>)
    requires i < |inputs|
  {
    forall route :: FileAt(inputs[i].node, route).Some? ==> Origin(i, route) in origins
  }

  ghost predicate AreTheFilesOf(files: seq<File>, inputs: seq<Input>, origins: seq<Origin>) {
    && AllComeFrom(files, inputs, origins)
    && Distinct(origins)
    && (forall i: nat :: i < |inputs| ==> CoversInput(inputs, i, origins))
  }

  lemma FilesOfFirst(inputs: seq<Input>) returns (origins: seq<Origin>)
    requires inputs != [] && WellListed(inputs[0].node) && CollectFiles(inputs[0].node, []).Some?
    ensures AllComeFrom(FilesOf(inputs[0].path, CollectFiles(inputs[0].node, []).value), inputs, origins)
    ensures Distinct(origins) && forall k :: 0 <= k < |origins| ==> origins[k].input == 0
    ensures CoversInput(inputs, 0, origins)
  {
    var located := CollectFiles(inputs[0].node, []).value;
    CollectedOnce(inputs[0].node, []);
    var files := FilesOf(inputs[0].path, located);
    if located != [] { FilesOfAt(inputs[0].path, located, 0); }
    origins := seq(|located|, k requires 0 <= k < |located| => Origin(0, located[k].route));
    forall k | 0 <= k < |files| ensures ComesFrom(files[k], inputs, origins[k]) {
      FilesOfAt(inputs[0].path, located, k);
      assert located[k] in located && located[k].route[0..] == located[k].route;
    }
    forall route | FileAt(inputs[0].node, route).Some? ensures Origin(0, route) in origins {
      var f := Located(route, FileAt(inputs[0].node, route).value);
      assert f.route[0..] == f.route && f in located;
      var k :| 0 <= k < |located| && located[k] == f;
      assert origins[k] == Origin(0, route);
    }
  }

  function Moved(rest: seq<Origin>): (r: seq<Origin>)
    ensures |r| == |rest|
    ensures forall k :: 0 <= k < |rest| ==> r[k] == Origin(rest[k].input + 1, rest[k].route)
  {
    seq(|rest|, k requires 0 <= k < |rest| => Origin(rest[k].input + 1, rest[k].route))
  }

  lemma MovedIsDistinct(first: seq<Origin>, rest: seq<Origin>)
    requires Distinct(first) && Distinct(rest) && forall k :: 0 <= k < |first| ==> first[k].input == 0
    ensures Distinct(first + Moved(rest))
  {
    var origins := first + Moved(rest);
    forall i, j | 0 <= i < j < |origins| ensures origins[i] != origins[j] {
      if i >= |first| { assert rest[i - |first|] != rest[j - |first|]; }
    }
  }

  lemma MovedComeFrom(files: seq<File>, inputs: seq<Input>, rest: seq<Origin>)
    requires inputs != [] && AllComeFrom(files, inputs[1..], rest)
    ensures AllComeFrom(files, inputs, Moved(rest))
  {
    forall k | 0 <= k < |files| ensures ComesFrom(files[k], inputs, Moved(rest)[k]) {
      assert ComesFrom(files[k], inputs[1..], rest[k]);
    }
  }

  lemma MovedCovers(inputs: seq<Input>, i: nat, rest: seq<Origin>)
    requires 0 < i < |inputs| && CoversInput(inputs[1..], i - 1, rest)
    ensures CoversInput(inputs, i, Moved(rest))
  {
    forall route | FileAt(inputs[i].node, route).Some? ensures Origin(i, route) in Moved(rest) {
      assert Origin(i - 1, route) in rest;
      var k :| 0 <= k < |rest| && rest[k] == Origin(i - 1, route);
      assert Moved(rest)[k] == Origin(i, route);
    }
  }

  lemma AllCovered(inputs: seq<Input>, first: seq<Origin>, rest: seq<Origin>)
    requires inputs != [] && CoversInput(inputs, 0, first)
    requires forall i: nat :: i < |inputs| - 1 ==> CoversInput(inputs[1..], i, rest)
    ensures forall i: nat :: i < |inputs| ==> CoversInput(inputs, i, first + Moved(rest))
  {
    forall i: nat | i < |inputs| ensures CoversInput(inputs, i, first + Moved(rest)) {
      if i > 0 {
        assert CoversInput(inputs[1..], i - 1, rest);
        MovedCovers(inputs, i, rest);
      }
    }
  }

  lemma JoinInputs(inputs: seq<Input>, a: seq<File>, first: seq<Origin>, b: seq<File>, rest: seq<Origin>)
    requires inputs != [] && AllComeFrom(a, inputs, first) && Distinct(first) && CoversInput(inputs, 0, first)
    requires forall k :: 0 <= k < |first| ==> first[k].input == 0
    requires AreTheFilesOf(b, inputs[1..], rest)
    ensures AreTheFilesOf(a + b, inputs, first + Moved(rest))
  {
    MovedIsDistinct(first, rest);
    MovedComeFrom(b, inputs, rest);
    AllCovered(inputs, first, rest);
    BothComeFrom(inputs, a, first, b, Moved(rest));
  }

  lemma BothComeFrom(inputs: seq<Input>, a: seq<File>, first: seq<Origin>, b: seq<File>, rest: seq<Origin>)
    requires AllComeFrom(a, inputs, first) && AllComeFrom(b, inputs, rest)
    ensures AllComeFrom(a + b, inputs, first + rest)
  {
  }

  /**
   The list that is hashed holds, before it is put in order, the regular files of all inputs: each with the path
   and the contents it has there, once for every input it is below, and no others.
   */
  lemma {:induction false} AllFilesAreThere(inputs: seq<Input>) returns (origins: seq<Origin>)
    requires (forall input :: input in inputs ==> WellListed(input.node)) && AllFiles(inputs).Some?
    ensures AreTheFilesOf(AllFiles(inputs).value, inputs, origins)
  {
    if inputs == [] {
      origins := [];
    } else {
      assert inputs == [inputs[0]] + inputs[1..];
      var first := FilesOfFirst(inputs);
      var rest := AllFilesAreThere(inputs[1..]);
      JoinInputs(inputs, FilesOf(inputs[0].path, CollectFiles(inputs[0].node, []).value), first,
                 AllFiles(inputs[1..]).value, rest);
      origins := first + Moved(rest);
    }
  }

  /** Nothing is hashed exactly when something below an input is neither a regular file nor a directory. */
  lemma {:induction false} NothingHashedExactly(inputs: seq<Input>)
    requires forall input :: input in inputs ==> WellListed(input.node)
    ensures AllFiles(inputs).None? <==> exists input :: input in inputs && HasSpecial(input.node)
  {
    if inputs != [] {
      assert inputs == [inputs[0]] + inputs[1..];
      CollectableExactly(inputs[0].node, []);
      NothingHashedExactly(inputs[1..]);
    }
  }

  /** They differ, and a is smaller where they first do. */
  ghost predicate SmallerAtFirst(a: Text, b: Text) { exists i :: FirstDifference(a, b, i) && a[i] < b[i] }

  lemma SmallerBelow(c: CodeUnit, a: Text, b: Text)
    ensures SmallerAtFirst([c] + a, [c] + b) <==> SmallerAtFirst(a, b)
  {
    var (x, y) := ([c] + a, [c] + b);
    forall i | 0 <= i < |a| && i < |b| ensures FirstDifference(a, b, i) <==> FirstDifference(x, y, i + 1) {
      assert x[..i + 1] == [c] + a[..i] && y[..i + 1] == [c] + b[..i];
      assert x[..i + 1][1..] == a[..i] && y[..i + 1][1..] == b[..i];
    }
    if SmallerAtFirst(x, y) {
      var i :| FirstDifference(x, y, i) && x[i] < y[i];
      assert FirstDifference(a, b, i - 1) && a[i - 1] < b[i - 1];
    }
    if SmallerAtFirst(a, b) {
      var i :| FirstDifference(a, b, i) && a[i] < b[i];
      assert FirstDifference(x, y, i + 1);
    }
  }

  lemma SmallerAtStart(a: Text, b: Text)
    requires a != [] && b != [] && a[0] != b[0]
    ensures SmallerAtFirst(a, b) <==> a[0] < b[0]
  {
    assert FirstDifference(a, b, 0);
    forall i | FirstDifference(a, b, i) ensures i == 0 { StartAlike(a, b, i); }
  }

  lemma StartAlike(a: Text, b: Text, i: nat)
    requires FirstDifference(a, b, i)
    ensures i > 0 ==> a[0] == b[0]
  {
    assert i > 0 ==> a[..i][0] == b[..i][0];
  }

  /** Before means: the other goes on where this one ends, or they differ first where this one is smaller. */
  lemma {:induction false} TextBeforeMeans(a: Text, b: Text)
    ensures TextBefore(a, b) <==> a <= b || SmallerAtFirst(a, b)
  {
    if a != [] && b != [] {
      if a[0] == b[0] {
        TextBeforeMeans(a[1..], b[1..]);
        SmallerBelow(a[0], a[1..], b[1..]);
        assert a == [a[0]] + a[1..] && b == [b[0]] + b[1..];
      } else {
        SmallerAtStart(a, b);
      }
    }
  }

  ghost predicate FirstDifference(a: Text, b: Text, i: int) {
    0 <= i < |a| && i < |b| && a[..i] == b[..i] && a[i] != b[i]
  }

  predicate PathBefore(a: File, b: File) { TextBefore(a.path, b.path) }

  /** The files are hashed in the order of their paths. */
  lemma HashedInOrder(files: seq<File>)
    ensures multiset(Sort(PathBefore, files)) == multiset(files)
    ensures forall i, j :: 0 <= i < j < |files| ==>
      TextBefore(Sort(PathBefore, files)[i].path, Sort(PathBefore, files)[j].path)
  {
    forall a: File, b: File ensures PathBefore(a, b) || PathBefore(b, a) { TextBeforeTotal(a.path, b.path); }
    forall a: File, b: File, c: File | PathBefore(a, b) && PathBefore(b, c) ensures PathBefore(a, c) {
      TextBeforeTransitive(a.path, b.path, c.path);
    }
    SortPermutes(PathBefore, files);
    SortSorts(PathBefore, files);
    var sorted := Sort(PathBefore, files);
    forall i, j | 0 <= i < j < |files| ensures TextBefore(sorted[i].path, sorted[j].path) {
      InOrder(PathBefore, sorted, i, j);
    }
  }

  /** The bytes given to the hash; nothing when an input cannot be collected. */
  method HashedBytes(inputs: seq<Input>) returns (stream: Option<seq<Byte>>)
    ensures stream ==
      if AllFiles(inputs).None? then None else Some(HashedStream(Sort(PathBefore, AllFiles(inputs).value)))
  {
    var collected := AllFiles(inputs);
    if collected.None? { return None; }
    var files := Sort(PathBefore, collected.value);
    var hash: seq<Byte> := [];
    for i := 0 to |files|
      invariant hash + HashedStream(files[i..]) == HashedStream(files)
    {
      var f := File(Normalise(files[i].path), files[i].data);
      NextFrame(hash, files, i);
      var header := Decimal(|f.path|) + [COLON] + Encode(f.path) + [COLON] + Decimal(|f.data|) + [COLON];
      FrameOfUpdates(hash, f);
      hash := hash + header;
      hash := hash + f.data;
      hash := hash + [NEWLINE];
    }
    assert hash + [] == hash;
    return Some(hash);
  }

  lemma NextFrame(hash: seq<Byte>, files: seq<File>, i: nat)
    requires i < |files|
    ensures var f := File(Normalise(files[i].path), files[i].data);
      hash + HashedStream(files[i..]) == (hash + Frame(f)) + HashedStream(files[i + 1..])
  {
    var f := File(Normalise(files[i].path), files[i].data);
    assert files[i..][0] == files[i] && files[i..][1..] == files[i + 1..];
    var rest := NormaliseAll(files[i + 1..]);
    assert ([f] + rest)[0] == f && ([f] + rest)[1..] == rest;
    Assoc(hash, Frame(f), Stream(rest));
  }

  lemma FrameOfUpdates(hash: seq<Byte>, f: File)
    ensures var header := Decimal(|f.path|) + [COLON] + Encode(f.path) + [COLON] + Decimal(|f.data|) + [COLON];
      hash + header + f.data + [NEWLINE] == hash + Frame(f)
  {
    HeaderAndData(Decimal(|f.path|), Encode(f.path), Decimal(|f.data|), f.data);
    var header := Decimal(|f.path|) + [COLON] + Encode(f.path) + [COLON] + Decimal(|f.data|) + [COLON];
    Assoc(hash, header, f.data);
    Assoc(hash, header + f.data, [NEWLINE]);
  }

  lemma HeaderAndData(a: seq<Byte>, b: seq<Byte>, c: seq<Byte>, d: seq<Byte>)
    ensures a + [COLON] + b + [COLON] + c + [COLON] + d + [NEWLINE]
      == a + ([COLON] + (b + ([COLON] + (c + ([COLON] + (d + [NEWLINE]))))))
  {
  }

  ghost predicate SameInputs(a: seq<Input>, b: seq<Input>) {
    && |a| == |b|
    && forall i :: 0 <= i < |a| ==>
         a[i].path == b[i].path && WellListed(a[i].node) && WellListed(b[i].node) && SameTree(a[i].node, b[i].node)
  }

  /** The same files in the same order, in whatever order the directories are listed. */
  lemma {:induction false} DigestIgnoresListingOrder(a: seq<Input>, b: seq<Input>)
    requires SameInputs(a, b)
    ensures AllFiles(a) == AllFiles(b)
  {
    if a != [] {
      ListingOrderIsIrrelevant(a[0].node, b[0].node, []);
      DigestIgnoresListingOrder(a[1..], b[1..]);
    }
  }
}
