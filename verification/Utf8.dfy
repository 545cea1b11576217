/**
 JavaScript strings as sequences of UTF-16 code units, their UTF-8 encoding as TextEncoder produces
 it (section 3 of RFC 3629; a lone surrogate is encoded as U+FFFD), and the truncation of stored bodies.
 */
module Utf8 {
  import opened Prelude

  type CodeUnit = u: int | 0 <= u < 0x1_0000

  type Byte = b: int | 0 <= b < 0x100

  type Text = seq<CodeUnit>

  predicate IsHigh(u: CodeUnit) { 0xD800 <= u < 0xDC00 }

  predicate IsLow(u: CodeUnit) { 0xDC00 <= u < 0xE000 }

  predicate StartsWithPair(s: Text) {
    |s| >= 2 && IsHigh(s[0]) && IsLow(s[1])
  }

  /** How many code units the string iterator yields as its first element. */
  function FirstWidth(s: Text): (w: nat)
    requires s != []
    ensures 1 <= w <= |s|
  {
    if StartsWithPair(s) then 2 else 1
  }

  /** What the string iterator yields: surrogate pairs together, every other code unit alone. */
  function Characters(s: Text): seq<Text> {
    if s == [] then [] else [s[..FirstWidth(s)]] + Characters(s[FirstWidth(s)..])
  }

  /** The scalar value the first character stands for in an encoding. */
  function FirstScalar(s: Text): (c: int)
    requires s != []
    ensures 0 <= c < 0x11_0000 && !(0xD800 <= c < 0xE000)
  {
    if StartsWithPair(s) then
      var high: int, low: int := s[0], s[1];
      0x1_0000 + (high - 0xD800) * 0x400 + (low - 0xDC00)
    else if IsHigh(s[0]) || IsLow(s[0]) then 0xFFFD
    else s[0]
  }

  function EncodeScalar(c: int): (bytes: seq<Byte>)
    requires 0 <= c < 0x11_0000
    ensures 1 <= |bytes| <= 4
  {
    if c < 0x80 then [c]
    else if c < 0x800 then [0xC0 + c / 0x40, 0x80 + c % 0x40]
    else if c < 0x1_0000 then [0xE0 + c / 0x1000, 0x80 + c / 0x40 % 0x40, 0x80 + c % 0x40]
    else [0xF0 + c / 0x4_0000, 0x80 + c / 0x1000 % 0x40, 0x80 + c / 0x40 % 0x40, 0x80 + c % 0x40]
  }

  function EncodeCharacter(character: Text): seq<Byte> {
    if character == [] then [] else EncodeScalar(FirstScalar(character))
  }

  /** TextEncoder.encode */
  function Encode(s: Text): seq<Byte> { FlatMap(EncodeCharacter, Characters(s)) }

  function Utf8Length(s: Text): nat { |Encode(s)| }

  /** Cutting s at position k would separate the two halves of a surrogate pair. */
  predicate SplitsPair(s: Text, k: nat)
    requires k <= |s|
  {
    0 < k < |s| && IsHigh(s[k - 1]) && IsLow(s[k])
  }

  lemma CharactersOfPrefix(s: Text, k: nat)
    requires 0 < k <= |s| && !SplitsPair(s, k)
    ensures FirstWidth(s) <= k
    ensures Characters(s[..k]) == [s[..FirstWidth(s)]] + Characters(s[FirstWidth(s)..][..k - FirstWidth(s)])
  {
    var w := FirstWidth(s);
    assert FirstWidth(s[..k]) == w;
    assert s[..k][..w] == s[..w];
    assert s[..k][w..] == s[w..][..k - w];
  }

  /** A cut behind the first character is a cut of the rest. */
  lemma CutOfRest(s: Text, k: nat)
    requires 0 < k <= |s| && !SplitsPair(s, k)
    ensures FirstWidth(s) <= k
    ensures !SplitsPair(s[FirstWidth(s)..], k - FirstWidth(s))
    ensures s[FirstWidth(s)..][k - FirstWidth(s)..] == s[k..]
  {
  }

  /** A cut that splits the characters of the rest splits the characters of the whole. */
  lemma SplitsOneMore(s: Text, k: nat)
    requires 0 < k <= |s| && !SplitsPair(s, k) && FirstWidth(s) <= k
    requires var (w, rest) := (FirstWidth(s), s[FirstWidth(s)..]);
      Characters(rest) == Characters(rest[..k - w]) + Characters(rest[k - w..])
    ensures Characters(s) == Characters(s[..k]) + Characters(s[k..])
  {
    CutOfRest(s, k);
    CharactersOfPrefix(s, k);
    var w := FirstWidth(s);
    Assoc([s[..w]], Characters(s[w..][..k - w]), Characters(s[k..]));
  }

  lemma {:induction false} CharactersSplit(s: Text, k: nat)
    requires k <= |s| && !SplitsPair(s, k)
    ensures Characters(s) == Characters(s[..k]) + Characters(s[k..])
  {
    if k == 0 {
      assert s[0..] == s && s[..0] == [];
    } else {
      CutOfRest(s, k);
      CharactersSplit(s[FirstWidth(s)..], k - FirstWidth(s));
      SplitsOneMore(s, k);
    }
  }

  /** The encoding is compositional at every cut that leaves surrogate pairs whole. */
  lemma EncodeSplit(s: Text, k: nat)
    requires k <= |s| && !SplitsPair(s, k)
    ensures Encode(s) == Encode(s[..k]) + Encode(s[k..])
  {
    CharactersSplit(s, k);
    FlatMapAppend(EncodeCharacter, Characters(s[..k]), Characters(s[k..]));
  }

  lemma Utf8LengthMonotone(s: Text, j: nat, k: nat)
    requires j <= k <= |s| && !SplitsPair(s, j) && !SplitsPair(s, k)
    ensures Utf8Length(s[..j]) <= Utf8Length(s[..k])
  {
    assert s[..k][..j] == s[..j];
    EncodeSplit(s[..k], j);
  }

  lemma NextCharacter(s: Text, next: nat, w: nat)
    requires next < |s| && !SplitsPair(s, next) && w == FirstWidth(s[next..])
    ensures next + w <= |s| && !SplitsPair(s, next + w)
    ensures Utf8Length(s[..next + w]) == Utf8Length(s[..next]) + Utf8Length(s[next..next + w])
    ensures s[..next + w] == s[..next] + s[next..next + w]
    ensures forall k :: next < k <= |s| && !SplitsPair(s, k) ==> next + w <= k
  {
    assert s[..next + w][..next] == s[..next];
    assert s[..next + w][next..] == s[next..next + w];
    EncodeSplit(s[..next + w], next);
  }

  datatype BoundedText = BoundedText(text: Text, originalBytes: nat, storedBytes: nat, truncated: bool)

  /** r keeps the longest prefix of value that fits in maxBytes and splits no surrogate pair. */
  ghost predicate IsBounded(value: Text, maxBytes: nat, r: BoundedText) {
    && r.text <= value
    && !SplitsPair(value, |r.text|)
    && r.originalBytes == Utf8Length(value)
    && r.storedBytes == Utf8Length(r.text) <= maxBytes
    && (r.truncated <==> Utf8Length(value) > maxBytes)
    && (forall k :: |r.text| < k <= |value| && !SplitsPair(value, k) ==> Utf8Length(value[..k]) > maxBytes)
  }

  /** boundUtf8Text */
  method BoundUtf8Text(value: Text, maxBytes: nat) returns (r: BoundedText)
    ensures IsBounded(value, maxBytes, r)
  {
    var originalBytes := Utf8Length(value);
    if originalBytes <= maxBytes {
      assert value[..|value|] == value;
      return BoundedText(value, originalBytes, originalBytes, false);
    }
    var storedBytes := 0;
    var text: Text := [];
    var next := 0;
    assert value[..|value|] == value;
    while next < |value|
      invariant next <= |value| && text == value[..next] && !SplitsPair(value, next)
      invariant storedBytes == Utf8Length(text) <= maxBytes
    {
      var w := FirstWidth(value[next..]);
      var character := value[next..next + w];
      NextCharacter(value, next, w);
      var characterBytes := Utf8Length(character);
      if storedBytes + characterBytes > maxBytes {
        forall k | next < k <= |value| && !SplitsPair(value, k)
          ensures Utf8Length(value[..k]) > maxBytes
        {
          Utf8LengthMonotone(value, next + w, k);
        }
        break;
      }
      text := text + character;
      storedBytes := storedBytes + characterBytes;
      next := next + w;
    }
    r := BoundedText(text, originalBytes, storedBytes, true);
  }

  /** The contract of BoundUtf8Text leaves it no choice. */
  lemma BoundedTextIsUnique(value: Text, maxBytes: nat, a: BoundedText, b: BoundedText)
    requires IsBounded(value, maxBytes, a) && IsBounded(value, maxBytes, b)
    ensures a == b
    ensures !a.truncated ==> a.text == value
  {
    assert a.text == value[..|a.text|] && b.text == value[..|b.text|];
    assert value[..|value|] == value;
  }
}
