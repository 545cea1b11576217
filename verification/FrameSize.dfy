/**
 The size that the screencast engine counts for a frame: computed from the length and the padding of
 the base64 text alone, without decoding it.
 */
module FrameSize {
  import opened Prelude
  import opened Utf8

  /** value.replace(/\s/gu, "") */
  function StripSpace(s: string): string {
    if s == "" then "" else (if IsSpace(s[0]) then "" else [s[0]]) + StripSpace(s[1..])
  }

  function Padding(s: string): nat {
    if |s| >= 2 && s[|s| - 2] == '=' && s[|s| - 1] == '=' then 2
    else if |s| >= 1 && s[|s| - 1] == '=' then 1
    else 0
  }

  /** base64DecodedByteLength */
  function DecodedByteLength(value: string): nat {
    FrameBytes(|StripSpace(value)|, Padding(StripSpace(value)))
  }

  function FrameBytes(length: nat, padding: nat): nat {
    Max(0, length * 3 / 4 - padding)
  }

  /** The base64 alphabet, table 1 in section 4 of RFC 4648. */
  function Digit(v: int): (c: char)
    requires 0 <= v < 64
    ensures c != '='
  {
    if v < 26 then ('A' as int + v) as char
    else if v < 52 then ('a' as int + (v - 26)) as char
    else if v < 62 then ('0' as int + (v - 52)) as char
    else if v == 62 then '+' else '/'
  }

  /** Encoding with padding, section 4 of RFC 4648. */
  function Base64(bytes: seq<Byte>): string {
    if |bytes| == 0 then ""
    else if |bytes| == 1 then
      [Digit(bytes[0] / 4), Digit(bytes[0] % 4 * 16), '=', '=']
    else if |bytes| == 2 then
      [Digit(bytes[0] / 4), Digit(bytes[0] % 4 * 16 + bytes[1] / 16), Digit(bytes[1] % 16 * 4), '=']
    else
      [Digit(bytes[0] / 4), Digit(bytes[0] % 4 * 16 + bytes[1] / 16),
       Digit(bytes[1] % 16 * 4 + bytes[2] / 64), Digit(bytes[2] % 64)]
      + Base64(bytes[3..])
  }

  /** An encoding consists of groups of four characters, each standing for three bytes less the padding. */
  lemma {:induction false} Base64Shape(bytes: seq<Byte>) returns (groups: nat)
    ensures |Base64(bytes)| == 4 * groups
    ensures |bytes| == 3 * groups - Padding(Base64(bytes))
  {
    groups := 0;
    if |bytes| > 3 {
      var rest := Base64Shape(bytes[3..]);
      groups := rest + 1;
      assert Padding(Base64(bytes)) == Padding(Base64(bytes[3..]));
    } else if |bytes| > 0 {
      groups := 1;
      if |bytes| == 3 { assert Base64(bytes[3..]) == ""; }
    }
  }

  /** However white space is spread over an encoding, the computed size is the number of encoded bytes. */
  lemma DecodedByteLengthIsExact(value: string, bytes: seq<Byte>)
    requires StripSpace(value) == Base64(bytes)
    ensures DecodedByteLength(value) == |bytes|
  {
    var groups := Base64Shape(bytes);
    assert 4 * groups * 3 / 4 == 3 * groups;
  }
}
