/**
 The replay command printed by `toCurl`, and a lexer for the quoting rules of the POSIX Shell Command
 Language (sections 2.2.1 to 2.2.3) that reads the arguments back.
 */
module ShellCommand {
  import opened Prelude

  // ----- the printer -----

  datatype Request = Request(
    method_: string,
    url: string,
    headers: seq<(string, string)>,
    body: Option<string>)

  datatype Replay = Command(text: string) | RefusedMutation

  /** value.replaceAll("'", `'"'"'`) */
  function ReplaceQuotes(value: string): string {
    if value == "" then ""
    else (if value[0] == '\'' then "'\"'\"'" else [value[0]]) + ReplaceQuotes(value[1..])
  }

  function ShellEscape(value: string): string {
    "'" + ReplaceQuotes(value) + "'"
  }

  /** parts.join(" ") */
  function Join(parts: seq<string>): string {
    if parts == [] then ""
    else if |parts| == 1 then parts[0]
    else parts[0] + " " + Join(parts[1..])
  }

  function HeaderLine(header: (string, string)): string {
    header.0 + ": " + header.1
  }

  /** The argument list that replaying the request means. */
  function Arguments(request: Request): seq<string> {
    ["curl", "-X", request.method_, request.url]
    + HeaderArguments(request.headers)
    + if request.body.Some? then ["--data-raw", request.body.value] else []
  }

  function HeaderArguments(headers: seq<(string, string)>): seq<string> {
    if headers == [] then [] else HeaderArguments(headers[..|headers| - 1]) + ["-H", HeaderLine(headers[|headers| - 1])]
  }

  /** The arguments by position: method, URL, one -H with its line for every header in order, and the body. */
  lemma ArgumentsMean(request: Request, i: nat)
    ensures var (arguments, n) := (Arguments(request), |request.headers|);
      && |arguments| == 4 + 2 * n + (if request.body.Some? then 2 else 0)
      && arguments[..4] == ["curl", "-X", request.method_, request.url]
      && (i < n ==>
            && arguments[4 + 2 * i] == "-H"
            && arguments[5 + 2 * i] == request.headers[i].0 + ": " + request.headers[i].1)
      && (request.body.Some? ==> arguments[4 + 2 * n..] == ["--data-raw", request.body.value])
  {
    HeaderArgumentsMean(request.headers, i);
  }

  lemma {:induction false} HeaderArgumentsMean(headers: seq<(string, string)>, i: nat)
    ensures |HeaderArguments(headers)| == 2 * |headers|
    ensures i < |headers| ==>
      && HeaderArguments(headers)[2 * i] == "-H"
      && HeaderArguments(headers)[2 * i + 1] == headers[i].0 + ": " + headers[i].1
  {
    if headers != [] { HeaderArgumentsMean(headers[..|headers| - 1], i); }
  }

  /** toCurl; `mutating` is what isMutationMethod says of the request method. */
  method ToCurl(request: Request, mutating: bool, reviewMutation: bool) returns (replay: Replay)
    ensures replay.RefusedMutation? <==> mutating && !reviewMutation
    ensures replay.Command? ==> Lex(replay.text) == Some(Arguments(request))
  {
    if mutating && !reviewMutation {
      return RefusedMutation;
    }
    var parts := ["curl", "-X", ShellEscape(request.method_), ShellEscape(request.url)];
    PlainPart("curl");
    PlainPart("-X");
    QuotedPart(request.method_);
    QuotedPart(request.url);
    ghost var fixed := ["curl", "-X", request.method_, request.url];
    for i := 0 to |request.headers|
      invariant parts != []
      invariant PartsMean(parts, fixed + HeaderArguments(request.headers[..i]))
    {
      var line := HeaderLine(request.headers[i]);
      OptionMeans(parts, fixed + HeaderArguments(request.headers[..i]), "-H", line);
      parts := parts + ["-H", ShellEscape(line)];
      assert request.headers[..i + 1][..i] == request.headers[..i];
      assert fixed + HeaderArguments(request.headers[..i + 1])
          == fixed + HeaderArguments(request.headers[..i]) + ["-H", line];
    }
    assert request.headers[..|request.headers|] == request.headers;
    if request.body.Some? {
      OptionMeans(parts, fixed + HeaderArguments(request.headers), "--data-raw", request.body.value);
      parts := parts + ["--data-raw", ShellEscape(request.body.value)];
    }
    LexJoined(parts, Arguments(request), []);
    assert [] + Arguments(request) == Arguments(request);
    replay := Command(Join(parts));
  }

  // ----- the lexer -----

  datatype Mode = Blank | Word | Single | Double

  predicate IsBlank(c: char) { c == ' ' || c == '\t' }

  /** Characters that stand for themselves outside quotes wherever they occur in a word. */
  predicate IsPlain(c: char) {
    'a' <= c <= 'z' || 'A' <= c <= 'Z' || '0' <= c <= '9' || c in "-_./:,@+"
  }

  /** Inside double quotes a backslash escapes only these. */
  predicate IsEscapable(c: char) { c in "$`\"\\\n" }

  /**
   Splits text into words and removes quotes. Unterminated quotes, expansions, operators and every
   other unquoted character with a meaning of its own give None: the text is not a literal command.
   */
  function LexFrom(text: string, mode: Mode, word: string, words: seq<string>): Option<seq<string>> {
    if text == "" then
      match mode
      case Blank => Some(words)
      case Word => Some(words + [word])
      case _ => None
    else
      var c, rest := text[0], text[1..];
      match mode
      case Single =>
        if c == '\'' then LexFrom(rest, Word, word, words) else LexFrom(rest, Single, word + [c], words)
      case Double =>
        if c == '"' then LexFrom(rest, Word, word, words)
        else if c == '\\' && rest != "" && IsEscapable(rest[0]) then
          LexFrom(rest[1..], Double, if rest[0] == '\n' then word else word + [rest[0]], words)
        else if c == '$' || c == '`' then None
        else LexFrom(rest, Double, word + [c], words)
      case _ =>
        if IsBlank(c) then LexFrom(rest, Blank, "", if mode == Word then words + [word] else words)
        else if c == '\'' then LexFrom(rest, Single, word, words)
        else if c == '"' then LexFrom(rest, Double, word, words)
        else if c == '\\' && rest != "" && rest[0] != '\n' then LexFrom(rest[1..], Word, word + [rest[0]], words)
        else if IsPlain(c) then LexFrom(rest, Word, word + [c], words)
        else None
  }

  function Lex(text: string): Option<seq<string>> { LexFrom(text, Blank, "", []) }

  // ----- the lexer inverts the printer -----

  /** Whatever follows it, the printed part is read as exactly this word. */
  ghost predicate PartMeans(part: string, meaning: string) {
    forall rest: string, words: seq<string> ::
      LexFrom(part + rest, Blank, "", words) == LexFrom(rest, Word, meaning, words)
  }

  ghost predicate PartsMean(parts: seq<string>, meanings: seq<string>) {
    |parts| == |meanings| && forall i :: 0 <= i < |parts| ==> PartMeans(parts[i], meanings[i])
  }

  lemma {:induction false} PlainLexes(part: string, rest: string, mode: Mode, word: string, words: seq<string>)
    requires mode == Word || (mode == Blank && part != "")
    requires forall i :: 0 <= i < |part| ==> IsPlain(part[i])
    ensures LexFrom(part + rest, mode, word, words) == LexFrom(rest, Word, word + part, words)
  {
    if part == "" {
      assert part + rest == rest && word + part == word;
    } else {
      assert (part + rest)[1..] == part[1..] + rest;
      PlainLexes(part[1..], rest, Word, word + [part[0]], words);
      assert word + [part[0]] + part[1..] == word + part;
    }
  }

  lemma PlainPart(part: string)
    requires part != "" && forall i :: 0 <= i < |part| ==> IsPlain(part[i])
    ensures PartMeans(part, part)
  {
    forall rest: string, words: seq<string>
      ensures LexFrom(part + rest, Blank, "", words) == LexFrom(rest, Word, part, words)
    {
      PlainLexes(part, rest, Blank, "", words);
      assert "" + part == part;
    }
  }

  /** From inside single quotes, the escaped text is read back and the quote is closed. */
  lemma {:induction false} QuotedLexes(value: string, rest: string, word: string, words: seq<string>)
    ensures LexFrom(ReplaceQuotes(value) + "'" + rest, Single, word, words) == LexFrom(rest, Word, word + value, words)
  {
    if value == "" {
      assert ReplaceQuotes(value) + "'" + rest == "'" + rest;
      assert word + value == word;
    } else {
      var tail := ReplaceQuotes(value[1..]) + "'" + rest;
      assert word + [value[0]] + value[1..] == word + value;
      if value[0] == '\'' {
        QuoteLexes(tail, word, words);
        assert ReplaceQuotes(value) + "'" + rest == "'\"'\"'" + tail;
      } else {
        assert ReplaceQuotes(value) + "'" + rest == [value[0]] + tail;
        assert ([value[0]] + tail)[1..] == tail;
      }
      QuotedLexes(value[1..], rest, word + [value[0]], words);
    }
  }

  /** '"'"' inside single quotes: close, a double-quoted quote, open again. */
  lemma QuoteLexes(tail: string, word: string, words: seq<string>)
    ensures LexFrom("'\"'\"'" + tail, Single, word, words) == LexFrom(tail, Single, word + ['\''], words)
  {
    var t0 := "'\"'\"'" + tail;
    var t1 := "\"'\"'" + tail;
    var t2 := "'\"'" + tail;
    var t3 := "\"'" + tail;
    var t4 := "'" + tail;
    assert t0[1..] == t1 && t1[1..] == t2 && t2[1..] == t3 && t3[1..] == t4 && t4[1..] == tail;
    assert LexFrom(t0, Single, word, words) == LexFrom(t1, Word, word, words);
    assert LexFrom(t1, Word, word, words) == LexFrom(t2, Double, word, words);
    assert LexFrom(t2, Double, word, words) == LexFrom(t3, Double, word + ['\''], words);
    assert LexFrom(t3, Double, word + ['\''], words) == LexFrom(t4, Word, word + ['\''], words);
  }

  lemma QuotedPart(value: string)
    ensures PartMeans(ShellEscape(value), value)
  {
    forall rest: string, words: seq<string>
      ensures LexFrom(ShellEscape(value) + rest, Blank, "", words) == LexFrom(rest, Word, value, words)
    {
      var tail := ReplaceQuotes(value) + "'" + rest;
      assert ShellEscape(value) + rest == "'" + tail;
      assert ("'" + tail)[1..] == tail;
      QuotedLexes(value, rest, "", words);
      assert "" + value == value;
    }
  }

  lemma OptionMeans(parts: seq<string>, meanings: seq<string>, option: string, value: string)
    requires PartsMean(parts, meanings)
    requires option != "" && forall i :: 0 <= i < |option| ==> IsPlain(option[i])
    ensures PartsMean(parts + [option, ShellEscape(value)], meanings + [option, value])
  {
    PlainPart(option);
    QuotedPart(value);
  }

  lemma {:induction false} LexJoined(parts: seq<string>, meanings: seq<string>, words: seq<string>)
    requires parts != [] && PartsMean(parts, meanings)
    ensures LexFrom(Join(parts), Blank, "", words) == Some(words + meanings)
    decreases |parts|
  {
    assert PartMeans(parts[0], meanings[0]);
    if |parts| == 1 {
      assert parts[0] + "" == parts[0];
      assert [meanings[0]] == meanings;
    } else {
      var tail := Join(parts[1..]);
      assert Join(parts) == parts[0] + (" " + tail);
      assert (" " + tail)[1..] == tail;
      assert LexFrom(Join(parts), Blank, "", words) == LexFrom(" " + tail, Word, meanings[0], words);
      LexJoined(parts[1..], meanings[1..], words + [meanings[0]]);
      assert words + [meanings[0]] + meanings[1..] == words + meanings;
    }
  }
}
