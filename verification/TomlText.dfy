/** A file as text and as its lines: splitting, joining, line endings, and runs of blank lines. */
module TomlText {
  import opened Prelude

  type Line = string

  /** The lines of text, each with its newline; the last one may have none. */
  function Lines(text: string): seq<Line> {
    if text == "" then [] else LinesFrom(text, 0)
  }

  function LinesFrom(text: string, i: nat): seq<Line>
    requires i < |text|
    decreases |text| - i
  {
    if i + 1 == |text| then [text]
    else if text[i] == '\n' then [text[..i + 1]] + LinesFrom(text[i + 1..], 0)
    else LinesFrom(text, i + 1)
  }

  function Join(lines: seq<Line>): string {
    if lines == [] then "" else lines[0] + Join(lines[1..])
  }

  predicate Ended(l: Line) {
    l != "" && l[|l| - 1] == '\n'
  }

  /** A newline ends a line and stands nowhere else in it. */
  predicate OneLine(l: Line) {
    l != "" && forall i :: 0 <= i < |l| - 1 ==> l[i] != '\n'
  }

  /** What a text can be split into: only the last line may lack its newline. */
  predicate Proper(lines: seq<Line>) {
    && (forall k :: 0 <= k < |lines| ==> OneLine(lines[k]))
    && (forall k :: 0 <= k < |lines| - 1 ==> Ended(lines[k]))
  }

  lemma {:induction false} LinesFromOneLine(text: string, i: nat)
    requires i < |text| && forall k :: 0 <= k < i ==> text[k] != '\n'
    ensures Join(LinesFrom(text, i)) == text && Proper(LinesFrom(text, i)) && LinesFrom(text, i) != []
    decreases |text| - i
  {
    if i + 1 == |text| {
      assert Join([text]) == text + Join([]);
    } else if text[i] == '\n' {
      var rest := LinesFrom(text[i + 1..], 0);
      LinesFromOneLine(text[i + 1..], 0);
      assert ([text[..i + 1]] + rest)[1..] == rest;
      assert text == text[..i + 1] + text[i + 1..];
    } else {
      LinesFromOneLine(text, i + 1);
    }
  }

  /** Splitting loses nothing. */
  lemma SplitThenJoin(text: string)
    ensures Join(Lines(text)) == text && Proper(Lines(text))
  {
    if text != "" {
      LinesFromOneLine(text, 0);
    }
  }

  lemma {:induction false} JoinedFrom(line: Line, rest: string, i: nat)
    requires OneLine(line) && Ended(line) && i < |line|
    ensures LinesFrom(line + rest, i) == [line] + Lines(rest)
    decreases |line| - i
  {
    var text := line + rest;
    if i + 1 < |line| {
      assert text[i] == line[i] != '\n';
      JoinedFrom(line, rest, i + 1);
    } else {
      assert text[i] == '\n';
      if rest == "" {
        assert text == line;
      } else {
        assert text[..i + 1] == line && text[i + 1..] == rest;
      }
    }
  }

  lemma {:induction false} LastFrom(line: Line, i: nat)
    requires OneLine(line) && i < |line|
    ensures LinesFrom(line, i) == [line]
    decreases |line| - i
  {
    if i + 1 < |line| {
      LastFrom(line, i + 1);
    }
  }

  /** And joining loses none of the lines. */
  lemma {:induction false} JoinThenSplit(lines: seq<Line>)
    requires Proper(lines)
    ensures Lines(Join(lines)) == lines
  {
    if lines == [] {
    } else if |lines| == 1 {
      assert Join(lines) == lines[0] + "" == lines[0];
      LastFrom(lines[0], 0);
    } else {
      JoinThenSplit(lines[1..]);
      JoinedFrom(lines[0], Join(lines[1..]), 0);
    }
  }

  lemma {:induction false} JoinAppend(a: seq<Line>, b: seq<Line>)
    ensures Join(a + b) == Join(a) + Join(b)
  {
    if a == [] {
      assert a + b == b;
    } else {
      assert (a + b)[1..] == a[1..] + b;
      JoinAppend(a[1..], b);
    }
  }

  // ---------------------------------------------------------------- line endings

  predicate CrlfAt(text: string, i: nat) {
    i + 1 < |text| && text[i] == '\r' && text[i + 1] == '\n'
  }

  predicate HasCrlf(text: string) {
    exists i :: 0 <= i < |text| && CrlfAt(text, i)
  }

  predicate CrlfLine(l: Line) {
    |l| >= 2 && l[|l| - 2] == '\r' && l[|l| - 1] == '\n'
  }

  /** A text's line ending shows on its lines. */
  lemma {:induction false} CrlfOnALine(lines: seq<Line>)
    requires Proper(lines)
    ensures HasCrlf(Join(lines)) <==> exists k :: 0 <= k < |lines| && CrlfLine(lines[k])
  {
    if lines != [] {
      var head, rest := lines[0], Join(lines[1..]);
      var text := head + rest;
      CrlfOnALine(lines[1..]);
      assert if |lines| > 1 then Ended(head) else rest == "";
      if HasCrlf(text) {
        var i :| 0 <= i < |text| && CrlfAt(text, i);
        if i + 1 < |head| {
          assert head[i + 1] == '\n';
          assert CrlfLine(lines[0]);
        } else if i < |head| {
          assert false;
        } else {
          assert CrlfAt(rest, i - |head|);
          var k :| 0 <= k < |lines| - 1 && CrlfLine(lines[1..][k]);
          assert CrlfLine(lines[k + 1]);
        }
      }
      if k :| 0 <= k < |lines| && CrlfLine(lines[k]) {
        if k == 0 {
          assert CrlfAt(text, |head| - 2);
        } else {
          assert CrlfLine(lines[1..][k - 1]);
          var i :| 0 <= i < |rest| && CrlfAt(rest, i);
          assert CrlfAt(text, |head| + i);
        }
      }
    }
  }

  function Newline(crlf: bool): string {
    if crlf then "\r\n" else "\n"
  }

  /** A line of a block, with the file's line ending. */
  function Converted(block: seq<Line>, crlf: bool): seq<Line> {
    if crlf then
      seq(|block|, k requires 0 <= k < |block| =>
        if Ended(block[k]) then block[k][..|block[k]| - 1] + "\r\n" else block[k])
    else block
  }

  // ---------------------------------------------------------------- runs of blank lines

  predicate At(text: string, part: string, i: nat) {
    i + |part| <= |text| && text[i..i + |part|] == part
  }

  predicate Contains(text: string, part: string) {
    exists i :: 0 <= i <= |text| && At(text, part, i)
  }

  predicate EndsWith(text: string, part: string) {
    |part| <= |text| && text[|text| - |part|..] == part
  }

  /** Every part, from the left and without overlaps, replaced by other. */
  function Replaced(text: string, part: string, other: string): string
    requires part != ""
  {
    if text == "" then ""
    else if At(text, part, 0) then other + Replaced(text[|part|..], part, other)
    else [text[0]] + Replaced(text[1..], part, other)
  }

  lemma {:induction false} ReplacedIsShorter(text: string, part: string, other: string)
    requires |other| < |part|
    ensures |Replaced(text, part, other)| <= |text|
    ensures Contains(text, part) ==> |Replaced(text, part, other)| < |text|
  {
    if text == "" {
    } else if At(text, part, 0) {
      ReplacedIsShorter(text[|part|..], part, other);
    } else {
      ReplacedIsShorter(text[1..], part, other);
      if i :| 0 <= i <= |text| && At(text, part, i) {
        assert At(text[1..], part, i - 1);
      }
    }
  }

  /** What is left of a text when its line ends are left out: blank lines hold nothing else. */
  function Content(text: string): string {
    if text == "" then "" else (if text[0] == '\n' || text[0] == '\r' then "" else [text[0]]) + Content(text[1..])
  }

  lemma {:induction false} ContentAppend(a: string, b: string)
    ensures Content(a + b) == Content(a) + Content(b)
  {
    if a == "" {
      assert a + b == b;
    } else {
      assert (a + b)[1..] == a[1..] + b;
      ContentAppend(a[1..], b);
    }
  }

  lemma {:induction false} ReplacedKeepsContent(text: string, part: string, other: string)
    requires part != "" && Content(part) == Content(other) == ""
    ensures Content(Replaced(text, part, other)) == Content(text)
  {
    if text == "" {
    } else if At(text, part, 0) {
      ReplacedKeepsContent(text[|part|..], part, other);
      ContentAppend(other, Replaced(text[|part|..], part, other));
      ContentAppend(part, text[|part|..]);
      assert text == part + text[|part|..];
    } else {
      ReplacedKeepsContent(text[1..], part, other);
      var rest := Replaced(text[1..], part, other);
      assert ([text[0]] + rest)[1..] == rest;
    }
  }

  function WithoutTriples(text: string, crlf: bool): string
    decreases |text|
  {
    var nl := Newline(crlf);
    if Contains(text, nl + nl + nl) then
      ReplacedIsShorter(text, nl + nl + nl, nl + nl);
      WithoutTriples(Replaced(text, nl + nl + nl, nl + nl), crlf)
    else text
  }

  function WithoutTail(text: string, crlf: bool): string
    decreases |text|
  {
    if EndsWith(text, Newline(crlf) + Newline(crlf)) then WithoutTail(text[..|text| - |Newline(crlf)|], crlf) else text
  }

  function Collapsed(text: string, crlf: bool): string {
    WithoutTail(WithoutTriples(text, crlf), crlf)
  }

  /** Three line ends in a row become two until there are none, and two at the end of the file one. */
  method CollapseBlankRuns(text: string, crlf: bool) returns (out: string)
    ensures out == Collapsed(text, crlf)
  {
    var nl := Newline(crlf);
    var triple := nl + nl + nl;
    out := text;
    while Contains(out, triple)
      invariant WithoutTriples(out, crlf) == WithoutTriples(text, crlf)
      decreases |out|
    {
      ReplacedIsShorter(out, triple, nl + nl);
      out := Replaced(out, triple, nl + nl);
    }
    while EndsWith(out, nl + nl)
      invariant WithoutTail(out, crlf) == Collapsed(text, crlf)
      decreases |out|
    {
      out := out[..|out| - |nl|];
    }
  }

  lemma {:induction false} TriplesGo(text: string, crlf: bool)
    ensures var nl := Newline(crlf); !Contains(WithoutTriples(text, crlf), nl + nl + nl)
    ensures Content(WithoutTriples(text, crlf)) == Content(text)
    decreases |text|
  {
    hide Contains, Content, Replaced;
    var nl := Newline(crlf);
    if Contains(text, nl + nl + nl) {
      ReplacedIsShorter(text, nl + nl + nl, nl + nl);
      BlankContent(crlf);
      ReplacedKeepsContent(text, nl + nl + nl, nl + nl);
      TriplesGo(Replaced(text, nl + nl + nl, nl + nl), crlf);
    }
  }

  lemma {:induction false} TailGoes(text: string, crlf: bool, part: string)
    requires !Contains(text, part)
    ensures !EndsWith(WithoutTail(text, crlf), Newline(crlf) + Newline(crlf))
    ensures !Contains(WithoutTail(text, crlf), part)
    ensures Content(WithoutTail(text, crlf)) == Content(text)
    decreases |text|
  {
    hide Contains, Content;
    var nl := Newline(crlf);
    if EndsWith(text, nl + nl) {
      var shorter := text[..|text| - |nl|];
      assert text == shorter + nl by { assert text[|text| - |nl|..] == (nl + nl)[|nl|..] == nl; }
      BlankContent(crlf);
      ContentAppend(shorter, nl);
      PrefixContains(shorter, nl, part);
      TailGoes(shorter, crlf, part);
    }
  }

  /** What is left has no run of three line ends and does not end in two; nothing but line ends is gone;
      and a text that had neither is left as it was. */
  lemma CollapseRemovesOnlyBlanks(text: string, crlf: bool)
    ensures var nl, out := Newline(crlf), Collapsed(text, crlf);
            && !Contains(out, nl + nl + nl) && !EndsWith(out, nl + nl) && Content(out) == Content(text)
            && (!Contains(text, nl + nl + nl) && !EndsWith(text, nl + nl) <==> out == text)
            && Collapsed(out, crlf) == out
  {
    hide Contains, Content;
    var nl := Newline(crlf);
    TriplesGo(text, crlf);
    TailGoes(WithoutTriples(text, crlf), crlf, nl + nl + nl);
  }

  lemma BlankContent(crlf: bool)
    ensures var nl := Newline(crlf); Content(nl) == "" && Content(nl + nl) == "" && Content(nl + nl + nl) == ""
  {
    var nl := Newline(crlf);
    assert Content("\r\n") == Content("\n") by { assert "\r\n"[1..] == "\n"; }
    assert Content("\n") == "" + Content("\n"[1..]);
    ContentAppend(nl, nl);
    ContentAppend(nl + nl, nl);
  }

  lemma PrefixContains(a: string, b: string, part: string)
    ensures Contains(a, part) ==> Contains(a + b, part)
  {
    if i :| 0 <= i <= |a| && At(a, part, i) {
      assert (a + b)[i..i + |part|] == a[i..i + |part|];
      assert At(a + b, part, i);
    }
  }
}
