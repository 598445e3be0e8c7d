/** The whole file: a table put in, put in again, and taken out. */
module TomlFile {
  import opened Prelude
  import opened TomlText
  import opened TomlTable

  /** text ready for a block after it: its last line ended, and a blank line below anything it says. */
  function Separated(text: string, crlf: bool): string {
    var out := if text != "" && !EndsWith(text, "\n") then text + Newline(crlf) else text;
    if Trim(out) != "" && !EndsWith(out, Newline(crlf) + Newline(crlf)) then out + Newline(crlf) else out
  }

  /** The file with the table replaced by block, or without it when block is empty; None when the table is
      defined some other way than by a header. */
  function ReplaceTable(read: Reading, text: string, block: seq<Line>): Option<string> {
    var lines, crlf := Lines(text), HasCrlf(text);
    if Refused(read, lines, START) then None
    else if !Present(read, lines, START) then
      Some(if block == [] then text else Separated(text, crlf) + Join(Converted(block, crlf)))
    else
      var out := Join(InPlace(read, lines, START, Converted(block, crlf)));
      if block != [] then Some(out)
      else if Trim(Collapsed(out, crlf)) == "" then Some("") else Some(Collapsed(out, crlf))
  }

  // ---------------------------------------------------------------- lines of a file made longer

  predicate AllEnded(lines: seq<Line>) {
    forall k :: 0 <= k < |lines| ==> OneLine(lines[k]) && Ended(lines[k])
  }

  lemma {:induction false} JoinEnds(lines: seq<Line>)
    requires Proper(lines) && lines != []
    ensures Join(lines) != "" && EndsWith(Join(lines), "\n") == Ended(lines[|lines| - 1])
  {
    if |lines| == 1 {
      assert Join(lines) == lines[0] + "" == lines[0];
    } else {
      JoinEnds(lines[1..]);
      assert Join(lines)[|Join(lines)| - 1] == Join(lines[1..])[|Join(lines[1..])| - 1];
    }
  }

  /** A text that ends its last line can be followed by anything. */
  lemma LinesAppend(a: seq<Line>, b: seq<Line>)
    requires AllEnded(a) && Proper(b)
    ensures Proper(a + b) && Lines(Join(a) + Join(b)) == a + b
  {
    JoinAppend(a, b);
    JoinThenSplit(a + b);
  }

  function LastEnded(lines: seq<Line>, nl: string): seq<Line> {
    if lines == [] || Ended(lines[|lines| - 1]) then lines
    else lines[..|lines| - 1] + [lines[|lines| - 1] + nl]
  }

  lemma OneLineEnded(l: Line, crlf: bool)
    requires OneLine(l) && !Ended(l)
    ensures OneLine(l + Newline(crlf)) && Ended(l + Newline(crlf))
  {
  }

  lemma JoinLast(lines: seq<Line>, last: Line)
    ensures Join(lines + [last]) == Join(lines) + last
  {
    JoinAppend(lines, [last]);
    assert Join([last]) == last + Join([]) == last;
  }

  lemma LastEndedJoins(lines: seq<Line>, crlf: bool)
    requires Proper(lines)
    ensures AllEnded(LastEnded(lines, Newline(crlf)))
    ensures Join(LastEnded(lines, Newline(crlf)))
            == if lines != [] && !EndsWith(Join(lines), "\n") then Join(lines) + Newline(crlf) else Join(lines)
  {
    hide OneLine, Join, Newline, EndsWith;
    if lines != [] {
      JoinEnds(lines);
      var n := |lines| - 1;
      if !Ended(lines[n]) {
        OneLineEnded(lines[n], crlf);
        assert lines == lines[..n] + [lines[n]];
        JoinLast(lines[..n], lines[n]);
        JoinLast(lines[..n], lines[n] + Newline(crlf));
        assert Join(lines[..n]) + (lines[n] + Newline(crlf)) == Join(lines) + Newline(crlf);
      }
    }
  }

  /** The lines of a text made ready for a block: its own, the last one ended, and perhaps a blank one. */
  lemma SeparatedLines(text: string, crlf: bool) returns (p: seq<Line>, blank: seq<Line>)
    ensures p == LastEnded(Lines(text), Newline(crlf)) && (blank == [] || blank == [Newline(crlf)])
    ensures AllEnded(p + blank) && Join(p + blank) == Separated(text, crlf)
  {
    hide Trim, Join, Lines, OneLine;
    SplitThenJoin(text);
    p := LastEnded(Lines(text), Newline(crlf));
    LastEndedJoins(Lines(text), crlf);
    NoText(text);
    var out := Join(p);
    if Trim(out) != "" && !EndsWith(out, Newline(crlf) + Newline(crlf)) {
      blank := [Newline(crlf)];
      JoinLast(p, Newline(crlf));
      BlankIsLine(crlf);
    } else {
      blank := [];
      assert p + blank == p;
    }
  }

  lemma NoText(text: string)
    ensures (Lines(text) == []) == (text == "")
  {
    SplitThenJoin(text);
  }

  lemma BlankIsLine(crlf: bool)
    ensures OneLine(Newline(crlf)) && Ended(Newline(crlf))
  {
  }

  // ---------------------------------------------------------------- reading lines of the same kinds

  lemma {:induction false} SameKinds(read: Reading, a: seq<Line>, b: seq<Line>, s: Scan)
    requires |a| == |b| && forall k :: 0 <= k < |a| ==> read(a[k]) == read(b[k])
    ensures After(read, a, s) == After(read, b, s) && Present(read, a, s) == Present(read, b, s)
    ensures Refused(read, a, s) == Refused(read, b, s) && Stays(read, a, s) == Stays(read, b, s)
    decreases |a|
  {
    if a != [] {
      SameKinds(read, a[1..], b[1..], Step(s, read(a[0])));
    }
  }

  lemma {:induction false} BlankAfter(read: Reading, p: seq<Line>, blank: Line, s: Scan)
    requires Understands(read) && read(blank).trivia && !s.ours && !Present(read, p, s) && !Refused(read, p, s)
    ensures After(read, p + [blank], s) == After(read, p, s)
    ensures !Present(read, p + [blank], s) && !Refused(read, p + [blank], s)
    decreases |p|
  {
    if p == [] {
      assert p + [blank] == [blank] && [blank][1..] == [] && Sensible(read(blank));
      TriviaChangesNothing(s, read(blank));
    } else {
      assert (p + [blank])[1..] == p[1..] + [blank];
      BlankAfter(read, p[1..], blank, Step(s, read(p[0])));
    }
  }

  /** A block after a file that has no such table is found there again. */
  lemma {:induction false} PutAtEnd(read: Reading, p: seq<Line>, s: Scan, block: seq<Line>)
    requires Understands(read) && Fits(read, block) && !s.ours
    requires !Present(read, p, s) && !Refused(read, p, s) && After(read, p, s).multi == Outside
    ensures var out := p + block;
            && Foreign(read, out, s) == p && Table(read, out, s) == block
            && Present(read, out, s) && InPlace(read, out, s, block) == out && !Refused(read, out, s)
    decreases |p|
  {
    hide Fits, Understands;
    if p == [] {
      assert p + block == block;
      BlockAlone(read, s, block);
    } else {
      assert (p + block)[1..] == p[1..] + block;
      PutAtEnd(read, p[1..], Step(s, read(p[0])), block);
    }
  }

  lemma BlockAlone(read: Reading, s: Scan, block: seq<Line>)
    requires Fits(read, block) && !s.ours && s.multi == Outside
    ensures Foreign(read, block, s) == [] && Table(read, block, s) == block
    ensures Present(read, block, s) && InPlace(read, block, s, block) == block && !Refused(read, block, s)
  {
    hide After, Foreign, Table, Refused;
    assert block + [] == block;
    FitsAnywhere(read, block, s);
    BlockIsTable(read, block, [], s);
    BlockIsNotRefused(read, block, [], s) by { NothingHere(read, After(read, block, s)); }
    NothingHere(read, After(read, block, s));
  }

  lemma NothingHere(read: Reading, s: Scan)
    ensures Foreign(read, [], s) == [] && Table(read, [], s) == [] && !Refused(read, [], s)
  {
  }

  lemma EndedReadsSame(read: Reading, lines: seq<Line>, crlf: bool)
    requires Understands(read) && Proper(lines)
    ensures var p := LastEnded(lines, Newline(crlf));
            && After(read, p, START) == After(read, lines, START)
            && Present(read, p, START) == Present(read, lines, START)
            && Refused(read, p, START) == Refused(read, lines, START)
  {
    SameKinds(read, LastEnded(lines, Newline(crlf)), lines, START);
  }

  // ---------------------------------------------------------------- line endings

  /** A block written with plain newlines fits a file of either line ending. */
  lemma ConvertedFits(read: Reading, block: seq<Line>, crlf: bool)
    requires Understands(read) && Fits(read, block)
    ensures Fits(read, Converted(block, crlf))
  {
    if crlf {
      var b := Converted(block, true);
      forall k | 0 <= k < |b| ensures read(b[k]) == read(block[k]) && OneLine(b[k]) && Ended(b[k]) {
        assert OneLine(block[k]) && Ended(block[k]);
        var body := block[k][..|block[k]| - 1];
        assert block[k] == body + "\n" && b[k] == body + "\r\n";
        assert read(body) == read(body + "\n") == read(body + "\r\n");
      }
      SameKinds(read, b, block, START);
    }
  }

  lemma ConvertedCrlf(block: seq<Line>, crlf: bool, k: nat)
    requires Proper(block) && block != [] && Ended(block[|block| - 1]) && k < |block|
    requires forall j :: 0 <= j < |block| ==> !CrlfLine(block[j])
    ensures CrlfLine(Converted(block, crlf)[k]) == crlf
  {
  }

  /** A file in which every line but the block's is one of the text's, or one of them ended, keeps the
      text's line ending. */
  lemma LineEndingStays(text: string, out: seq<Line>, block: seq<Line>, crlf: bool)
    requires crlf == HasCrlf(text) && Proper(out) && Converted(block, crlf) != []
    requires Proper(block) && Ended(block[|block| - 1]) && forall j :: 0 <= j < |block| ==> !CrlfLine(block[j])
    requires forall l :: l in Converted(block, crlf) ==> l in out
    requires !crlf ==> forall l :: l in out ==> l in Lines(text) || l in block || !CrlfLine(l)
    ensures HasCrlf(Join(out)) == crlf
  {
    SplitThenJoin(text);
    CrlfOnALine(Lines(text));
    CrlfOnALine(out);
    if crlf {
      ConvertedCrlf(block, crlf, 0);
      assert Converted(block, crlf)[0] in out;
    } else {
      forall k | 0 <= k < |out| ensures !CrlfLine(out[k]) {
        assert out[k] in out;
      }
    }
  }

  // ---------------------------------------------------------------- the results

  predicate PlainBlock(block: seq<Line>) {
    forall k :: 0 <= k < |block| ==> !CrlfLine(block[k])
  }

  /** Whether a block put at the end of text is read as a table there: the text ends outside a multi-line
      string, and the newline that ends its last line makes no line ending the text has not had. */
  predicate Appendable(read: Reading, text: string) {
    After(read, Lines(text), START).multi == Outside && (HasCrlf(text) || !EndsWith(text, "\r"))
  }

  lemma {:induction false} ForeignAreLines(read: Reading, lines: seq<Line>, s: Scan)
    requires Proper(lines)
    ensures Proper(Foreign(read, lines, s)) && forall l :: l in Foreign(read, lines, s) ==> l in lines
    ensures lines != [] && Ended(lines[|lines| - 1]) ==> AllEnded(Foreign(read, lines, s))
    decreases |lines|
  {
    if lines != [] {
      ForeignAreLines(read, lines[1..], Step(s, read(lines[0])));
      assert forall l :: l in lines[1..] ==> l in lines;
      if |lines| == 1 { assert Foreign(read, lines[1..], Step(s, read(lines[0]))) == []; }
    }
  }

  lemma {:induction false} InPlaceAreLines(read: Reading, lines: seq<Line>, s: Scan, block: seq<Line>)
    requires Proper(lines) && AllEnded(block) && Present(read, lines, s)
    ensures Proper(InPlace(read, lines, s, block))
    ensures forall l :: l in InPlace(read, lines, s, block) ==> l in lines || l in block
    ensures forall l :: l in block ==> l in InPlace(read, lines, s, block)
    decreases |lines|
  {
    var s' := Step(s, read(lines[0]));
    if s'.ours {
      ForeignAreLines(read, lines, s);
    } else {
      InPlaceAreLines(read, lines[1..], s', block);
      assert forall l :: l in lines[1..] ==> l in lines;
    }
  }

  lemma {:induction false} NothingInPlace(read: Reading, lines: seq<Line>, s: Scan)
    ensures InPlace(read, lines, s, []) == Foreign(read, lines, s)
    decreases |lines|
  {
    if lines != [] {
      NothingInPlace(read, lines[1..], Step(s, read(lines[0])));
    }
  }

  /** A table already there: its first part gives way to the block, its other parts go, every other line
      stays byte for byte and in order; a second time changes nothing; and taking the table out afterwards
      comes to the same as taking it out before. */
  lemma ReplacedWhereItWas(read: Reading, text: string, block: seq<Line>)
    requires Understands(read) && Fits(read, block) && PlainBlock(block)
    requires !Refused(read, Lines(text), START) && Present(read, Lines(text), START)
    ensures var r := ReplaceTable(read, text, block);
            && r.Some?
            && Table(read, Lines(r.value), START) == Converted(block, HasCrlf(text))
            && Foreign(read, Lines(r.value), START) == Foreign(read, Lines(text), START)
            && ReplaceTable(read, r.value, block) == r
            && ReplaceTable(read, r.value, []) == ReplaceTable(read, text, [])
  {
    hide Table, Foreign, InPlace, Present, Refused, Fits, Understands, HasCrlf, Collapsed, Trim, Join, Lines;
    var lines, crlf := Lines(text), HasCrlf(text);
    var b := Converted(block, crlf);
    SplitThenJoin(text);
    ConvertedFits(read, block, crlf);
    FitsIsEnded(read, block);
    FitsIsEnded(read, b);
    InPlaceAreLines(read, lines, START, b);
    var out := InPlace(read, lines, START, b);
    JoinThenSplit(out);
    PutInPlace(read, lines, START, b);
    PutInPlaceIsNotRefused(read, lines, START, b);
    assert !crlf ==> b == block;
    LineEndingStays(text, out, block, crlf);
    NothingInPlace(read, lines, START);
    NothingInPlace(read, out, START);
    assert Converted([], crlf) == [];
  }

  lemma FitsIsEnded(read: Reading, block: seq<Line>)
    requires Fits(read, block)
    ensures block != [] && AllEnded(block) && Proper(block)
  {
  }

  lemma {:induction false} LastChar(lines: seq<Line>)
    requires Proper(lines) && lines != []
    ensures Join(lines) != "" && Join(lines)[|Join(lines)| - 1] == lines[|lines| - 1][|lines[|lines| - 1]| - 1]
  {
    if |lines| == 1 {
      assert Join(lines) == lines[0] + "" == lines[0];
    } else {
      LastChar(lines[1..]);
    }
  }

  /** A file with no such table gets it at its end, found there. */
  lemma AtEnd(read: Reading, text: string, block: seq<Line>) returns (p: seq<Line>)
    requires Understands(read) && Fits(read, block)
    requires !Refused(read, Lines(text), START) && !Present(read, Lines(text), START)
    requires After(read, Lines(text), START).multi == Outside
    ensures var r, b := ReplaceTable(read, text, block), Converted(block, HasCrlf(text));
            && r.Some? && Lines(r.value) == p + b && Proper(p + b) && Fits(read, b)
            && p == Lines(Separated(text, HasCrlf(text))) && Join(p) == Separated(text, HasCrlf(text))
            && Foreign(read, p + b, START) == p && Table(read, p + b, START) == b
            && Present(read, p + b, START) && InPlace(read, p + b, START, b) == p + b && !Refused(read, p + b, START)
    ensures exists blank :: p == LastEnded(Lines(text), Newline(HasCrlf(text))) + blank
                            && (blank == [] || blank == [Newline(HasCrlf(text))])
  {
    hide Table, Foreign, InPlace, Present, Refused, Fits, HasCrlf, Trim, Join, Lines, After, Separated;
    var lines, crlf := Lines(text), HasCrlf(text);
    var b := Converted(block, crlf);
    SplitThenJoin(text);
    ConvertedFits(read, block, crlf);
    FitsIsEnded(read, b);
    FitsIsEnded(read, block);
    var ended, blank := SeparatedLines(text, crlf);
    p := ended + blank;
    EndedReadsSame(read, lines, crlf);
    if blank == [] {
      assert p == ended;
    } else {
      BlankAfter(read, ended, Newline(crlf), START);
    }
    PutAtEnd(read, p, START, b);
    LinesAppend(p, b);
    JoinThenSplit(p);
  }

  /** The line ending of a file with the block put at its end: the text's own, unless the newline that ends
      the text's last line meets a carriage return there. */
  lemma LineEndingAtEnd(text: string, p: seq<Line>, blank: seq<Line>, block: seq<Line>)
    requires PlainBlock(block) && AllEnded(block) && block != [] && (blank == [] || blank == [Newline(HasCrlf(text))])
    requires p == LastEnded(Lines(text), Newline(HasCrlf(text))) + blank && Proper(p + Converted(block, HasCrlf(text)))
    ensures HasCrlf(Join(p + Converted(block, HasCrlf(text)))) <==> HasCrlf(text) || EndsWith(text, "\r")
  {
    hide Lines, Join, HasCrlf, OneLine;
    var crlf := HasCrlf(text);
    var out := p + Converted(block, crlf);
    var lines := Lines(text);
    SplitThenJoin(text);
    CrlfOnALine(lines);
    CrlfOnALine(out);
    if crlf {
      ConvertedCrlf(block, crlf, 0);
      assert out[|p|] == Converted(block, crlf)[0];
    } else {
      PlainLines(lines);
      LoneReturn(text, lines);
      forall k: nat | k < |out| ensures CrlfLine(out[k]) <==> k == |lines| - 1 && EndsWith(text, "\r") {
        CrlfLineAtEnd(lines, blank, block, k);
      }
      if EndsWith(text, "\r") { assert CrlfLine(out[|lines| - 1]); }
    }
  }

  lemma CrlfLineAtEnd(lines: seq<Line>, blank: seq<Line>, block: seq<Line>, k: nat)
    requires PlainBlock(block) && (blank == [] || blank == ["\n"])
    requires forall j :: 0 <= j < |lines| ==> !CrlfLine(lines[j])
    requires k < |LastEnded(lines, "\n") + blank + block|
    ensures CrlfLine((LastEnded(lines, "\n") + blank + block)[k])
            <==> k == |lines| - 1 && CrlfLine(LastEnded(lines, "\n")[k])
  {
    var ended := LastEnded(lines, "\n");
    assert |ended| == |lines|;
    if k < |lines| - 1 {
      assert ended[k] == lines[k];
    }
  }

  lemma PlainLines(lines: seq<Line>)
    requires Proper(lines) && !HasCrlf(Join(lines))
    ensures forall k :: 0 <= k < |lines| ==> !CrlfLine(lines[k])
  {
    CrlfOnALine(lines);
  }

  lemma LoneReturn(text: string, lines: seq<Line>)
    requires Proper(lines) && Join(lines) == text && !HasCrlf(text)
    ensures EndsWith(text, "\r") <==> lines != [] && CrlfLine(LastEnded(lines, "\n")[|lines| - 1])
  {
    hide Join, HasCrlf, CrlfLine;
    PlainLines(lines);
    if lines != [] {
      LastChar(lines);
      assert OneLine(lines[|lines| - 1]);
      ReturnEnded(lines[|lines| - 1]);
    } else {
      NoLines();
    }
  }

  lemma NoLines()
    ensures Join([]) == ""
  {
  }

  lemma ReturnEnded(l: Line)
    requires l != "" && !CrlfLine(l)
    ensures !Ended(l) ==> (CrlfLine(l + "\n") <==> l[|l| - 1] == '\r')
  {
  }

  /** A table that was not there: the text stays as it is before the block, but for the line ends between
      them; and a second time changes nothing, exactly when no carriage return stands alone at the text's end. */
  lemma AddedAtTheEnd(read: Reading, text: string, block: seq<Line>)
    requires Understands(read) && Fits(read, block) && PlainBlock(block)
    requires !Refused(read, Lines(text), START) && !Present(read, Lines(text), START)
    requires After(read, Lines(text), START).multi == Outside
    ensures var r := ReplaceTable(read, text, block);
            && r.Some? && text <= r.value
            && Table(read, Lines(r.value), START) == Converted(block, HasCrlf(text))
            && Join(Foreign(read, Lines(r.value), START)) == Separated(text, HasCrlf(text))
            && (ReplaceTable(read, r.value, block) == r <==> HasCrlf(text) || !EndsWith(text, "\r"))
  {
    hide Table, Foreign, InPlace, Present, Refused, Fits, HasCrlf, Trim, Join, Lines, After, Understands, CrlfLine;
    var crlf := HasCrlf(text);
    var b := Converted(block, crlf);
    var p := AtEnd(read, text, block);
    FitsIsEnded(read, block);
    var r := ReplaceTable(read, text, block);
    SplitThenJoin(r.value);
    var blank :| p == LastEnded(Lines(text), Newline(crlf)) + blank && (blank == [] || blank == [Newline(crlf)]);
    LineEndingAtEnd(text, p, blank, block);
    var crlf2 := HasCrlf(r.value);
    if crlf2 != crlf {
      var b2 := Converted(block, true);
      ConvertedFits(read, block, true);
      FitsIsEnded(read, b2);
      InPlaceAreLines(read, p + b, START, b2);
      JoinThenSplit(InPlace(read, p + b, START, b2));
      PutInPlace(read, p + b, START, b2);
      DifferentEndings(block);
    }
  }

  lemma DifferentEndings(block: seq<Line>)
    requires PlainBlock(block) && AllEnded(block) && block != []
    ensures Converted(block, true) != block
  {
    ConvertedCrlf(block, true, 0);
  }

  /** Taking out a table put at a text's end leaves the text without its runs of blank lines. */
  lemma AddedThenRemoved(read: Reading, text: string, block: seq<Line>)
    requires Understands(read) && Fits(read, block) && PlainBlock(block)
    requires !Refused(read, Lines(text), START) && !Present(read, Lines(text), START) && Appendable(read, text)
    ensures var crlf, r := HasCrlf(text), ReplaceTable(read, text, block);
            var clean := Collapsed(Separated(text, crlf), crlf);
            r.Some? && ReplaceTable(read, r.value, []) == Some(if Trim(clean) == "" then "" else clean)
            && Content(clean) == Content(text)
  {
    hide Table, Foreign, InPlace, Present, Refused, Fits, HasCrlf, Trim, Join, Lines, After, Understands, CrlfLine;
    hide Collapsed;
    var crlf := HasCrlf(text);
    var p := AtEnd(read, text, block);
    FitsIsEnded(read, block);
    var r := ReplaceTable(read, text, block);
    SplitThenJoin(r.value);
    var blank :| p == LastEnded(Lines(text), Newline(crlf)) + blank && (blank == [] || blank == [Newline(crlf)]);
    LineEndingAtEnd(text, p, blank, block);
    NothingInPlace(read, p + Converted(block, crlf), START);
    assert Converted([], crlf) == [];
    CollapseRemovesOnlyBlanks(Separated(text, crlf), crlf);
    SeparatedContent(text, crlf);
  }

  lemma SeparatedContent(text: string, crlf: bool)
    ensures Content(Separated(text, crlf)) == Content(text) && text <= Separated(text, crlf)
  {
    hide Content, Trim;
    var out := if text != "" && !EndsWith(text, "\n") then text + Newline(crlf) else text;
    BlankContent(crlf);
    ContentAppend(text, Newline(crlf));
    ContentAppend(out, Newline(crlf));
  }
}
