/** Taking the table out of a person's file: what stays byte for byte, what blank lines go with it, and that
    nothing of the table is left. */
module TomlRemoval {
  import opened Prelude
  import opened TomlText
  import opened TomlTable
  import opened TomlFile

  /** out is lines without some of those equal to blank. */
  predicate Thinned(lines: seq<Line>, out: seq<Line>, blank: Line) {
    if lines == [] then out == []
    else
      || (out != [] && out[0] == lines[0] && Thinned(lines[1..], out[1..], blank))
      || (lines[0] == blank && Thinned(lines[1..], out, blank))
  }

  lemma {:induction false} ThinnedSame(lines: seq<Line>, blank: Line)
    ensures Thinned(lines, lines, blank)
  {
    if lines != [] {
      ThinnedSame(lines[1..], blank);
    }
  }

  lemma {:induction false} ThinnedTwice(a: seq<Line>, b: seq<Line>, c: seq<Line>, blank: Line)
    requires Thinned(a, b, blank) && Thinned(b, c, blank)
    ensures Thinned(a, c, blank)
    decreases |a|
  {
    if a == [] {
    } else if b != [] && b[0] == a[0] && Thinned(a[1..], b[1..], blank) {
      if c != [] && c[0] == b[0] && Thinned(b[1..], c[1..], blank) {
        ThinnedTwice(a[1..], b[1..], c[1..], blank);
      } else {
        ThinnedTwice(a[1..], b[1..], c, blank);
      }
    } else {
      ThinnedTwice(a[1..], b, c, blank);
    }
  }

  lemma {:induction false} ThinnedLast(lines: seq<Line>, blank: Line)
    ensures Thinned(lines + [blank], lines, blank)
  {
    if lines == [] {
      assert [blank][1..] == [];
    } else {
      assert (lines + [blank])[1..] == lines[1..] + [blank];
      ThinnedLast(lines[1..], blank);
    }
  }

  lemma ThinnedAfter(head: Line, a: seq<Line>, b: seq<Line>, blank: Line)
    requires Thinned(a, b, blank)
    ensures Thinned([head] + a, [head] + b, blank)
  {
    assert ([head] + a)[1..] == a && ([head] + b)[1..] == b;
  }

  // ---------------------------------------------------------------- collapsing drops blank lines only

  predicate NoLineEnd(pre: string) {
    forall i :: 0 <= i < |pre| ==> pre[i] != '\n'
  }

  lemma FirstLine(pre: string, crlf: bool, rest: string)
    requires NoLineEnd(pre)
    ensures Lines(pre + Newline(crlf) + rest) == [pre + Newline(crlf)] + Lines(rest)
  {
    JoinedFrom(pre + Newline(crlf), rest, 0);
  }

  /** pre is the part of a line read so far. */
  lemma {:induction false} ReplacedThins(pre: string, text: string, crlf: bool)
    requires NoLineEnd(pre)
    ensures var nl := Newline(crlf);
            Thinned(Lines(pre + text), Lines(pre + Replaced(text, nl + nl + nl, nl + nl)), nl)
    decreases |text|
  {
    hide Lines, Thinned, NoLineEnd;
    var nl := Newline(crlf);
    var triple := nl + nl + nl;
    if text == "" {
      ThinnedSame(Lines(pre + text), nl);
    } else if At(text, triple, 0) {
      var rest := text[|triple|..];
      NothingBefore(rest);
      NothingBefore(Replaced(rest, triple, nl + nl));
      ReplacedThins("", rest, crlf);
      TripleLines(pre, text, Replaced(rest, triple, nl + nl), crlf);
    } else {
      var rest := text[1..];
      var less := Replaced(rest, triple, nl + nl);
      if text[0] == '\n' {
        NothingBefore(rest);
        NothingBefore(less);
        ReplacedThins("", rest, crlf);
        LineEndRead(pre, text, less, nl);
      } else {
        PartRead(pre, text, less);
        ReplacedThins(pre + [text[0]], rest, crlf);
      }
    }
  }

  lemma NothingBefore(text: string)
    ensures "" + text == text && NoLineEnd("")
  {
  }

  lemma PartRead(pre: string, text: string, less: string)
    requires NoLineEnd(pre) && text != "" && text[0] != '\n'
    ensures NoLineEnd(pre + [text[0]])
    ensures pre + text == pre + [text[0]] + text[1..] && pre + ([text[0]] + less) == pre + [text[0]] + less
  {
  }

  lemma LineEndRead(pre: string, text: string, less: string, blank: Line)
    requires NoLineEnd(pre) && text != "" && text[0] == '\n' && Thinned(Lines(text[1..]), Lines(less), blank)
    ensures Thinned(Lines(pre + text), Lines(pre + ([text[0]] + less)), blank)
  {
    hide Lines, Thinned;
    FirstLine(pre, false, text[1..]);
    FirstLine(pre, false, less);
    assert pre + text == pre + "\n" + text[1..] && pre + ([text[0]] + less) == pre + "\n" + less;
    ThinnedAfter(pre + "\n", Lines(text[1..]), Lines(less), blank);
  }

  lemma TripleLines(pre: string, text: string, less: string, crlf: bool)
    requires var nl := Newline(crlf);
             && NoLineEnd(pre) && At(text, nl + nl + nl, 0) && Thinned(Lines(text[3 * |nl|..]), Lines(less), nl)
    ensures var nl := Newline(crlf); Thinned(Lines(pre + text), Lines(pre + (nl + nl + less)), nl)
  {
    hide Lines;
    var nl, rest := Newline(crlf), text[3 * |Newline(crlf)|..];
    assert text == text[..3 * |nl|] + rest == nl + nl + nl + rest;
    assert pre + text == pre + nl + (nl + (nl + rest)) && pre + (nl + nl + less) == pre + nl + (nl + less);
    FirstLine(pre, crlf, nl + (nl + rest));
    FirstLine(pre, crlf, nl + less);
    BlankFirst(crlf, nl + rest);
    BlankFirst(crlf, rest);
    BlankFirst(crlf, less);
    ThinnedAfter(nl, Lines(rest), Lines(less), nl);
    assert ([nl] + ([nl] + Lines(rest)))[1..] == [nl] + Lines(rest);
    assert Thinned([nl] + ([nl] + Lines(rest)), [nl] + Lines(less), nl);
    ThinnedAfter(pre + nl, [nl] + ([nl] + Lines(rest)), [nl] + Lines(less), nl);
  }

  lemma BlankFirst(crlf: bool, rest: string)
    ensures Lines(Newline(crlf) + rest) == [Newline(crlf)] + Lines(rest)
  {
    assert "" + Newline(crlf) == Newline(crlf);
    FirstLine("", crlf, rest);
  }

  lemma {:induction false} TriplesThin(text: string, crlf: bool)
    ensures Thinned(Lines(text), Lines(WithoutTriples(text, crlf)), Newline(crlf))
    decreases |text|
  {
    hide Lines, Contains, Replaced, Thinned;
    var nl := Newline(crlf);
    if Contains(text, nl + nl + nl) {
      var out := Replaced(text, nl + nl + nl, nl + nl);
      ReplacedIsShorter(text, nl + nl + nl, nl + nl);
      assert "" + text == text && "" + out == out;
      ReplacedThins("", text, crlf);
      TriplesThin(out, crlf);
      ThinnedTwice(Lines(text), Lines(out), Lines(WithoutTriples(out, crlf)), nl);
    } else {
      ThinnedSame(Lines(text), nl);
    }
  }

  lemma {:induction false} TailThins(text: string, crlf: bool)
    ensures Thinned(Lines(text), Lines(WithoutTail(text, crlf)), Newline(crlf))
    decreases |text|
  {
    hide Lines, Thinned;
    var nl := Newline(crlf);
    if EndsWith(text, nl + nl) {
      var shorter := text[..|text| - |nl|];
      BlankLast(text, crlf);
      ThinnedLast(Lines(shorter), nl);
      TailThins(shorter, crlf);
      ThinnedTwice(Lines(text), Lines(shorter), Lines(WithoutTail(shorter, crlf)), nl);
    } else {
      ThinnedSame(Lines(text), nl);
    }
  }

  lemma BlankLast(text: string, crlf: bool)
    requires EndsWith(text, Newline(crlf) + Newline(crlf))
    ensures Lines(text) == Lines(text[..|text| - |Newline(crlf)|]) + [Newline(crlf)]
  {
    hide Lines, Join;
    var nl := Newline(crlf);
    var shorter := text[..|text| - |nl|];
    var tail := text[|text| - |nl + nl|..];
    assert text[|text| - |nl|..] == tail[|nl|..] == nl;
    assert shorter[|shorter| - 1] == tail[|nl| - 1] == '\n';
    assert text == shorter + nl;
    SplitThenJoin(shorter);
    NoText(shorter);
    JoinEnds(Lines(shorter));
    AllAreEnded(Lines(shorter));
    BlankIsLine(crlf);
    JoinOne(nl);
    LinesAppend(Lines(shorter), [nl]);
  }

  lemma AllAreEnded(lines: seq<Line>)
    requires Proper(lines) && lines != [] && Ended(lines[|lines| - 1])
    ensures AllEnded(lines)
  {
  }

  lemma JoinOne(l: Line)
    ensures Join([l]) == l
  {
    assert Join([l]) == l + Join([]) == l;
  }

  lemma CollapsedThins(text: string, crlf: bool)
    ensures Thinned(Lines(text), Lines(Collapsed(text, crlf)), Newline(crlf))
  {
    hide Lines, Thinned, WithoutTriples, WithoutTail;
    TriplesThin(text, crlf);
    TailThins(WithoutTriples(text, crlf), crlf);
    ThinnedTwice(Lines(text), Lines(WithoutTriples(text, crlf)), Lines(Collapsed(text, crlf)), Newline(crlf));
  }

  // ---------------------------------------------------------------- white space

  predicate AllSpace(s: string) {
    forall i :: 0 <= i < |s| ==> IsSpace(s[i])
  }

  lemma SpaceOfBoth(a: string, b: string)
    ensures AllSpace(a + b) <==> AllSpace(a) && AllSpace(b)
  {
    if AllSpace(a + b) {
      forall i | 0 <= i < |a| ensures IsSpace(a[i]) { assert (a + b)[i] == a[i]; }
      forall i | 0 <= i < |b| ensures IsSpace(b[i]) { assert (a + b)[|a| + i] == b[i]; }
    }
  }

  lemma {:induction false} LeftTrimmed(s: string)
    ensures TrimLeft(s) == "" <==> AllSpace(s)
    ensures TrimLeft(s) != "" ==> !AllSpace(TrimLeft(s))
  {
    if s != "" && IsSpace(s[0]) {
      LeftTrimmed(s[1..]);
      SpaceOfBoth([s[0]], s[1..]);
      assert s == [s[0]] + s[1..];
    }
  }

  lemma {:induction false} RightTrimmed(s: string)
    ensures TrimRight(s) == "" <==> AllSpace(s)
  {
    if s != "" && IsSpace(s[|s| - 1]) {
      RightTrimmed(s[..|s| - 1]);
      SpaceOfBoth(s[..|s| - 1], [s[|s| - 1]]);
      assert s == s[..|s| - 1] + [s[|s| - 1]];
    }
  }

  lemma TrimmedAway(s: string)
    ensures Trim(s) == "" <==> AllSpace(s)
  {
    LeftTrimmed(s);
    RightTrimmed(TrimLeft(s));
  }

  lemma {:induction false} SpaceContent(s: string)
    ensures AllSpace(s) <==> AllSpace(Content(s))
  {
    if s != "" {
      SpaceContent(s[1..]);
      SpaceOfBoth([s[0]], s[1..]);
      assert s == [s[0]] + s[1..];
      SpaceOfBoth([s[0]], Content(s[1..]));
      assert IsSpace('\n') && IsSpace('\r');
      assert Content(s) == Content(s[1..]) || Content(s) == [s[0]] + Content(s[1..]);
    }
  }

  lemma CollapsedSpace(text: string, crlf: bool)
    ensures Trim(Collapsed(text, crlf)) == "" <==> Trim(text) == ""
  {
    hide Trim, AllSpace, Content;
    CollapseRemovesOnlyBlanks(text, crlf);
    TrimmedAway(text);
    TrimmedAway(Collapsed(text, crlf));
    SpaceContent(text);
    SpaceContent(Collapsed(text, crlf));
  }

  // ---------------------------------------------------------------- nothing of the table is left

  lemma {:induction false} ForeignIsAbsent(read: Reading, lines: seq<Line>, s: Scan, t: Scan)
    requires Understands(read) && Follows(s, t) && !t.ours
    ensures !Present(read, Foreign(read, lines, s), t)
    decreases |lines|
  {
    if lines != [] {
      var k := read(lines[0]);
      var s' := Step(s, k);
      var more := Foreign(read, lines[1..], s');
      assert Sensible(k);
      StepFollows(s, t, k);
      if Owned(read, lines, s) {
        assert Foreign(read, lines, s) == more;
        ForeignIsAbsent(read, lines[1..], s', t);
      } else {
        assert ([lines[0]] + more)[1..] == more;
        if s'.ours {
          TriviaChangesNothing(s, k);
          TriviaChangesNothing(t, k);
          ForeignIsAbsent(read, lines[1..], s', t);
        } else {
          ForeignIsAbsent(read, lines[1..], s', s');
        }
      }
    }
  }

  /** Leaving out lines that say nothing brings no table and no refusal in. */
  lemma {:induction false} ThinnedReads(read: Reading, a: seq<Line>, b: seq<Line>, blank: Line, s: Scan)
    requires Thinned(a, b, blank) && Sensible(read(blank)) && read(blank).trivia
    requires !Present(read, a, s) && !Refused(read, a, s)
    ensures !Present(read, b, s) && !Refused(read, b, s)
    decreases |a|
  {
    if a == [] {
    } else if b != [] && b[0] == a[0] && Thinned(a[1..], b[1..], blank) {
      ThinnedReads(read, a[1..], b[1..], blank, Step(s, read(a[0])));
    } else {
      TriviaChangesNothing(s, read(blank));
      ThinnedReads(read, a[1..], b, blank, s);
    }
  }

  lemma {:induction false} AbsentIsForeign(read: Reading, lines: seq<Line>, s: Scan)
    requires !Present(read, lines, s)
    ensures Table(read, lines, s) == [] && Foreign(read, lines, s) == lines
    decreases |lines|
  {
    if lines != [] {
      AbsentIsForeign(read, lines[1..], Step(s, read(lines[0])));
    }
  }

  // ---------------------------------------------------------------- the results

  /** What a removal leaves in the end. */
  lemma RemovalIsCollapse(read: Reading, text: string)
    requires !Refused(read, Lines(text), START) && Present(read, Lines(text), START)
    ensures var left := Join(Foreign(read, Lines(text), START));
            ReplaceTable(read, text, []) == Some(if Trim(left) == "" then "" else Collapsed(left, HasCrlf(text)))
  {
    hide Foreign, InPlace, Present, Refused, Trim, Join, Lines, Collapsed, HasCrlf;
    var crlf := HasCrlf(text);
    assert Converted([], crlf) == [];
    NothingInPlace(read, Lines(text), START);
    CollapsedSpace(Join(Foreign(read, Lines(text), START)), crlf);
  }

  /** Removal keeps all else byte for byte exactly when what is left has no run of three line ends, does not
      end in two, and is not white space alone. */
  lemma RemovalKeepsAllElse(read: Reading, text: string)
    requires !Refused(read, Lines(text), START) && Present(read, Lines(text), START)
    ensures var left, nl := Join(Foreign(read, Lines(text), START)), Newline(HasCrlf(text));
            ReplaceTable(read, text, []) == Some(left)
            <==> !Contains(left, nl + nl + nl) && !EndsWith(left, nl + nl) && (left == "" || Trim(left) != "")
  {
    hide Foreign, Present, Refused, Join, Lines, Collapsed, HasCrlf, Contains, ReplaceTable;
    var left, crlf := Join(Foreign(read, Lines(text), START)), HasCrlf(text);
    RemovalIsCollapse(read, text);
    CollapseRemovesOnlyBlanks(left, crlf);
    if left == "" {
      NothingContained(Newline(crlf) + Newline(crlf) + Newline(crlf));
    }
  }

  lemma NothingContained(part: string)
    requires part != ""
    ensures !Contains("", part)
  {
  }

  /** Always, the lines of the result are the lines outside the table, in order, with none but empty lines
      left out (all of them when they are white space alone); they hold no part of the table; and removing it
      again changes nothing. */
  lemma RemovalLeavesNoTable(read: Reading, text: string)
    requires Understands(read) && !Refused(read, Lines(text), START) && Present(read, Lines(text), START)
    ensures var r, rest := ReplaceTable(read, text, []), Foreign(read, Lines(text), START);
            && r.Some?
            && (if Trim(Join(rest)) == "" then r.value == ""
                else Thinned(rest, Lines(r.value), Newline(HasCrlf(text))))
            && Table(read, Lines(r.value), START) == [] && Foreign(read, Lines(r.value), START) == Lines(r.value)
            && ReplaceTable(read, r.value, []) == r
  {
    hide Foreign, Present, Refused, Join, Lines, Collapsed, HasCrlf, Trim, Table, Thinned, Understands;
    var lines, crlf := Lines(text), HasCrlf(text);
    var rest := Foreign(read, lines, START);
    var r := ReplaceTable(read, text, []);
    RemovalIsCollapse(read, text);
    SplitThenJoin(text);
    ForeignAreLines(read, lines, START);
    JoinThenSplit(rest);
    if Trim(Join(rest)) == "" {
      NoText("");
      assert Lines(r.value) == [];
      NothingRead(read, START);
    } else {
      CollapsedThins(Join(rest), crlf);
      ForeignIsAbsent(read, lines, START, START);
      ForeignIsNotRefused(read, lines, START, START);
      BlankIsTrivia(read, crlf);
      ThinnedReads(read, rest, Lines(r.value), Newline(crlf), START);
    }
    AbsentIsForeign(read, Lines(r.value), START);
  }

  lemma NothingRead(read: Reading, s: Scan)
    ensures !Present(read, [], s) && !Refused(read, [], s)
  {
  }

  lemma BlankIsTrivia(read: Reading, crlf: bool)
    requires Understands(read)
    ensures Sensible(read(Newline(crlf))) && read(Newline(crlf)).trivia
  {
  }

  // ---------------------------------------------------------------- a file it does not keep

  /** A line without its line ending. */
  function Bare(l: Line): Line {
    if l != "" && (l[|l| - 1] == '\n' || l[|l| - 1] == '\r') then Bare(l[..|l| - 1]) else l
  }

  /** As much of the reading as the file below needs. */
  function ReadExample(l: Line): Kind {
    var b := Bare(l);
    if b == "[mcp_servers.nodevas]" then Kind(Some(Ours), false, false, false, false, false)
    else if b == "[other]" then Kind(Some(Elsewhere), false, false, false, false, false)
    else if b == "text = \"\"\"" || b == "\"\"\"" then Kind(None, false, false, false, true, false)
    else Kind(None, false, false, b == "", false, false)
  }

  /** Our table, and another with two blank lines in a multi-line string. */
  const EXAMPLE: seq<Line> := [
    "[mcp_servers.nodevas]\n", "command = 1\n",
    "[other]\n", "text = \"\"\"\n", "\n", "\n", "last\n", "\"\"\"\n"
  ]

  lemma BareOfEnded(l: Line)
    ensures Bare(l + "\n") == Bare(l) && Bare(l + "\r") == Bare(l)
  {
    assert (l + "\n")[..|l|] == l && (l + "\r")[..|l|] == l;
  }

  lemma ExampleIsUnderstood()
    ensures Understands(ReadExample)
  {
    hide Bare;
    forall l ensures ReadExample(l) == ReadExample(l + "\n") == ReadExample(l + "\r\n") {
      BareOfEnded(l);
      BareOfEnded(l + "\r");
      assert l + "\r" + "\n" == l + "\r\n";
    }
    BlankBare();
  }

  lemma BlankBare()
    ensures Bare("\n") == "" && Bare("\r\n") == ""
  {
    BareOfEnded("");
    BareOfEnded("\r");
    assert "" + "\n" == "\n" && "" + "\r" == "\r" && "\r" + "\n" == "\r\n";
  }

  lemma ExampleTableLines()
    ensures OneLine(EXAMPLE[0]) && OneLine(EXAMPLE[1])
  {
  }

  lemma ExampleOtherLines()
    ensures OneLine(EXAMPLE[2]) && OneLine(EXAMPLE[3])
  {
  }

  lemma ExampleStringLines()
    ensures forall k :: 4 <= k < 8 ==> OneLine(EXAMPLE[k])
  {
  }

  lemma ExampleIsProper()
    ensures Proper(EXAMPLE)
  {
    hide OneLine;
    ExampleTableLines();
    ExampleOtherLines();
    ExampleStringLines();
  }

  lemma ExampleIsPlain()
    ensures PlainBlock(EXAMPLE)
  {
  }

  lemma ExampleLines()
    ensures Lines(Join(EXAMPLE)) == EXAMPLE && !HasCrlf(Join(EXAMPLE))
  {
    hide Lines, Join, HasCrlf, Proper, CrlfLine;
    ExampleIsProper();
    ExampleIsPlain();
    JoinThenSplit(EXAMPLE);
    CrlfOnALine(EXAMPLE);
  }

  lemma ExampleKinds()
    ensures ReadExample(EXAMPLE[0]) == Kind(Some(Ours), false, false, false, false, false)
    ensures ReadExample(EXAMPLE[1]) == Kind(None, false, false, false, false, false)
    ensures ReadExample(EXAMPLE[2]) == Kind(Some(Elsewhere), false, false, false, false, false)
    ensures ReadExample(EXAMPLE[3]) == Kind(None, false, false, false, true, false)
    ensures ReadExample(EXAMPLE[4]) == ReadExample(EXAMPLE[5]) == Kind(None, false, false, true, false, false)
    ensures ReadExample(EXAMPLE[6]) == Kind(None, false, false, false, false, false)
    ensures ReadExample(EXAMPLE[7]) == Kind(None, false, false, false, true, false)
  {
    forall k | 0 <= k < |EXAMPLE| ensures Bare(EXAMPLE[k]) == EXAMPLE[k][..|EXAMPLE[k]| - 1] {
      var body := EXAMPLE[k][..|EXAMPLE[k]| - 1];
      assert EXAMPLE[k] == body + "\n";
      BareOfEnded(body);
      assert body == "" || (body[|body| - 1] != '\n' && body[|body| - 1] != '\r');
    }
  }

  const IN_STRING := Scan(Elsewhere, false, InBasic)

  lemma ExampleString()
    ensures !Present(ReadExample, EXAMPLE[4..], IN_STRING) && !Refused(ReadExample, EXAMPLE[4..], IN_STRING)
  {
    hide ReadExample;
    ExampleKinds();
    var e := EXAMPLE;
    assert e[7..] == [e[7]] && e[7..][1..] == [];
    assert !Present(ReadExample, e[7..], IN_STRING) && !Refused(ReadExample, e[7..], IN_STRING);
    assert e[6..][1..] == e[7..] && e[5..][1..] == e[6..] && e[4..][1..] == e[5..];
    assert !Present(ReadExample, e[6..], IN_STRING) && !Refused(ReadExample, e[6..], IN_STRING);
    assert !Present(ReadExample, e[5..], IN_STRING) && !Refused(ReadExample, e[5..], IN_STRING);
  }

  const OURS := Scan(Ours, true, Outside)

  /** From where the other table opens nothing is ours. */
  lemma ExampleRest()
    ensures !Present(ReadExample, EXAMPLE[2..], OURS) && !Refused(ReadExample, EXAMPLE[2..], OURS)
  {
    hide ReadExample;
    ExampleKinds();
    ExampleString();
    var e, other := EXAMPLE, Scan(Elsewhere, false, Outside);
    assert e[3..][1..] == e[4..] && e[2..][1..] == e[3..];
    assert !Present(ReadExample, e[3..], other) && !Refused(ReadExample, e[3..], other);
  }

  lemma ExampleForeign()
    ensures !Refused(ReadExample, EXAMPLE, START) && Present(ReadExample, EXAMPLE, START)
    ensures Foreign(ReadExample, EXAMPLE, START) == EXAMPLE[2..]
  {
    hide ReadExample;
    ExampleKinds();
    ExampleRest();
    var e := EXAMPLE;
    AbsentIsForeign(ReadExample, e[2..], OURS);
    ForeignStep(ReadExample, e[1..], OURS);
    ForeignStep(ReadExample, e, START);
    assert e[1..][0] == e[1] && e[1..][1..] == e[2..];
  }

  lemma ForeignStep(read: Reading, lines: seq<Line>, s: Scan)
    requires lines != [] && Step(s, read(lines[0])).ours && !read(lines[0]).trivia
    ensures Foreign(read, lines, s) == Foreign(read, lines[1..], Step(s, read(lines[0])))
    ensures Present(read, lines, s)
    ensures !DefinesInline(s, read(lines[0])) && !Refused(read, lines[1..], Step(s, read(lines[0])))
            ==> !Refused(read, lines, s)
  {
  }

  lemma ExampleInString()
    ensures After(ReadExample, EXAMPLE[2..5], START) == IN_STRING
  {
    hide ReadExample;
    ExampleKinds();
    var e := EXAMPLE;
    assert e[2..5][1..] == [e[3], e[4]] && [e[3], e[4]][1..] == [e[4]] && [e[4]][1..] == [];
    assert After(ReadExample, [e[4]], IN_STRING) == IN_STRING;
    assert After(ReadExample, [e[3], e[4]], Scan(Elsewhere, false, Outside)) == IN_STRING;
  }

  function Twos(text: string): string {
    Replaced(text, "\n\n\n", "\n\n")
  }

  lemma {:induction false} ReplacedPast(a: string, rest: string)
    requires NoLineEnd(a)
    ensures Twos(a + rest) == a + Twos(rest)
  {
    if a == "" {
      assert a + rest == rest && "" + Twos(rest) == Twos(rest);
    } else {
      assert (a + rest)[1..] == a[1..] + rest;
      ReplacedPast(a[1..], rest);
      assert [a[0]] + (a[1..] + Twos(rest)) == a + Twos(rest);
    }
  }

  lemma RunOfThree(text: string)
    ensures At(text, "\n\n\n", 0) ==> |text| > 1 && text[1] == '\n'
  {
    if At(text, "\n\n\n", 0) {
      assert text[1] == text[0..3][1];
    }
  }

  lemma LoneLineEnd(rest: string)
    requires rest == "" || rest[0] != '\n'
    ensures Twos("\n" + rest) == "\n" + Twos(rest)
  {
    var text := "\n" + rest;
    assert text[1..] == rest;
    RunOfThree(text);
  }

  lemma LineKept(line: string, rest: string)
    requires NoLineEnd(line) && (rest == "" || rest[0] != '\n')
    ensures Twos(line + "\n" + rest) == line + "\n" + Twos(rest)
  {
    hide Twos;
    ReplacedPast(line, "\n" + rest);
    LoneLineEnd(rest);
    assert line + "\n" + rest == line + ("\n" + rest) && line + "\n" + Twos(rest) == line + ("\n" + Twos(rest));
  }

  const OPENING := "text = \"\"\""
  const LAST := "last\n\"\"\"\n"
  const SHORTER := "[other]\n" + OPENING + "\n\n" + LAST

  lemma LastKept()
    ensures Twos(LAST) == LAST
  {
    LineKept("\"\"\"", "");
    LineKept("last", "\"\"\"\n");
    assert "\"\"\"" + "\n" + "" == "\"\"\"\n" && "last" + "\n" + "\"\"\"\n" == LAST;
  }

  lemma JoinMore(l: Line, rest: seq<Line>)
    ensures Join([l] + rest) == l + Join(rest)
  {
    assert ([l] + rest)[1..] == rest;
  }

  lemma ExampleText()
    ensures Join(EXAMPLE[2..]) == "[other]\n" + OPENING + "\n\n\n" + LAST
    ensures Join(EXAMPLE[2..5] + EXAMPLE[6..]) == SHORTER
  {
    hide Join;
    var e := EXAMPLE;
    JoinOne(e[7]);
    JoinMore(e[6], [e[7]]);
    var last := [e[6]] + [e[7]];
    JoinMore("\n", last);
    JoinMore("\n", ["\n"] + last);
    JoinMore(e[3], ["\n"] + last);
    JoinMore(e[3], ["\n"] + (["\n"] + last));
    JoinMore(e[2], [e[3]] + (["\n"] + last));
    JoinMore(e[2], [e[3]] + (["\n"] + (["\n"] + last)));
    assert e[2..] == [e[2]] + ([e[3]] + (["\n"] + (["\n"] + last)));
    assert e[2..5] + e[6..] == [e[2]] + ([e[3]] + (["\n"] + last));
    assert Join(last) == LAST;
  }

  lemma OpeningKept(rest: string)
    ensures Twos("[other]\n" + OPENING + rest) == "[other]\n" + OPENING + Twos(rest)
  {
    hide Twos;
    LineKept("[other]", OPENING + rest);
    ReplacedPast(OPENING, rest);
    assert "[other]" + "\n" + (OPENING + rest) == "[other]\n" + OPENING + rest;
    assert "[other]" + "\n" + (OPENING + Twos(rest)) == "[other]\n" + OPENING + Twos(rest);
  }

  lemma NoRunOfThree(text: string)
    requires |text| > 2 && text[2] != '\n'
    ensures !At(text, "\n\n\n", 0)
  {
    assert text[0..3][2] == text[2];
  }

  lemma ThreeEndsShortened(rest: string)
    ensures Twos("\n\n\n" + rest) == "\n\n" + Twos(rest)
  {
    var three := "\n\n\n" + rest;
    assert three[0..3] == "\n\n\n" && three[3..] == rest;
  }

  lemma TwoEndsKept(rest: string)
    requires rest != "" && rest[0] != '\n'
    ensures Twos("\n\n" + rest) == "\n\n" + Twos(rest)
  {
    var two := "\n\n" + rest;
    NoRunOfThree(two);
    LoneLineEnd(rest);
    assert two[1..] == "\n" + rest && ['\n'] + ("\n" + Twos(rest)) == "\n\n" + Twos(rest);
  }

  lemma RunShortened()
    ensures Twos("\n\n\n" + LAST) == "\n\n" + LAST && Twos("\n\n" + LAST) == "\n\n" + LAST
  {
    hide Twos;
    LastKept();
    ThreeEndsShortened(LAST);
    TwoEndsKept(LAST);
  }

  lemma ShorterOrSame(text: string)
    ensures Contains(text, "\n\n\n") ==> |Twos(text)| < |text|
  {
    ReplacedIsShorter(text, "\n\n\n", "\n\n");
  }

  lemma CollapsedOnce(text: string, out: string)
    requires Contains(text, "\n\n\n") && Twos(text) == out && Twos(out) == out && !EndsWith(out, "\n\n")
    ensures Collapsed(text, false) == out
  {
    hide Contains;
    ShorterOrSame(text);
    ShorterOrSame(out);
    assert "\n" + "\n" + "\n" == "\n\n\n" && "\n" + "\n" == "\n\n";
    assert WithoutTriples(text, false) == WithoutTriples(out, false) == out;
  }

  lemma ExampleCollapsed()
    ensures var left := Join(EXAMPLE[2..]);
            && left != SHORTER && Collapsed(left, false) == SHORTER && Trim(left) != ""
  {
    hide Twos, Collapsed, Trim;
    ExampleText();
    RunShortened();
    var left := Join(EXAMPLE[2..]);
    var a := "[other]\n" + OPENING;
    OpeningKept("\n\n\n" + LAST);
    OpeningKept("\n\n" + LAST);
    assert left == a + ("\n\n\n" + LAST) && SHORTER == a + ("\n\n" + LAST);
    assert At(left, "\n\n\n", |a|);
    assert SHORTER[|SHORTER| - 2..][0] == LAST[|LAST| - 2] != '\n';
    CollapsedOnce(left, SHORTER);
    assert left[0] == '[' && !IsSpace('[');
    TrimmedAway(left);
  }

  /** A file whose other table loses a line of a multi-line string when ours is taken out. */
  lemma RemovalShortensAString()
    ensures var text, left := Join(EXAMPLE), EXAMPLE[2..];
            && Understands(ReadExample) && !Refused(ReadExample, Lines(text), START)
            && Present(ReadExample, Lines(text), START) && Foreign(ReadExample, Lines(text), START) == left
            && ReplaceTable(ReadExample, text, []) == Some(Join(left[..3] + left[4..])) != Some(Join(left))
            && After(ReadExample, left[..3], START).multi == InBasic
  {
    hide Foreign, Present, Refused, Join, Lines, Collapsed, HasCrlf, Trim, Understands, ReplaceTable, After;
    hide ReadExample;
    ExampleIsUnderstood();
    ExampleLines();
    ExampleForeign();
    ExampleText();
    ExampleCollapsed();
    RemovalIsCollapse(ReadExample, Join(EXAMPLE));
    assert EXAMPLE[2..][..3] + EXAMPLE[2..][4..] == EXAMPLE[2..5] + EXAMPLE[6..];
    ExampleInString();
    assert EXAMPLE[2..][..3] == EXAMPLE[2..5];
  }
}
