/** A file that ends its lines in CRLF still does once its table is replaced, appended or taken out. */
module TomlEndings {
  import opened Prelude
  import opened TomlText
  import opened TomlTable
  import opened TomlFile
  import opened TomlRemoval

  /** No newline without a carriage return before it. */
  predicate AllCrlf(text: string) {
    forall i :: 0 <= i < |text| && text[i] == '\n' ==> i > 0 && text[i - 1] == '\r'
  }

  lemma CrlfAppend(a: string, b: string)
    requires AllCrlf(a) && AllCrlf(b)
    ensures AllCrlf(a + b)
  {
    forall i | 0 <= i < |a + b| && (a + b)[i] == '\n' ensures i > 0 && (a + b)[i - 1] == '\r' {
      if i >= |a| {
        assert b[i - |a|] == '\n';
      }
    }
  }

  lemma {:induction false} CrlfJoin(lines: seq<Line>)
    requires forall k :: 0 <= k < |lines| ==> AllCrlf(lines[k])
    ensures AllCrlf(Join(lines))
  {
    if lines != [] {
      CrlfJoin(lines[1..]);
      CrlfAppend(lines[0], Join(lines[1..]));
    }
  }

  /** Each line of such a text ends so on its own. */
  lemma {:induction false} CrlfLines(lines: seq<Line>, l: Line)
    requires Proper(lines) && AllCrlf(Join(lines)) && l in lines
    ensures AllCrlf(l)
  {
    var head, rest := lines[0], Join(lines[1..]);
    var text := head + rest;
    if l == head {
      assert forall i :: 0 <= i < |head| ==> head[i] == text[i];
    } else {
      assert Ended(head);
      forall i | 0 <= i < |rest| && rest[i] == '\n' ensures i > 0 && rest[i - 1] == '\r' {
        assert text[|head| + i] == '\n';
        assert text[|head| + i - 1] == '\r';
        assert text[|head| - 1] == '\n';
      }
      CrlfLines(lines[1..], l);
    }
  }

  lemma {:induction false} ForeignWithin(read: Reading, lines: seq<Line>, s: Scan)
    ensures forall l :: l in Foreign(read, lines, s) ==> l in lines
  {
    if lines != [] {
      ForeignWithin(read, lines[1..], Step(s, read(lines[0])));
    }
  }

  lemma {:induction false} InPlaceWithin(read: Reading, lines: seq<Line>, s: Scan, block: seq<Line>)
    ensures forall l :: l in InPlace(read, lines, s, block) ==> l in lines || l in block
    decreases |lines|
  {
    if lines != [] {
      if Step(s, read(lines[0])).ours {
        ForeignWithin(read, lines, s);
      } else {
        InPlaceWithin(read, lines[1..], Step(s, read(lines[0])), block);
      }
    }
  }

  lemma {:induction false} ThinnedWithin(a: seq<Line>, b: seq<Line>, blank: Line)
    requires Thinned(a, b, blank)
    ensures forall l :: l in b ==> l in a
  {
    if a != [] {
      if b != [] && a[0] == b[0] && Thinned(a[1..], b[1..], blank) {
        ThinnedWithin(a[1..], b[1..], blank);
        assert b == [b[0]] + b[1..];
      } else {
        ThinnedWithin(a[1..], b, blank);
      }
    }
  }

  lemma ConvertedEnds(block: seq<Line>, l: Line)
    requires (forall k :: 0 <= k < |block| ==> OneLine(block[k])) && l in Converted(block, true)
    ensures AllCrlf(l)
  {
  }

  lemma EndIsCrlf()
    ensures AllCrlf(Newline(true)) && AllCrlf("")
  {
    var nl := Newline(true);
    assert nl[0] == '\r' && nl[1] == '\n';
  }

  lemma SeparatedEnds(text: string)
    requires AllCrlf(text)
    ensures AllCrlf(Separated(text, true))
  {
    hide AllCrlf, Trim, EndsWith;
    EndIsCrlf();
    var out := if text != "" && !EndsWith(text, "\n") then text + Newline(true) else text;
    CrlfAppend(text, Newline(true));
    CrlfAppend(out, Newline(true));
  }

  lemma CollapsedEnds(text: string)
    requires AllCrlf(text)
    ensures AllCrlf(Collapsed(text, true))
  {
    hide AllCrlf, Thinned, Collapsed, Lines, Join, Proper;
    var out := Collapsed(text, true);
    SplitThenJoin(text);
    SplitThenJoin(out);
    CollapsedThins(text, true);
    ThinnedWithin(Lines(text), Lines(out), Newline(true));
    forall k | 0 <= k < |Lines(out)| ensures AllCrlf(Lines(out)[k]) {
      CrlfLines(Lines(text), Lines(out)[k]);
    }
    CrlfJoin(Lines(out));
  }

  /** Whatever the edit. */
  lemma EndingsAreKept(read: Reading, text: string, block: seq<Line>)
    requires HasCrlf(text) && AllCrlf(text) && forall k :: 0 <= k < |block| ==> OneLine(block[k])
    ensures var r := ReplaceTable(read, text, block); r.Some? ==> AllCrlf(r.value)
  {
    hide AllCrlf, Collapsed, Lines, Join, Proper, InPlace, Present, Refused, Trim, OneLine, Converted, HasCrlf;
    var lines, fitted := Lines(text), Converted(block, true);
    SplitThenJoin(text);
    forall l | l in fitted ensures AllCrlf(l) { ConvertedEnds(block, l); }
    forall l | l in lines ensures AllCrlf(l) { CrlfLines(lines, l); }
    var put := InPlace(read, lines, START, fitted);
    InPlaceWithin(read, lines, START, fitted);
    CrlfJoin(put);
    CrlfJoin(fitted);
    SeparatedEnds(text);
    CrlfAppend(Separated(text, true), Join(fitted));
    CollapsedEnds(Join(put));
    EndIsCrlf();
  }
}
