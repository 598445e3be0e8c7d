/** The edit as the program makes it: one pass that notes the table's spans, and then the file rebuilt around them. */
module TomlEdit {
  import opened Prelude
  import opened TomlText
  import opened TomlTable
  import opened TomlFile

  datatype Span = Span(start: nat, end: nat)

  /** The scan before line j. */
  function At(read: Reading, lines: seq<Line>, j: nat): Scan
    requires j <= |lines|
  {
    After(read, lines[..j], START)
  }

  /** Whether line j is inside our table. */
  predicate OursAt(read: Reading, lines: seq<Line>, j: nat)
    requires j < |lines|
  {
    At(read, lines, j + 1).ours
  }

  lemma AtNext(read: Reading, lines: seq<Line>, j: nat)
    requires j < |lines|
    ensures At(read, lines, j + 1) == Step(At(read, lines, j), read(lines[j]))
    ensures OursAt(read, lines, j) == At(read, lines, j + 1).ours
  {
    assert lines[..j + 1] == lines[..j] + [lines[j]];
    AfterAppend(read, lines[..j], [lines[j]], START);
    assert [lines[j]][1..] == [];
  }

  predicate OwnedAt(read: Reading, lines: seq<Line>, j: nat)
    requires j < |lines|
  {
    Owned(read, lines[j..], At(read, lines, j))
  }

  function ForeignAt(read: Reading, lines: seq<Line>, j: nat): seq<Line>
    requires j <= |lines|
  {
    Foreign(read, lines[j..], At(read, lines, j))
  }

  /** Spans in order, apart from each other, within n lines. */
  predicate Ordered(spans: seq<Span>, n: nat) {
    && (forall k :: 0 <= k < |spans| ==> spans[k].start < spans[k].end <= n)
    && (forall k, l :: 0 <= k < l < |spans| ==> spans[k].end < spans[l].start)
  }

  predicate InSpan(spans: seq<Span>, j: int) {
    exists k :: 0 <= k < |spans| && spans[k].start <= j < spans[k].end
  }

  /** The spans noted after i lines: each runs from our header to the next foreign one, or to the end. */
  ghost predicate Noted(read: Reading, lines: seq<Line>, i: nat, spans: seq<Span>)
    requires i <= |lines|
  {
    && Ordered(spans, |lines|)
    && (forall j :: 0 <= j < i ==> (OursAt(read, lines, j) <==> InSpan(spans, j)))
    && (forall k :: 0 <= k < |spans| ==> spans[k].start < i && !read(lines[spans[k].start]).trivia)
    && (if At(read, lines, i).ours then spans != [] && spans[|spans| - 1].end == |lines|
        else forall k :: 0 <= k < |spans| ==> spans[k].end < i)
    && (forall k :: 0 <= k < |spans| && spans[k].end < |lines|
                    ==> spans[k].end < i && !OursAt(read, lines, spans[k].end))
  }

  lemma NoteSame(read: Reading, lines: seq<Line>, i: nat, spans: seq<Span>)
    requires i < |lines| && Noted(read, lines, i, spans) && OursAt(read, lines, i) == At(read, lines, i).ours
    ensures Noted(read, lines, i + 1, spans)
  {
    hide After;
    if At(read, lines, i).ours {
      var k := |spans| - 1;
      assert spans[k].start <= i < spans[k].end;
    }
  }

  lemma NoteOpens(read: Reading, lines: seq<Line>, i: nat, spans: seq<Span>)
    requires i < |lines| && Noted(read, lines, i, spans)
    requires !At(read, lines, i).ours && OursAt(read, lines, i) && !read(lines[i]).trivia
    ensures Noted(read, lines, i + 1, spans + [Span(i, |lines|)])
  {
    hide After;
    var more := spans + [Span(i, |lines|)];
    forall j | 0 <= j < i + 1 ensures OursAt(read, lines, j) <==> InSpan(more, j) {
      if j == i {
        assert more[|spans|].start <= j < more[|spans|].end;
      } else if InSpan(spans, j) {
        var k :| 0 <= k < |spans| && spans[k].start <= j < spans[k].end;
        assert more[k].start <= j < more[k].end;
      }
    }
  }

  lemma NoteCloses(read: Reading, lines: seq<Line>, i: nat, spans: seq<Span>)
    requires i < |lines| && Noted(read, lines, i, spans) && At(read, lines, i).ours && !OursAt(read, lines, i)
    ensures spans != [] && Noted(read, lines, i + 1, spans[|spans| - 1 := spans[|spans| - 1].(end := i)])
  {
    hide At;
    var last := |spans| - 1;
    var less := spans[last := spans[last].(end := i)];
    assert spans[last].start < i;
    forall j | 0 <= j < i ensures InSpan(spans, j) <==> InSpan(less, j) {
      EndsSooner(spans, last, i, j);
    }
    assert !InSpan(less, i);
  }

  lemma EndsSooner(spans: seq<Span>, last: nat, i: nat, j: nat)
    requires last < |spans| && j < i <= spans[last].end
    ensures InSpan(spans, j) <==> InSpan(spans[last := spans[last].(end := i)], j)
  {
    var less := spans[last := spans[last].(end := i)];
    forall k | 0 <= k < |spans|
      ensures spans[k].start <= j < spans[k].end <==> less[k].start <= j < less[k].end
    {
    }
    if InSpan(spans, j) {
      var k :| 0 <= k < |spans| && spans[k].start <= j < spans[k].end;
      assert less[k].start <= j < less[k].end;
    }
    if InSpan(less, j) {
      var k :| 0 <= k < |less| && less[k].start <= j < less[k].end;
      assert spans[k].start <= j < spans[k].end;
    }
  }

  // ---------------------------------------------------------------- what a span gives back

  lemma {:induction false} LooseRun(read: Reading, lines: seq<Line>, j: nat, end: nat)
    requires j < end <= |lines| && (forall k :: j <= k < end ==> OursAt(read, lines, k))
    requires end < |lines| ==> !OursAt(read, lines, end)
    ensures Loose(read, lines[j..], At(read, lines, j + 1))
            <==> end < |lines| && forall k :: j <= k < end ==> read(lines[k]).trivia
    decreases end - j
  {
    hide After;
    if j + 1 < |lines| {
      AtNext(read, lines, j + 1);
      assert lines[j..][1] == lines[j + 1] && lines[j..][1..] == lines[j + 1..];
    }
    if j + 1 < end {
      LooseRun(read, lines, j + 1, end);
    }
  }

  /** A span, once the blank and comment lines before the next header are given back, is what is owned of it. */
  lemma SpanIsOwned(read: Reading, lines: seq<Line>, start: nat, tight: nat, end: nat, j: nat)
    requires start < tight <= end <= |lines| && start <= j < end
    requires forall k :: start <= k < end ==> OursAt(read, lines, k)
    requires end < |lines| ==> !OursAt(read, lines, end)
    requires end == |lines| ==> tight == end
    requires (forall k :: tight <= k < end ==> read(lines[k]).trivia)
               && (end < |lines| ==> !read(lines[tight - 1]).trivia)
    ensures OwnedAt(read, lines, j) <==> j < tight
  {
    hide After;
    AtNext(read, lines, j);
    LooseRun(read, lines, j, end);
    assert lines[j..][0] == lines[j];
  }

  lemma OutsideIsForeign(read: Reading, lines: seq<Line>, j: nat)
    requires j < |lines| && !OursAt(read, lines, j)
    ensures !OwnedAt(read, lines, j)
  {
    AtNext(read, lines, j);
  }

  // ---------------------------------------------------------------- rebuilding

  lemma ForeignNext(read: Reading, lines: seq<Line>, j: nat)
    requires j < |lines|
    ensures ForeignAt(read, lines, j)
            == (if OwnedAt(read, lines, j) then [] else [lines[j]]) + ForeignAt(read, lines, j + 1)
  {
    AtNext(read, lines, j);
    assert lines[j..][1..] == lines[j + 1..];
  }

  lemma {:induction false} KeptStretch(read: Reading, lines: seq<Line>, a: nat, b: nat)
    requires a <= b <= |lines| && forall j :: a <= j < b ==> !OwnedAt(read, lines, j)
    ensures ForeignAt(read, lines, a) == lines[a..b] + ForeignAt(read, lines, b)
    decreases b - a
  {
    hide OwnedAt, ForeignAt;
    if a < b {
      ForeignNext(read, lines, a);
      KeptStretch(read, lines, a + 1, b);
      assert lines[a..b] == [lines[a]] + lines[a + 1..b];
    } else {
      assert lines[a..b] == [];
    }
  }

  lemma {:induction false} DroppedStretch(read: Reading, lines: seq<Line>, a: nat, b: nat)
    requires a <= b <= |lines| && forall j :: a <= j < b ==> OwnedAt(read, lines, j)
    ensures ForeignAt(read, lines, a) == ForeignAt(read, lines, b)
    decreases b - a
  {
    hide OwnedAt, ForeignAt;
    if a < b {
      ForeignNext(read, lines, a);
      DroppedStretch(read, lines, a + 1, b);
    }
  }

  /** Where the first span starts, the block goes. */
  lemma {:induction false} InPlaceAtFirst(read: Reading, lines: seq<Line>, i: nat, first: nat, block: seq<Line>)
    requires i <= first < |lines| && OursAt(read, lines, first)
    requires forall j :: i <= j < first ==> !OursAt(read, lines, j)
    ensures InPlace(read, lines[i..], At(read, lines, i), block)
              == lines[i..first] + block + ForeignAt(read, lines, first)
    ensures Present(read, lines[i..], At(read, lines, i))
    decreases first - i
  {
    hide After, Foreign;
    AtNext(read, lines, i);
    assert lines[i..][0] == lines[i] && lines[i..][1..] == lines[i + 1..];
    if i < first {
      InPlaceAtFirst(read, lines, i + 1, first, block);
      assert lines[i..first] == [lines[i]] + lines[i + 1..first];
      assert [lines[i]] + (lines[i + 1..first] + block + ForeignAt(read, lines, first))
             == lines[i..first] + block + ForeignAt(read, lines, first);
    } else {
      assert lines[i..first] == [];
    }
  }

  lemma {:induction false} NoneToReplace(read: Reading, lines: seq<Line>, i: nat)
    requires i <= |lines| && forall j :: i <= j < |lines| ==> !OursAt(read, lines, j)
    ensures !Present(read, lines[i..], At(read, lines, i))
    decreases |lines| - i
  {
    hide After;
    if i < |lines| {
      AtNext(read, lines, i);
      assert lines[i..][0] == lines[i] && lines[i..][1..] == lines[i + 1..];
      NoneToReplace(read, lines, i + 1);
    }
  }

  lemma RefusedNext(read: Reading, lines: seq<Line>, i: nat)
    requires i < |lines|
    ensures Refused(read, lines[i..], At(read, lines, i))
            <==> || DefinesInline(At(read, lines, i), read(lines[i]))
                 || Refused(read, lines[i + 1..], At(read, lines, i + 1))
  {
    AtNext(read, lines, i);
    assert lines[i..][0] == lines[i] && lines[i..][1..] == lines[i + 1..];
  }

  /** The first pass; None when the table is defined inline. */
  method Scanned(read: Reading, lines: seq<Line>) returns (spans: Option<seq<Span>>)
    requires Understands(read)
    ensures spans.None? <==> Refused(read, lines, START)
    ensures spans.Some? ==> Noted(read, lines, |lines|, spans.value)
  {
    hide After, Refused, Noted, Understands;
    var found: seq<Span> := [];
    var current, ours, multi := Top, false, Outside;
    var i := 0;
    assert lines[0..] == lines && At(read, lines, 0) == START by { AtStart(read, lines); }
    NothingNoted(read, lines);
    while i < |lines|
      invariant 0 <= i <= |lines| && Scan(current, ours, multi) == At(read, lines, i)
      invariant Noted(read, lines, i, found)
      invariant Refused(read, lines, START) == Refused(read, lines[i..], At(read, lines, i))
    {
      var k := read(lines[i]);
      AtNext(read, lines, i);
      RefusedNext(read, lines, i);
      SensibleLine(read, lines[i]);
      if multi != Outside {
        if (multi == InBasic && k.basic) || (multi == InLiteral && k.literal) {
          multi := Outside;
        }
        NoteSame(read, lines, i, found);
      } else {
        if k.basic {
          multi := InBasic;
        }
        if k.literal {
          multi := InLiteral;
        }
        if k.header.Some? {
          current := k.header.value;
          var was := ours;
          ours := current == Ours;
          if ours && !was {
            NoteOpens(read, lines, i, found);
            found := found + [Span(i, |lines|)];
          } else if !ours && was {
            NoteCloses(read, lines, i, found);
            found := found[|found| - 1 := found[|found| - 1].(end := i)];
          } else {
            NoteSame(read, lines, i, found);
          }
        } else {
          NoteSame(read, lines, i, found);
          if !ours && ((current == Parent && k.inline) || (current == Top && k.dotted)) {
            return None;
          }
        }
      }
      i := i + 1;
    }
    assert !Refused(read, lines[i..], At(read, lines, i)) by { NothingRefused(read, lines[i..], At(read, lines, i)); }
    spans := Some(found);
  }

  lemma AtStart(read: Reading, lines: seq<Line>)
    ensures At(read, lines, 0) == START
  {
  }

  lemma NothingNoted(read: Reading, lines: seq<Line>)
    ensures Noted(read, lines, 0, [])
  {
  }

  lemma NothingRefused(read: Reading, lines: seq<Line>, s: Scan)
    ensures lines == [] ==> !Refused(read, lines, s)
  {
  }

  lemma SensibleLine(read: Reading, l: Line)
    requires Understands(read)
    ensures Sensible(read(l))
  {
  }

  // ---------------------------------------------------------------- the second pass

  /** What a span comes to once it has given back the blank and comment lines before the next header. */
  ghost predicate Tight(read: Reading, lines: seq<Line>, span: Span, tight: Span)
    requires span.start < span.end <= |lines|
  {
    && tight.start == span.start < tight.end <= span.end
    && (span.end == |lines| ==> tight == span)
    && (forall k :: tight.end <= k < span.end ==> read(lines[k]).trivia)
    && (span.end < |lines| ==> !read(lines[tight.end - 1]).trivia)
  }

  method Tightened(read: Reading, lines: seq<Line>, span: Span) returns (tight: Span)
    requires span.start < span.end <= |lines| && !read(lines[span.start]).trivia
    ensures Tight(read, lines, span, tight)
  {
    if span.end == |lines| {
      return span;
    }
    var end := span.end;
    while end - 1 > span.start
      invariant span.start < end <= span.end
      invariant forall k :: end <= k < span.end ==> read(lines[k]).trivia
      decreases end
    {
      if !read(lines[end - 1]).trivia {
        break;
      }
      end := end - 1;
    }
    return Span(span.start, end);
  }

  method AllTightened(read: Reading, lines: seq<Line>, spans: seq<Span>) returns (tight: seq<Span>)
    requires Noted(read, lines, |lines|, spans)
    ensures |tight| == |spans| && forall k :: 0 <= k < |spans| ==> Tight(read, lines, spans[k], tight[k])
  {
    hide At, Tight, InSpan;
    tight := spans;
    var k := 0;
    while k < |spans|
      invariant 0 <= k <= |spans| == |tight|
      invariant forall l :: 0 <= l < k ==> Tight(read, lines, spans[l], tight[l])
      invariant forall l :: k <= l < |spans| ==> tight[l] == spans[l]
    {
      var t := Tightened(read, lines, spans[k]);
      tight := tight[k := t];
      k := k + 1;
    }
  }

  lemma OneSpan(spans: seq<Span>, tight: seq<Span>, k: nat, j: nat, n: nat)
    requires Ordered(spans, n) && |tight| == |spans| && k < |spans| && spans[k].start <= j < spans[k].end
    requires forall l :: 0 <= l < |spans| ==> tight[l].start == spans[l].start && tight[l].end <= spans[l].end
    ensures InSpan(tight, j) <==> j < tight[k].end
  {
    forall l | 0 <= l < |tight| && l != k ensures !(tight[l].start <= j < tight[l].end) {
      if l < k { assert spans[l].end < spans[k].start; } else { assert spans[k].end < spans[l].start; }
    }
    if j < tight[k].end {
      assert tight[k].start <= j < tight[k].end;
    }
  }

  /** What the spans cover in the end is exactly what the table owns. */
  lemma SpansAreOwned(read: Reading, lines: seq<Line>, spans: seq<Span>, tight: seq<Span>, j: nat)
    requires Noted(read, lines, |lines|, spans) && |tight| == |spans| && j < |lines|
    requires forall k :: 0 <= k < |spans| ==> Tight(read, lines, spans[k], tight[k])
    ensures OwnedAt(read, lines, j) <==> InSpan(tight, j)
  {
    hide At, Owned;
    if OursAt(read, lines, j) {
      var k :| 0 <= k < |spans| && spans[k].start <= j < spans[k].end;
      forall i | spans[k].start <= i < spans[k].end ensures OursAt(read, lines, i) {
        assert InSpan(spans, i);
      }
      SpanIsOwned(read, lines, spans[k].start, tight[k].end, spans[k].end, j);
      OneSpan(spans, tight, k, j, |lines|);
    } else {
      OutsideIsForeign(read, lines, j);
      TightIsInside(spans, tight, j);
    }
  }

  lemma TightIsInside(spans: seq<Span>, tight: seq<Span>, j: nat)
    requires |tight| == |spans|
    requires forall k :: 0 <= k < |spans| ==> spans[k].start <= tight[k].start && tight[k].end <= spans[k].end
    ensures InSpan(tight, j) ==> InSpan(spans, j)
  {
    if InSpan(tight, j) {
      var k :| 0 <= k < |tight| && tight[k].start <= j < tight[k].end;
      assert spans[k].start <= j < spans[k].end;
    }
  }

  lemma StaysOrdered(read: Reading, lines: seq<Line>, spans: seq<Span>, tight: seq<Span>)
    requires Ordered(spans, |lines|) && |tight| == |spans|
    requires forall k :: 0 <= k < |spans| ==> Tight(read, lines, spans[k], tight[k])
    ensures Ordered(tight, |lines|)
  {
    forall k, l | 0 <= k < l < |spans| ensures tight[k].end < tight[l].start {
      assert spans[k].end < spans[l].start;
    }
  }

  lemma Between(spans: seq<Span>, n: nat, k: nat, j: nat)
    requires Ordered(spans, n) && k <= |spans|
    requires (if k == 0 then 0 else spans[k - 1].end) <= j < (if k < |spans| then spans[k].start else n)
    ensures !InSpan(spans, j)
  {
    forall l | 0 <= l < |spans| ensures !(spans[l].start <= j < spans[l].end) {
      if l < k - 1 { assert spans[l].end < spans[k - 1].start; }
      if k < l { assert spans[k].end < spans[l].start; }
    }
  }

  /** The file written out again: what is between the spans, with the block in the first one's place. */
  method Rebuilt(read: Reading, lines: seq<Line>, spans: seq<Span>, block: seq<Line>) returns (out: seq<Line>)
    requires Ordered(spans, |lines|) && spans != []
    requires forall j: nat :: j < |lines| ==> (OwnedAt(read, lines, j) <==> InSpan(spans, j))
    ensures out == lines[..spans[0].start] + block + ForeignAt(read, lines, spans[0].start)
  {
    hide OwnedAt, ForeignAt, InSpan;
    out := [];
    var cursor := 0;
    var k := 0;
    ghost var whole := lines[..spans[0].start] + block + ForeignAt(read, lines, spans[0].start);
    while k < |spans|
      invariant 0 <= k <= |spans|
      invariant k == 0 ==> out == [] && cursor == 0
      invariant k > 0 ==> cursor == spans[k - 1].end && out + ForeignAt(read, lines, cursor) == whole
    {
      var span := spans[k];
      if k > 0 {
        assert spans[k - 1].end < spans[k].start;
        forall j: nat | cursor <= j < span.start ensures !OwnedAt(read, lines, j) { Between(spans, |lines|, k, j); }
        KeptStretch(read, lines, cursor, span.start);
      }
      forall j: nat | span.start <= j < span.end ensures OwnedAt(read, lines, j) { InThisSpan(spans, k, j); }
      DroppedStretch(read, lines, span.start, span.end);
      ghost var before := out;
      out := out + lines[cursor..span.start];
      if k == 0 {
        out := out + block;
        assert lines[0..span.start] == lines[..span.start];
      } else {
        assert before + (lines[cursor..span.start] + ForeignAt(read, lines, span.start)) == whole;
      }
      cursor := span.end;
      k := k + 1;
    }
    forall j: nat | cursor <= j < |lines| ensures !OwnedAt(read, lines, j) { Between(spans, |lines|, k, j); }
    KeptStretch(read, lines, cursor, |lines|);
    NothingAfter(read, lines);
    assert out + (lines[cursor..] + []) == whole by { assert lines[cursor..|lines|] == lines[cursor..]; }
    out := out + lines[cursor..];
  }

  lemma InThisSpan(spans: seq<Span>, k: nat, j: nat)
    requires k < |spans| && spans[k].start <= j < spans[k].end
    ensures InSpan(spans, j)
  {
  }

  lemma NothingAfter(read: Reading, lines: seq<Line>)
    ensures ForeignAt(read, lines, |lines|) == []
  {
  }

  /** The whole edit does what ReplaceTable says. */
  method Edit(read: Reading, text: string, block: seq<Line>) returns (out: Option<string>)
    requires Understands(read)
    ensures out == ReplaceTable(read, text, block)
  {
    hide At, Refused, Present, InPlace, Foreign, Understands, Trim, Collapsed, HasCrlf, Lines, Join, InSpan, OwnedAt;
    var crlf := HasCrlf(text);
    var fitted := Converted(block, crlf);
    var lines := Lines(text);
    var found := Scanned(read, lines);
    if found == None {
      return None;
    }
    var spans := found.value;
    NotedMeansPresent(read, lines, spans, fitted);
    if spans == [] {
      if block == [] {
        return Some(text);
      }
      return Some(Separated(text, crlf) + Join(fitted));
    }
    var tight := AllTightened(read, lines, spans);
    StaysOrdered(read, lines, spans, tight);
    forall j: nat | j < |lines| ensures OwnedAt(read, lines, j) <==> InSpan(tight, j) {
      SpansAreOwned(read, lines, spans, tight, j);
    }
    var rebuilt := Rebuilt(read, lines, tight, fitted);
    assert tight[0].start == spans[0].start by { assert Tight(read, lines, spans[0], tight[0]); }
    var joined := Join(rebuilt);
    if block != [] {
      return Some(joined);
    }
    var collapsed := CollapseBlankRuns(joined, crlf);
    if Trim(collapsed) == "" {
      return Some("");
    }
    return Some(collapsed);
  }

  lemma NotedMeansPresent(read: Reading, lines: seq<Line>, spans: seq<Span>, block: seq<Line>)
    requires Noted(read, lines, |lines|, spans)
    ensures Present(read, lines, START) <==> spans != []
    ensures spans != [] ==> InPlace(read, lines, START, block)
                            == lines[..spans[0].start] + block + ForeignAt(read, lines, spans[0].start)
  {
    hide At, Present, InPlace, Foreign;
    AtStart(read, lines);
    assert lines[0..] == lines;
    if spans == [] {
      assert forall j :: !InSpan(spans, j);
      NoneToReplace(read, lines, 0);
    } else {
      var first := spans[0].start;
      InThisSpan(spans, 0, first);
      forall j: nat | j < first ensures !InSpan(spans, j) { Between(spans, |lines|, 0, j); }
      InPlaceAtFirst(read, lines, 0, first, block);
    }
  }
}
