/** Replacing one table of a person's TOML file, line by line, and what that keeps of everything else. */
module TomlTable {
  import opened Prelude
  import opened TomlText

  /** Which table a header opens, or a line belongs to: ours (or one of its sub-tables), the table ours is
      nested in, the top of the file, or another. */
  datatype Where = Ours | Parent | Top | Elsewhere

  /** What a line is to the scan: a table header, a definition of ours inside the parent table or by dotted
      key, a blank or comment line; and whether it holds an odd number of either multi-line delimiter. */
  datatype Kind = Kind(header: Option<Where>, inline: bool, dotted: bool, trivia: bool, basic: bool, literal: bool)

  /** How lines are read: by patterns on the line, which a line ending does not change. */
  type Reading = Line -> Kind

  datatype Multi = Outside | InBasic | InLiteral

  datatype Scan = Scan(current: Where, ours: bool, multi: Multi)

  const START := Scan(Top, false, Outside)

  /** What the patterns make sure of, and what is asked of the file: no blank or comment line holds an odd
      number of a multi-line delimiter. */
  predicate Sensible(k: Kind) {
    && (k.trivia ==> k.header == None && !k.inline && !k.dotted)
    && (k.trivia ==> !k.basic && !k.literal)
  }

  ghost predicate Understands(read: Reading) {
    && (forall l :: Sensible(read(l)))
    && (forall l :: read(l) == read(l + "\n") == read(l + "\r\n"))
    && read("\n").trivia && read("\r\n").trivia
  }

  function Opened(k: Kind): Multi {
    if k.literal then InLiteral else if k.basic then InBasic else Outside
  }

  function Step(s: Scan, k: Kind): Scan {
    if s.multi == InBasic then s.(multi := if k.basic then Outside else InBasic)
    else if s.multi == InLiteral then s.(multi := if k.literal then Outside else InLiteral)
    else if k.header.Some? then Scan(k.header.value, k.header.value == Ours, Opened(k))
    else s.(multi := Opened(k))
  }

  function After(read: Reading, lines: seq<Line>, s: Scan): Scan {
    if lines == [] then s else After(read, lines[1..], Step(s, read(lines[0])))
  }

  /** A line that defines ours without a header of its own. */
  predicate DefinesInline(s: Scan, k: Kind) {
    && s.multi == Outside && k.header == None && !s.ours
    && ((s.current == Parent && k.inline) || (s.current == Top && k.dotted))
  }

  predicate Refused(read: Reading, lines: seq<Line>, s: Scan) {
    lines != [] && (DefinesInline(s, read(lines[0])) || Refused(read, lines[1..], Step(s, read(lines[0]))))
  }

  /** s is the scan after lines[0], inside our table. Whether lines[0] starts the blank and comment lines
      just before a foreign header, which belong to that. */
  predicate Loose(read: Reading, lines: seq<Line>, s: Scan)
    requires lines != []
  {
    read(lines[0]).trivia && |lines| > 1 &&
    var next := Step(s, read(lines[1]));
    !next.ours || Loose(read, lines[1..], next)
  }

  /** Whether lines[0] is part of our table, s being the scan before it. */
  predicate Owned(read: Reading, lines: seq<Line>, s: Scan)
    requires lines != []
  {
    var s' := Step(s, read(lines[0]));
    s'.ours && !Loose(read, lines, s')
  }

  /** Everything but our table, in order. */
  function Foreign(read: Reading, lines: seq<Line>, s: Scan): seq<Line> {
    if lines == [] then []
    else (if Owned(read, lines, s) then [] else [lines[0]]) + Foreign(read, lines[1..], Step(s, read(lines[0])))
  }

  /** Our table, wherever parts of it stand. */
  function Table(read: Reading, lines: seq<Line>, s: Scan): seq<Line> {
    if lines == [] then []
    else (if Owned(read, lines, s) then [lines[0]] else []) + Table(read, lines[1..], Step(s, read(lines[0])))
  }

  predicate Present(read: Reading, lines: seq<Line>, s: Scan) {
    lines != [] && (Step(s, read(lines[0])).ours || Present(read, lines[1..], Step(s, read(lines[0]))))
  }

  /** block in the place of our table's first part, and nothing in the place of the others. */
  function InPlace(read: Reading, lines: seq<Line>, s: Scan, block: seq<Line>): seq<Line> {
    if lines == [] then []
    else if Step(s, read(lines[0])).ours then block + Foreign(read, lines, s)
    else [lines[0]] + InPlace(read, lines[1..], Step(s, read(lines[0])), block)
  }

  predicate Stays(read: Reading, lines: seq<Line>, s: Scan) {
    lines == [] || (Step(s, read(lines[0])).ours && Stays(read, lines[1..], Step(s, read(lines[0]))))
  }

  /** A block fit to be our table: it opens with its header and stays in it, outside multi-line strings at
      its end, where its last line says something. */
  ghost predicate Fits(read: Reading, block: seq<Line>) {
    && Proper(block) && block != [] && Ended(block[|block| - 1])
    && read(block[0]).header == Some(Ours)
    && Stays(read, block, START)
    && After(read, block, START) == Scan(Ours, true, Outside)
    && !read(block[|block| - 1]).trivia
  }

  // ---------------------------------------------------------------- a table put in place is found again

  lemma {:induction false} AfterAppend(read: Reading, a: seq<Line>, b: seq<Line>, s: Scan)
    ensures After(read, a + b, s) == After(read, b, After(read, a, s))
    decreases |a|
  {
    if a == [] {
      assert a + b == b;
    } else {
      assert (a + b)[1..] == a[1..] + b;
      AfterAppend(read, a[1..], b, Step(s, read(a[0])));
    }
  }

  lemma TriviaChangesNothing(s: Scan, k: Kind)
    requires Sensible(k) && k.trivia
    ensures Step(s, k) == s
  {
  }

  /** t reads what is left of a file whose own scan is at s: the same outside our table; and while our
      table is being left out, anything outside a multi-line string. */
  predicate Follows(s: Scan, t: Scan) {
    if s.ours then t.multi == Outside else t == s
  }

  lemma StepFollows(s: Scan, t: Scan, k: Kind)
    requires Follows(s, t) && Sensible(k)
    ensures Step(s, k).ours ==> Step(s, k).multi == Outside || s.ours || k.header == Some(Ours)
    ensures !Step(s, k).ours ==> Step(t, k) == Step(s, k)
    ensures Step(s, k).ours ==> Follows(Step(s, k), t)
  {
  }

  /** The rest of our table that is let go is let go however the scan came to it. */
  lemma {:induction false} LooseStays(read: Reading, lines: seq<Line>, s: Scan, t: Scan)
    requires Understands(read) && lines != [] && Loose(read, lines, s) && s.ours && t.ours && t.multi == Outside
    ensures Foreign(read, lines[1..], s) != []
    ensures Loose(read, [lines[0]] + Foreign(read, lines[1..], s), t)
    decreases |lines|
  {
    var next := Step(s, read(lines[1]));
    var rest := Foreign(read, lines[1..], s);
    assert Sensible(read(lines[1])) && Sensible(read(lines[0]));
    if next.ours {
      TriviaChangesNothing(t, read(lines[1]));
      TriviaChangesNothing(s, read(lines[1]));
      LooseStays(read, lines[1..], next, t);
      assert rest == [lines[1]] + Foreign(read, lines[2..], next);
    } else {
      assert rest[0] == lines[1];
      StepFollows(s, t, read(lines[1]));
    }
    assert ([lines[0]] + rest)[1..] == rest;
  }

  /** What is left of a file once our table is taken out holds no part of it. */
  lemma {:induction false} ForeignIsForeign(read: Reading, lines: seq<Line>, s: Scan, t: Scan)
    requires Understands(read) && Follows(s, t)
    ensures var rest := Foreign(read, lines, s); Foreign(read, rest, t) == rest && Table(read, rest, t) == []
    decreases |lines|
  {
    if lines != [] {
      var k := read(lines[0]);
      var s' := Step(s, k);
      var more := Foreign(read, lines[1..], s');
      assert Sensible(k);
      StepFollows(s, t, k);
      if !Owned(read, lines, s) {
        var rest := [lines[0]] + more;
        assert rest[1..] == more;
        if s'.ours {
          TriviaChangesNothing(s, k);
          TriviaChangesNothing(t, k);
          ForeignIsForeign(read, lines[1..], s', t);
          if t.ours { LooseStays(read, lines, s', t); }
          assert !Owned(read, rest, t);
        } else {
          ForeignIsForeign(read, lines[1..], s', s');
          assert Step(t, k) == s' && !Owned(read, rest, t);
        }
      } else {
        ForeignIsForeign(read, lines[1..], s', t);
        assert Foreign(read, lines, s) == more;
      }
    }
  }

  lemma {:induction false} BlockEndsTight(read: Reading, block: seq<Line>, rest: seq<Line>, s: Scan)
    requires block != [] && Stays(read, block[1..], s) && !read(block[|block| - 1]).trivia && s.ours
    ensures !Loose(read, block + rest, s)
    decreases |block|
  {
    if |block| > 1 {
      assert (block + rest)[1..] == block[1..] + rest;
      BlockEndsTight(read, block[1..], rest, Step(s, read(block[1])));
    }
  }

  /** All of a block is our table, and what comes after is read as it would be anyway. */
  lemma {:induction false} BlockIsTable(read: Reading, block: seq<Line>, rest: seq<Line>, s: Scan)
    requires Stays(read, block, s) && (block != [] ==> !read(block[|block| - 1]).trivia)
    ensures Table(read, block + rest, s) == block + Table(read, rest, After(read, block, s))
    ensures Foreign(read, block + rest, s) == Foreign(read, rest, After(read, block, s))
    decreases |block|
  {
    if block == [] {
      assert block + rest == rest;
    } else {
      assert (block + rest)[1..] == block[1..] + rest;
      BlockEndsTight(read, block, rest, Step(s, read(block[0])));
      BlockIsTable(read, block[1..], rest, Step(s, read(block[0])));
    }
  }

  lemma FitsAnywhere(read: Reading, block: seq<Line>, s: Scan)
    requires Fits(read, block) && s.multi == Outside
    ensures Stays(read, block, s) && After(read, block, s) == Scan(Ours, true, Outside)
  {
    assert Step(s, read(block[0])) == Step(START, read(block[0]));
  }

  /** A block put in our table's place: it is our table, all else is as it was, and putting it there again
      changes nothing. */
  lemma {:induction false} PutInPlace(read: Reading, lines: seq<Line>, s: Scan, block: seq<Line>)
    requires Understands(read) && Fits(read, block) && !s.ours && Present(read, lines, s)
    ensures var out := InPlace(read, lines, s, block);
            && Foreign(read, out, s) == Foreign(read, lines, s)
            && Table(read, out, s) == block
            && Present(read, out, s) && InPlace(read, out, s, block) == out
    decreases |lines|
  {
    var out := InPlace(read, lines, s, block);
    var s' := Step(s, read(lines[0]));
    if s'.ours {
      assert Sensible(read(lines[0]));
      var rest := Foreign(read, lines[1..], s');
      assert Foreign(read, lines, s) == rest;
      var t := Scan(Ours, true, Outside);
      FitsAnywhere(read, block, s);
      BlockIsTable(read, block, rest, s);
      ForeignIsForeign(read, lines[1..], s', t);
      assert block + [] == block;
    } else {
      var more := InPlace(read, lines[1..], s', block);
      PutInPlace(read, lines[1..], s', block);
      assert ([lines[0]] + more)[1..] == more;
    }
  }

  // ---------------------------------------------------------------- what is refused

  /** The table line k stands in: the one the last header before it opens, lines inside multi-line strings being
      no headers; the top of the file when there is none. */
  function TableAt(read: Reading, lines: seq<Line>, k: nat): Where
    requires k <= |lines|
  {
    if k == 0 then Top
    else if After(read, lines[..k - 1], START).multi == Outside && read(lines[k - 1]).header.Some?
    then read(lines[k - 1]).header.value
    else TableAt(read, lines, k - 1)
  }

  /** A file is refused exactly when it defines the table without a header of its own: in a line outside
      multi-line strings, by its name in the table it is nested in, or by a dotted name at the top. */
  lemma RefusedExactly(read: Reading, lines: seq<Line>)
    ensures Refused(read, lines, START)
            <==> exists k :: 0 <= k < |lines| && DefinedAt(read, lines, k)
  {
    RefusedFrom(read, lines, START);
    forall k | 0 <= k < |lines|
      ensures DefinedAt(read, lines, k) <==> DefinesInline(After(read, lines[..k], START), read(lines[k]))
    {
      CurrentIsTable(read, lines, k);
    }
  }

  predicate DefinedAt(read: Reading, lines: seq<Line>, k: nat)
    requires k < |lines|
  {
    && After(read, lines[..k], START).multi == Outside && read(lines[k]).header == None
    && ((TableAt(read, lines, k) == Parent && read(lines[k]).inline)
        || (TableAt(read, lines, k) == Top && read(lines[k]).dotted))
  }

  lemma {:induction false} RefusedFrom(read: Reading, lines: seq<Line>, s: Scan)
    ensures Refused(read, lines, s)
            <==> exists k :: 0 <= k < |lines| && DefinesInline(After(read, lines[..k], s), read(lines[k]))
    decreases |lines|
  {
    hide DefinesInline, Step;
    if lines != [] {
      var s' := Step(s, read(lines[0]));
      RefusedFrom(read, lines[1..], s');
      assert After(read, lines[..0], s) == s;
      if k :| 0 <= k < |lines| && DefinesInline(After(read, lines[..k], s), read(lines[k])) {
        if k > 0 {
          assert lines[..k][1..] == lines[1..][..k - 1] && lines[1..][k - 1] == lines[k];
        }
      }
      if k :| 0 <= k < |lines| - 1 && DefinesInline(After(read, lines[1..][..k], s'), read(lines[1..][k])) {
        assert lines[..k + 1][1..] == lines[1..][..k] && lines[1..][k] == lines[k + 1];
        assert DefinesInline(After(read, lines[..k + 1], s), read(lines[k + 1]));
      }
    }
  }

  lemma {:induction false} CurrentIsTable(read: Reading, lines: seq<Line>, k: nat)
    requires k <= |lines|
    ensures var s := After(read, lines[..k], START);
            s.current == TableAt(read, lines, k) && s.ours == (TableAt(read, lines, k) == Ours)
  {
    if k > 0 {
      CurrentIsTable(read, lines, k - 1);
      assert lines[..k] == lines[..k - 1] + [lines[k - 1]];
      AfterAppend(read, lines[..k - 1], [lines[k - 1]], START);
      assert After(read, [lines[k - 1]], After(read, lines[..k - 1], START))
             == Step(After(read, lines[..k - 1], START), read(lines[k - 1]));
    }
  }

  lemma {:induction false} ForeignIsNotRefused(read: Reading, lines: seq<Line>, s: Scan, t: Scan)
    requires Understands(read) && Follows(s, t) && !Refused(read, lines, s)
    ensures !Refused(read, Foreign(read, lines, s), t)
    decreases |lines|
  {
    if lines != [] {
      var k := read(lines[0]);
      var s' := Step(s, k);
      var more := Foreign(read, lines[1..], s');
      assert Sensible(k);
      StepFollows(s, t, k);
      if Owned(read, lines, s) {
        assert Foreign(read, lines, s) == more;
        ForeignIsNotRefused(read, lines[1..], s', t);
      } else {
        assert ([lines[0]] + more)[1..] == more;
        if s'.ours {
          TriviaChangesNothing(s, k);
          TriviaChangesNothing(t, k);
          ForeignIsNotRefused(read, lines[1..], s', t);
        } else {
          ForeignIsNotRefused(read, lines[1..], s', s');
        }
      }
    }
  }

  lemma {:induction false} BlockIsNotRefused(read: Reading, block: seq<Line>, rest: seq<Line>, s: Scan)
    requires Stays(read, block, s) && !Refused(read, rest, After(read, block, s))
    requires s.ours || (block != [] && read(block[0]).header.Some?)
    ensures !Refused(read, block + rest, s)
    decreases |block|
  {
    if block == [] {
      assert block + rest == rest;
    } else {
      assert (block + rest)[1..] == block[1..] + rest;
      BlockIsNotRefused(read, block[1..], rest, Step(s, read(block[0])));
    }
  }

  lemma {:induction false} PutInPlaceIsNotRefused(read: Reading, lines: seq<Line>, s: Scan, block: seq<Line>)
    requires Understands(read) && Fits(read, block) && !s.ours && Present(read, lines, s) && !Refused(read, lines, s)
    ensures !Refused(read, InPlace(read, lines, s, block), s)
    decreases |lines|
  {
    var s' := Step(s, read(lines[0]));
    if s'.ours {
      assert Sensible(read(lines[0]));
      var rest := Foreign(read, lines[1..], s');
      assert Foreign(read, lines, s) == rest;
      FitsAnywhere(read, block, s);
      ForeignIsNotRefused(read, lines[1..], s', Scan(Ours, true, Outside));
      BlockIsNotRefused(read, block, rest, s);
    } else {
      var more := InPlace(read, lines[1..], s', block);
      PutInPlaceIsNotRefused(read, lines[1..], s', block);
      assert ([lines[0]] + more)[1..] == more;
    }
  }
}
