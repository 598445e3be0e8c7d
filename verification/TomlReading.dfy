/** Which lines of a file are inside multi-line strings, and which are the table's, said of the lines themselves. */
module TomlReading {
  import opened Prelude
  import opened TomlText
  import opened TomlTable

  function MultiAt(read: Reading, lines: seq<Line>, k: nat): Multi
    requires k <= |lines|
  {
    After(read, lines[..k], START).multi
  }

  /** Line j opens a multi-line string that no line before line k closes: one with an odd number of its delimiter,
      of which a literal string's counts first. */
  ghost predicate OpenFrom(read: Reading, lines: seq<Line>, j: nat, k: nat, basic: bool)
    requires j < k <= |lines|
  {
    && MultiAt(read, lines, j) == Outside
    && (if basic then read(lines[j]).basic && !read(lines[j]).literal else read(lines[j]).literal)
    && forall m :: j < m < k ==> if basic then !read(lines[m]).basic else !read(lines[m]).literal
  }

  lemma StepAt(read: Reading, lines: seq<Line>, k: nat)
    requires k < |lines|
    ensures After(read, lines[..k + 1], START) == Step(After(read, lines[..k], START), read(lines[k]))
  {
    assert lines[..k + 1] == lines[..k] + [lines[k]];
    AfterAppend(read, lines[..k], [lines[k]], START);
    var s := After(read, lines[..k], START);
    assert After(read, [lines[k]], s) == Step(s, read(lines[k]));
  }

  /** Line k begins inside a multi-line string exactly when one was opened before it and not closed since. */
  lemma {:induction false} StringsExactly(read: Reading, lines: seq<Line>, k: nat)
    requires k <= |lines|
    ensures MultiAt(read, lines, k) == InBasic <==> exists j :: 0 <= j < k && OpenFrom(read, lines, j, k, true)
    ensures MultiAt(read, lines, k) == InLiteral <==> exists j :: 0 <= j < k && OpenFrom(read, lines, j, k, false)
  {
    if k > 0 {
      var n := k - 1;
      StringsExactly(read, lines, n);
      StepAt(read, lines, n);
      OpensOn(read, lines, n, true);
      OpensOn(read, lines, n, false);
    }
  }

  lemma OpensOn(read: Reading, lines: seq<Line>, n: nat, basic: bool)
    requires n < |lines|
    ensures var k := n + 1;
            (exists j :: 0 <= j < k && OpenFrom(read, lines, j, k, basic))
            <==> if (exists j :: 0 <= j < n && OpenFrom(read, lines, j, n, basic))
                 then (if basic then !read(lines[n]).basic else !read(lines[n]).literal)
                      || OpenFrom(read, lines, n, k, basic)
                 else OpenFrom(read, lines, n, k, basic)
  {
    hide MultiAt;
    var k := n + 1;
    if j :| 0 <= j < k && OpenFrom(read, lines, j, k, basic) && j < n {
      assert OpenFrom(read, lines, j, n, basic);
    }
    if j :| 0 <= j < n && OpenFrom(read, lines, j, n, basic) {
      if if basic then !read(lines[n]).basic else !read(lines[n]).literal {
        assert OpenFrom(read, lines, j, k, basic);
      }
    }
  }

  // ---------------------------------------------------------------- whose a line is

  ghost predicate BlankOfTable(read: Reading, lines: seq<Line>, k: nat)
    requires k < |lines|
  {
    read(lines[k]).trivia && TableAt(read, lines, k + 1) == Ours
  }

  /** Line k is a blank or comment line, and so is every line from it to a header at m that ends the table. */
  ghost predicate Leads(read: Reading, lines: seq<Line>, k: nat, m: nat)
    requires k < m < |lines|
  {
    && (forall i :: k <= i < m ==> BlankOfTable(read, lines, i))
    && TableAt(read, lines, m + 1) != Ours
  }

  ghost predicate LeadsOut(read: Reading, lines: seq<Line>, k: nat)
    requires k < |lines|
  {
    exists m :: k < m < |lines| && Leads(read, lines, k, m)
  }

  lemma {:induction false} LooseExactly(read: Reading, lines: seq<Line>, k: nat)
    requires k < |lines| && TableAt(read, lines, k + 1) == Ours
    ensures Loose(read, lines[k..], After(read, lines[..k + 1], START)) <==> LeadsOut(read, lines, k)
    decreases |lines| - k
  {
    hide TableAt, After, Step;
    if k + 1 == |lines| {
      assert !LeadsOut(read, lines, k);
    } else {
      var rest := lines[k..];
      assert rest[0] == lines[k] && rest[1] == lines[k + 1] && rest[1..] == lines[k + 1..];
      StepAt(read, lines, k + 1);
      CurrentIsTable(read, lines, k + 2);
      if TableAt(read, lines, k + 2) == Ours {
        LooseExactly(read, lines, k + 1);
        LeadsFurther(read, lines, k);
      } else {
        if read(lines[k]).trivia {
          assert Leads(read, lines, k, k + 1);
        } else {
          assert !BlankOfTable(read, lines, k);
        }
      }
    }
  }

  lemma LeadsFurther(read: Reading, lines: seq<Line>, k: nat)
    requires k + 1 < |lines| && TableAt(read, lines, k + 1) == TableAt(read, lines, k + 2) == Ours
    ensures LeadsOut(read, lines, k) <==> read(lines[k]).trivia && LeadsOut(read, lines, k + 1)
  {
    hide TableAt;
    var n := k + 1;
    if m :| k < m < |lines| && Leads(read, lines, k, m) {
      assert BlankOfTable(read, lines, k) && m != n;
      assert Leads(read, lines, n, m);
    }
    if read(lines[k]).trivia {
      if m :| n < m < |lines| && Leads(read, lines, n, m) {
        assert BlankOfTable(read, lines, k);
        assert Leads(read, lines, k, m);
      }
    }
  }

  /** Line k is the table's when it stands in it, or is its header, and is not one of the blank and comment lines that
      lead up to the header of another. */
  ghost predicate OfTable(read: Reading, lines: seq<Line>, k: nat)
    requires k < |lines|
  {
    TableAt(read, lines, k + 1) == Ours && !LeadsOut(read, lines, k)
  }

  lemma OwnedExactly(read: Reading, lines: seq<Line>, k: nat)
    requires k < |lines|
    ensures Owned(read, lines[k..], After(read, lines[..k], START)) <==> OfTable(read, lines, k)
  {
    hide TableAt, After, Step, Loose;
    assert lines[k..][0] == lines[k];
    StepAt(read, lines, k);
    CurrentIsTable(read, lines, k + 1);
    if TableAt(read, lines, k + 1) == Ours {
      LooseExactly(read, lines, k);
    }
  }

  /** How many of the first k lines are not the table's. */
  ghost function Others(read: Reading, lines: seq<Line>, k: nat): nat
    requires k <= |lines|
  {
    |set i | 0 <= i < k && !OfTable(read, lines, i)|
  }

  /** What is left without the table is the lines that are not the table's, each in its place among them. */
  lemma {:induction false} ForeignExactly(read: Reading, lines: seq<Line>, k: nat)
    requires k <= |lines|
    ensures var rest := Foreign(read, lines[k..], After(read, lines[..k], START));
            && |rest| == Others(read, lines, |lines|) - Others(read, lines, k)
            && forall i :: k <= i < |lines| && !OfTable(read, lines, i) ==>
                 && 0 <= Others(read, lines, i) - Others(read, lines, k) < |rest|
                 && rest[Others(read, lines, i) - Others(read, lines, k)] == lines[i]
    decreases |lines| - k
  {
    hide OfTable, After, Step, Owned, Others;
    if k < |lines| {
      ForeignExactly(read, lines, k + 1);
      OthersNext(read, lines, k);
      OwnedExactly(read, lines, k);
      StepAt(read, lines, k);
      assert lines[k..][0] == lines[k] && lines[k..][1..] == lines[k + 1..];
    }
  }

  lemma OthersNext(read: Reading, lines: seq<Line>, k: nat)
    requires k < |lines|
    ensures Others(read, lines, k + 1)
            == Others(read, lines, k) + if OfTable(read, lines, k) then 0 else 1
  {
    hide OfTable;
    var n := k + 1;
    var less := set i | 0 <= i < k && !OfTable(read, lines, i);
    var more := set i | 0 <= i < n && !OfTable(read, lines, i);
    if OfTable(read, lines, k) {
      assert more == less;
    } else {
      assert more == less + {k};
    }
  }
}
