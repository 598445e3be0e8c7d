/** What the units of a history and the totals over them say of its runs. */
module Reports {
  import opened Prelude
  import opened Units
  import opened Insights

  // ---------------------------------------------------------------- a unit

  /** How many of the runs are revisions. */
  lemma {:induction false} RevisionsExactly(runs: seq<Run>)
    ensures Revisions(runs) == |set k | 0 <= k < |runs| && runs[k].kind == Revise|
  {
    var now := set k | 0 <= k < |runs| && runs[k].kind == Revise;
    if runs != [] {
      var n := |runs| - 1;
      var less := runs[..n];
      var before := set k | 0 <= k < |less| && less[k].kind == Revise;
      RevisionsExactly(less);
      if runs[n].kind == Revise {
        assert now == before + {n};
      } else {
        assert now == before;
      }
    }
  }

  /** A unit's runs are all the history has of its pipeline, or of its line, in order of creation; it ended and
      delivered as its pipeline did, and else once no run of it is active and when one of the kinds that
      deliver succeeded. */
  lemma UnitExactly(h: History, units: seq<Unit>, i: nat)
    requires Indexed(h) && AreUnits(h, units) && i < |units|
    ensures var u := units[i];
            && u.runs != [] && InOrder(u.runs)
            && (u.key.Pipe? ==> forall r :: r in u.runs <==> r in h.runs && r.pipeline == Some(u.key.pipeline))
            && (u.key.Line? ==> forall r :: r in u.runs <==> r in h.runs && r.pipeline == None
                                                              && Root(h.byId, r) == u.key.root)
    ensures var u := units[i];
            if u.key.Pipe? && u.key.pipeline in h.pipelines
            then && (u.ended <==> h.pipelines[u.key.pipeline] in {Approved, Ended})
                 && (u.delivered <==> h.pipelines[u.key.pipeline] == Approved)
            else && (u.ended <==> forall r :: r in u.runs ==> !r.active)
                 && (u.delivered <==> exists r :: r in u.runs && r.succeeded && r.kind !in {Verify, OtherKind})
    ensures units[i].revise == |set k | 0 <= k < |units[i].runs| && units[i].runs[k].kind == Revise|
  {
    hide Root, Under, ByCreated, Revisions, Flat;
    var u := units[i];
    assert UnitOf(h, u);
    RevisionsExactly(u.runs);
    ByCreatedSorts(Under(h, h.runs, u.key));
    forall r ensures r in u.runs <==> r in h.runs && KeyOf(h, r) == u.key { InUnit(h, u, r); }
  }

  // ---------------------------------------------------------------- the runs counted

  lemma {:induction false} WorkExactly(runs: seq<Run>)
    ensures forall r :: r in WorkOf(runs) <==> r in runs && r.kind != Verify
    ensures multiset(WorkOf(runs)) <= multiset(runs) && Revisions(WorkOf(runs)) == Revisions(runs)
  {
    if runs != [] {
      hide Revisions;
      var less, last := runs[..|runs| - 1], runs[|runs| - 1];
      assert runs == less + [last];
      WorkExactly(less);
      RevisionsAdd(less, [last]);
      if last.kind != Verify {
        RevisionsAdd(WorkOf(less), [last]);
      } else {
        assert WorkOf(runs) == WorkOf(less) && Revisions([last]) == 0 by { RevisionsExactly([last]); }
      }
    }
  }

  lemma {:induction false} RevisionsAdd(a: seq<Run>, b: seq<Run>)
    ensures Revisions(a + b) == Revisions(a) + Revisions(b)
  {
    if b == [] {
      assert a + b == a;
    } else {
      RevisionsAdd(a, b[..|b| - 1]);
      assert (a + b)[..|a + b| - 1] == a + b[..|b| - 1];
    }
  }

  ghost predicate InEnded(units: seq<Unit>, r: Run) {
    exists i :: 0 <= i < |units| && units[i].ended && r in units[i].runs
  }

  lemma InEndedNext(units: seq<Unit>, r: Run)
    requires units != []
    ensures var n := |units| - 1;
            InEnded(units, r) <==> InEnded(units[..n], r) || (units[n].ended && r in units[n].runs)
  {
    var n := |units| - 1;
    var less := units[..n];
    if i :| 0 <= i < |less| && less[i].ended && r in less[i].runs {
      assert units[i] == less[i];
    }
    if i :| 0 <= i < |units| && units[i].ended && r in units[i].runs && i < n {
      assert less[i] == units[i];
    }
  }

  lemma {:induction false} CountedIn(units: seq<Unit>)
    ensures forall r :: r in Counted(units) <==> r.kind != Verify && InEnded(units, r)
    ensures multiset(Counted(units)) <= multiset(Flat(units))
  {
    if units != [] {
      hide InEnded, WorkOf;
      var less, u := units[..|units| - 1], units[|units| - 1];
      CountedIn(less);
      WorkExactly(u.runs);
      forall r ensures r in Counted(units) <==> r.kind != Verify && InEnded(units, r) { InEndedNext(units, r); }
    }
  }

  /** The runs counted are those of ended units, but for checks of another's work, and each of them once. */
  lemma CountedExactly(h: History, units: seq<Unit>)
    requires Indexed(h) && AreUnits(h, units)
    ensures forall r :: r in Counted(units) <==> r.kind != Verify && InEnded(units, r)
    ensures forall r :: r in Counted(units) ==> multiset(Counted(units))[r] == 1
  {
    hide Counted, Flat, UnitOf;
    CountedIn(units);
    forall r | r in Counted(units) ensures multiset(Counted(units))[r] == 1 {
      assert r in multiset(h.runs);
      OnceOnly(h, h.runs, r);
    }
  }

  lemma {:induction false} OnceOnly(h: History, runs: seq<Run>, r: Run)
    requires (forall i, j :: 0 <= i < j < |runs| ==> runs[i].id != runs[j].id) && r in runs
    ensures multiset(runs)[r] == 1
  {
    var less, last := runs[..|runs| - 1], runs[|runs| - 1];
    assert runs == less + [last];
    if r in less {
      OnceOnly(h, less, r);
    }
  }

  // ---------------------------------------------------------------- totals

  /** How many of the units are such. */
  ghost function Such(units: seq<Unit>, p: Unit -> bool): nat {
    |set i | 0 <= i < |units| && p(units[i])|
  }

  lemma SuchNext(units: seq<Unit>, p: Unit -> bool)
    requires units != []
    ensures var n := |units| - 1; Such(units, p) == Such(units[..n], p) + if p(units[n]) then 1 else 0
  {
    var n := |units| - 1;
    var less := units[..n];
    assert (set i | 0 <= i < |units| && p(units[i]))
           == (set i | 0 <= i < |less| && p(less[i])) + if p(units[n]) then {n} else {};
  }

  lemma SuchExactly(units: seq<Unit>, p: Unit -> bool, which: set<int>)
    requires forall i :: i in which <==> 0 <= i < |units| && p(units[i])
    ensures Such(units, p) == |which|
  {
    assert which == set i | 0 <= i < |units| && p(units[i]);
  }

  predicate HasEnded(u: Unit) { u.ended }
  predicate HasDelivered(u: Unit) { u.ended && u.delivered }
  predicate AtFirst(u: Unit) { u.ended && u.delivered && u.revise == 0 }

  lemma {:induction false} UnitTotalsCount(units: seq<Unit>)
    ensures UnitTotals(units).0 == Such(units, HasEnded) && UnitTotals(units).1 == Such(units, HasDelivered)
    ensures UnitTotals(units).2 == Such(units, AtFirst)
  {
    if units != [] {
      hide Such;
      UnitTotalsCount(units[..|units| - 1]);
      SuchNext(units, HasEnded);
      SuchNext(units, HasDelivered);
      SuchNext(units, AtFirst);
    }
  }

  lemma {:induction false} RevisionsTotalled(units: seq<Unit>)
    requires forall i :: 0 <= i < |units| ==> units[i].revise == Revisions(units[i].runs)
    ensures UnitTotals(units).3 == Revisions(Counted(units))
  {
    hide Revisions, WorkOf;
    if units != [] {
      var less, u := units[..|units| - 1], units[|units| - 1];
      RevisionsTotalled(less);
      WorkExactly(u.runs);
      RevisionsAdd(Counted(less), if u.ended then WorkOf(u.runs) else []);
      assert Counted(less) + [] == Counted(less);
    } else {
      assert Revisions([]) == 0 by { RevisionsExactly([]); }
    }
  }

  ghost predicate Unrevised(u: Unit) {
    forall r :: r in u.runs ==> r.kind != Revise
  }

  /** The totals count the units that ended, those that delivered, those that did so without a revision, and the
      revisions among the runs counted. */
  lemma TotalsExactly(h: History, units: seq<Unit>)
    requires Indexed(h) && AreUnits(h, units)
    ensures UnitTotals(units).0 == |set i | 0 <= i < |units| && units[i].ended|
    ensures UnitTotals(units).1 == |set i | 0 <= i < |units| && units[i].ended && units[i].delivered|
    ensures UnitTotals(units).2
            == |set i | 0 <= i < |units| && units[i].ended && units[i].delivered && Unrevised(units[i])|
    ensures UnitTotals(units).3 == |set k | 0 <= k < |Counted(units)| && Counted(units)[k].kind == Revise|
  {
    hide UnitTotals, Counted, Under, KeyOf, Settles, ByCreated, Revisions, Flat;
    UnitTotalsCount(units);
    forall i | 0 <= i < |units|
      ensures units[i].revise == Revisions(units[i].runs)
      ensures units[i].revise == 0 <==> Unrevised(units[i])
    {
      assert UnitOf(h, units[i]);
      NoRevisions(units[i].runs);
    }
    SuchExactly(units, HasEnded, set i | 0 <= i < |units| && units[i].ended);
    SuchExactly(units, HasDelivered, set i | 0 <= i < |units| && units[i].ended && units[i].delivered);
    SuchExactly(units, AtFirst,
                set i | 0 <= i < |units| && units[i].ended && units[i].delivered && Unrevised(units[i]));
    RevisionsTotalled(units);
    RevisionsExactly(Counted(units));
  }

  lemma {:induction false} NoRevisions(runs: seq<Run>)
    ensures Revisions(runs) == 0 <==> forall r :: r in runs ==> r.kind != Revise
  {
    if runs != [] {
      NoRevisions(runs[..|runs| - 1]);
      assert runs == runs[..|runs| - 1] + [runs[|runs| - 1]];
    }
  }

  // ---------------------------------------------------------------- dimensions

  /** Runs counted at a value are those placed there. */
  lemma {:induction false} TimesExactly(runs: seq<Run>, by_: By, k: nat, which: set<int>)
    requires forall i :: i in which <==> 0 <= i < |runs| && by_(runs[i]) == k
    ensures TimesAt(runs, by_, k) == |which|
  {
    if runs == [] {
      assert forall i :: i !in which;
      assert which == {};
    } else {
      var n := |runs| - 1;
      TimesExactly(runs[..n], by_, k, which - {n});
      if n in which {
        assert which == (which - {n}) + {n};
      } else {
        assert which == which - {n};
      }
    }
  }

  /** Runs are counted at their node's type, those of none at the unknown one. */
  lemma TypesExactly(runs: seq<Run>, k: nat)
    ensures TimesAt(runs, NodeTypeOf, k)
            == |set i | 0 <= i < |runs| && (runs[i].nodeType == Some(k) || (runs[i].nodeType == None && k == UNKNOWN))|
  {
    var which :=
      set i | 0 <= i < |runs| && (runs[i].nodeType == Some(k) || (runs[i].nodeType == None && k == UNKNOWN));
    TimesExactly(runs, NodeTypeOf, k, which);
  }

  /** The estimated cost is the cost at any value of a dimension that is the place of the runs whose cost is an
      estimate and of no others. */
  lemma {:induction false} EstimatedExactly(runs: seq<Run>, by_: By, k: nat)
    requires forall r :: by_(r) == k <==> r.estimated
    ensures Estimated(runs) == CostAt(runs, by_, k)
  {
    if runs != [] {
      EstimatedExactly(runs[..|runs| - 1], by_, k);
    }
  }
}
