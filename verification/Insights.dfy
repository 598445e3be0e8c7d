/** A history's runs split into units, and its costs summed along four dimensions. */
module Insights {
  import opened Prelude
  import opened Units

  datatype Key = Pipe(pipeline: nat) | Line(root: nat)

  ghost function KeyOf(h: History, r: Run): Key
    requires Indexed(h)
  {
    if r.pipeline.Some? then Pipe(r.pipeline.value) else Line(Root(h.byId, r))
  }

  /** The runs of one unit, in the history's order. */
  ghost function Under(h: History, runs: seq<Run>, key: Key): seq<Run>
    requires Indexed(h)
  {
    if runs == [] then []
    else
      var last := runs[|runs| - 1];
      Under(h, runs[..|runs| - 1], key) + if KeyOf(h, last) == key then [last] else []
  }

  /** r put after every run created no later. */
  function Inserted(runs: seq<Run>, r: Run): seq<Run> {
    if runs == [] || runs[|runs| - 1].created <= r.created then runs + [r]
    else Inserted(runs[..|runs| - 1], r) + [runs[|runs| - 1]]
  }

  /** The runs by creation, those created together in the order they came. */
  function ByCreated(runs: seq<Run>): seq<Run> {
    if runs == [] then [] else Inserted(ByCreated(runs[..|runs| - 1]), runs[|runs| - 1])
  }

  predicate InOrder(runs: seq<Run>) {
    forall i, j :: 0 <= i < j < |runs| ==> runs[i].created <= runs[j].created
  }

  lemma InOrderAppend(runs: seq<Run>, r: Run)
    requires InOrder(runs) && forall i :: 0 <= i < |runs| ==> runs[i].created <= r.created
    ensures InOrder(runs + [r])
  {
  }

  lemma {:induction false} InsertedSorts(runs: seq<Run>, r: Run)
    requires InOrder(runs)
    ensures InOrder(Inserted(runs, r)) && multiset(Inserted(runs, r)) == multiset(runs) + multiset{r}
  {
    if runs == [] {
      InOrderAppend(runs, r);
    } else {
      var less, last := runs[..|runs| - 1], runs[|runs| - 1];
      assert runs == less + [last];
      if last.created <= r.created {
        InOrderAppend(runs, r);
      } else {
        InsertedSorts(less, r);
        var ins := Inserted(less, r);
        forall i | 0 <= i < |ins| ensures ins[i].created <= last.created {
          assert ins[i] in multiset(ins);
          assert ins[i] in multiset(less) || ins[i] == r;
        }
        InOrderAppend(ins, last);
      }
    }
  }

  lemma {:induction false} ByCreatedSorts(runs: seq<Run>)
    ensures InOrder(ByCreated(runs)) && multiset(ByCreated(runs)) == multiset(runs) && |ByCreated(runs)| == |runs|
  {
    if runs != [] {
      ByCreatedSorts(runs[..|runs| - 1]);
      InsertedSorts(ByCreated(runs[..|runs| - 1]), runs[|runs| - 1]);
      assert runs == runs[..|runs| - 1] + [runs[|runs| - 1]];
    }
    assert |multiset(ByCreated(runs))| == |ByCreated(runs)| && |multiset(runs)| == |runs|;
  }

  datatype Unit = Unit(key: Key, runs: seq<Run>, ended: bool, delivered: bool, revise: nat)

  /** A run whose success is a delivery. */
  predicate Delivers(r: Run) {
    r.succeeded && r.kind in {Implement, Revise, Plan, Test}
  }

  predicate KnownPipeline(h: History, key: Key) {
    key.Pipe? && key.pipeline in h.pipelines
  }

  /** A pipeline's unit ends as the pipeline does; any other once none of its runs is active, and it delivered
      when one of them did. */
  ghost predicate Settles(h: History, u: Unit) {
    if KnownPipeline(h, u.key)
    then u.ended == (h.pipelines[u.key.pipeline] != Running) && u.delivered == (h.pipelines[u.key.pipeline] == Approved)
    else && u.ended == (forall i :: 0 <= i < |u.runs| ==> !u.runs[i].active)
         && u.delivered == (exists i :: 0 <= i < |u.runs| && Delivers(u.runs[i]))
  }

  function Revisions(runs: seq<Run>): nat {
    if runs == [] then 0 else Revisions(runs[..|runs| - 1]) + if runs[|runs| - 1].kind == Revise then 1 else 0
  }

  ghost predicate UnitOf(h: History, u: Unit)
    requires Indexed(h)
  {
    u.runs == ByCreated(Under(h, h.runs, u.key)) && u.runs != [] && Settles(h, u) && u.revise == Revisions(u.runs)
  }

  function Flat(units: seq<Unit>): seq<Run> {
    if units == [] then [] else Flat(units[..|units| - 1]) + units[|units| - 1].runs
  }

  /** Exactly the units of a history: one for each key a run has, and nothing of the history left out. */
  ghost predicate AreUnits(h: History, units: seq<Unit>)
    requires Indexed(h)
  {
    && (forall i :: 0 <= i < |units| ==> UnitOf(h, units[i]))
    && (forall i, j :: 0 <= i < j < |units| ==> units[i].key != units[j].key)
    && multiset(Flat(units)) == multiset(h.runs)
  }

  // ---------------------------------------------------------------- grouping

  ghost predicate Grouped(h: History, n: nat, order: seq<Key>, byKey: map<Key, seq<Run>>)
    requires Indexed(h) && n <= |h.runs|
  {
    && (forall i, j :: 0 <= i < j < |order| ==> order[i] != order[j])
    && (forall k :: k in byKey <==> k in order)
    && (forall k :: k in byKey ==> byKey[k] == Under(h, h.runs[..n], k) && byKey[k] != [])
    && (forall k :: k !in byKey ==> Under(h, h.runs[..n], k) == [])
    && Pool(order, byKey) == multiset(h.runs[..n])
  }

  ghost function Pool(order: seq<Key>, byKey: map<Key, seq<Run>>): multiset<Run>
    requires forall k :: k in order ==> k in byKey
  {
    if order == [] then multiset{}
    else Pool(order[..|order| - 1], byKey) + multiset(byKey[order[|order| - 1]])
  }

  lemma {:induction false} PoolSame(order: seq<Key>, byKey: map<Key, seq<Run>>, key: Key, runs: seq<Run>)
    requires (forall k :: k in order ==> k in byKey) && key !in order
    ensures Pool(order, byKey[key := runs]) == Pool(order, byKey)
  {
    if order != [] {
      PoolSame(order[..|order| - 1], byKey, key, runs);
    }
  }

  lemma {:induction false} PoolGrows(order: seq<Key>, byKey: map<Key, seq<Run>>, key: Key, r: Run)
    requires (forall k :: k in order ==> k in byKey) && key in order
    requires forall i, j :: 0 <= i < j < |order| ==> order[i] != order[j]
    ensures Pool(order, byKey[key := byKey[key] + [r]]) == Pool(order, byKey) + multiset{r}
  {
    var last := order[|order| - 1];
    if last == key {
      PoolSame(order[..|order| - 1], byKey, key, byKey[key] + [r]);
    } else {
      PoolGrows(order[..|order| - 1], byKey, key, r);
    }
  }

  lemma UnderNext(h: History, n: nat, key: Key)
    requires Indexed(h) && n < |h.runs|
    ensures Under(h, h.runs[..n + 1], key)
            == Under(h, h.runs[..n], key) + if KeyOf(h, h.runs[n]) == key then [h.runs[n]] else []
  {
    assert h.runs[..n + 1][..n] == h.runs[..n];
  }

  /** What byKey says of a key once a run more is grouped. */
  ghost predicate GroupIs(h: History, n: nat, byKey: map<Key, seq<Run>>, k: Key)
    requires Indexed(h) && n <= |h.runs|
  {
    if k in byKey then byKey[k] == Under(h, h.runs[..n], k) && byKey[k] != [] else Under(h, h.runs[..n], k) == []
  }

  lemma GroupNext(h: History, n: nat, byKey: map<Key, seq<Run>>, byKey': map<Key, seq<Run>>, k: Key)
    requires Indexed(h) && n < |h.runs| && GroupIs(h, n, byKey, k)
    requires var key := KeyOf(h, h.runs[n]);
             byKey' == byKey[key := (if key in byKey then byKey[key] else []) + [h.runs[n]]]
    ensures GroupIs(h, n + 1, byKey', k)
  {
    hide Under, KeyOf;
    UnderNext(h, n, k);
  }

  /** One more run in its group. */
  lemma GroupOneMore(h: History, n: nat, order: seq<Key>, byKey: map<Key, seq<Run>>, key: Key)
    requires Indexed(h) && n < |h.runs| && Grouped(h, n, order, byKey) && key == KeyOf(h, h.runs[n])
    ensures if key in byKey then Grouped(h, n + 1, order, byKey[key := byKey[key] + [h.runs[n]]])
            else Grouped(h, n + 1, order + [key], byKey[key := [] + [h.runs[n]]])
  {
    hide Under, KeyOf, Pool;
    var r := h.runs[n];
    var byKey' := byKey[key := (if key in byKey then byKey[key] else []) + [r]];
    assert h.runs[..n + 1] == h.runs[..n] + [r];
    var m := n + 1;
    forall k ensures GroupIs(h, m, byKey', k) {
      assert GroupIs(h, n, byKey, k);
      GroupNext(h, n, byKey, byKey', k);
    }
    if key in byKey {
      PoolGrows(order, byKey, key, r);
      Regrouped(h, n + 1, order, byKey');
    } else {
      PoolNew(order, byKey, key, r);
      Regrouped(h, n + 1, order + [key], byKey');
    }
  }

  lemma PoolNew(order: seq<Key>, byKey: map<Key, seq<Run>>, key: Key, r: Run)
    requires (forall k :: k in order ==> k in byKey) && key !in order
    ensures Pool(order + [key], byKey[key := [] + [r]]) == Pool(order, byKey) + multiset{r}
  {
    assert (order + [key])[..|order|] == order && [] + [r] == [r];
    PoolSame(order, byKey, key, [] + [r]);
  }

  lemma Regrouped(h: History, n: nat, order: seq<Key>, byKey: map<Key, seq<Run>>)
    requires Indexed(h) && n <= |h.runs| && forall k :: GroupIs(h, n, byKey, k)
    requires forall i, j :: 0 <= i < j < |order| ==> order[i] != order[j]
    requires (forall k :: k in byKey <==> k in order) && Pool(order, byKey) == multiset(h.runs[..n])
    ensures Grouped(h, n, order, byKey)
  {
    hide Under, Pool;
    forall k | k in byKey ensures byKey[k] == Under(h, h.runs[..n], k) && byKey[k] != [] {
      assert GroupIs(h, n, byKey, k);
    }
    forall k | k !in byKey ensures Under(h, h.runs[..n], k) == [] {
      assert GroupIs(h, n, byKey, k);
    }
  }

  method GroupRuns(h: History) returns (order: seq<Key>, byKey: map<Key, seq<Run>>)
    requires Indexed(h)
    ensures Grouped(h, |h.runs|, order, byKey)
  {
    hide Grouped, Root, Under;
    order, byKey := [], map[];
    NoneGrouped(h);
    for n := 0 to |h.runs|
      invariant Grouped(h, n, order, byKey)
    {
      var r := h.runs[n];
      var key;
      if r.pipeline.Some? {
        key := Pipe(r.pipeline.value);
      } else {
        var root := LineageRoot(h.byId, r);
        key := Line(root);
      }
      GroupOneMore(h, n, order, byKey, key);
      ghost var before := byKey;
      if key !in byKey {
        byKey := byKey[key := []];
        order := order + [key];
        NewGroup(before, key, r);
      }
      byKey := byKey[key := byKey[key] + [r]];
    }
  }

  lemma NewGroup(byKey: map<Key, seq<Run>>, key: Key, r: Run)
    requires key !in byKey
    ensures var made := byKey[key := []]; made[key := made[key] + [r]] == byKey[key := [] + [r]]
  {
  }

  lemma NoneGrouped(h: History)
    requires Indexed(h)
    ensures Grouped(h, 0, [], map[])
  {
  }

  /** What the loop over a unit's runs finds out. */
  method Tallied(runs: seq<Run>) returns (active: bool, delivered: bool, revise: nat)
    ensures active == exists k :: 0 <= k < |runs| && runs[k].active
    ensures delivered == exists k :: 0 <= k < |runs| && Delivers(runs[k])
    ensures revise == Revisions(runs)
  {
    hide Delivers;
    active, delivered, revise := false, false, 0;
    for i := 0 to |runs|
      invariant active == exists k :: 0 <= k < i && runs[k].active
      invariant delivered == exists k :: 0 <= k < i && Delivers(runs[k])
      invariant revise == Revisions(runs[..i])
    {
      assert runs[..i + 1][..i] == runs[..i];
      active := active || runs[i].active;
      delivered := delivered || Delivers(runs[i]);
      if runs[i].kind == Revise {
        revise := revise + 1;
      }
    }
    assert runs[..|runs|] == runs;
  }

  method Summed(h: History, key: Key, runs: seq<Run>) returns (u: Unit)
    ensures u.key == key && u.runs == ByCreated(runs) && Settles(h, u) && u.revise == Revisions(u.runs)
  {
    hide Delivers, Revisions, ByCreated;
    var sorted := ByCreated(runs);
    var active, delivered, revise := Tallied(sorted);
    if KnownPipeline(h, key) {
      var status := h.pipelines[key.pipeline];
      return Unit(key, sorted, status != Running, status == Approved, revise);
    }
    return Unit(key, sorted, !active, delivered, revise);
  }

  /** Every run in its unit, in the order the units were first come to. */
  method BuildUnits(h: History) returns (units: seq<Unit>)
    requires Indexed(h)
    ensures AreUnits(h, units)
  {
    hide Under, Settles, Revisions, ByCreated, Flat, Pool;
    var order, byKey := GroupRuns(h);
    assert h.runs[..|h.runs|] == h.runs;
    units := [];
    EmptyPool(order, byKey);
    for i := 0 to |order|
      invariant |units| == i && forall k :: 0 <= k < i ==> units[k].key == order[k] && UnitOf(h, units[k])
      invariant multiset(Flat(units)) == Pool(order[..i], byKey)
    {
      var u := Summed(h, order[i], byKey[order[i]]);
      ByCreatedSorts(byKey[order[i]]);
      assert UnitOf(h, u) by { assert |u.runs| == |byKey[order[i]]|; }
      PoolNext(units, u, order, byKey, i);
      units := units + [u];
    }
    assert order[..|order|] == order;
  }

  lemma EmptyPool(order: seq<Key>, byKey: map<Key, seq<Run>>)
    requires forall k :: k in order ==> k in byKey
    ensures multiset(Flat([])) == Pool(order[..0], byKey)
  {
  }

  lemma PoolNext(units: seq<Unit>, u: Unit, order: seq<Key>, byKey: map<Key, seq<Run>>, i: nat)
    requires (forall k :: k in order ==> k in byKey) && i < |order| && multiset(u.runs) == multiset(byKey[order[i]])
    requires multiset(Flat(units)) == Pool(order[..i], byKey)
    ensures multiset(Flat(units + [u])) == Pool(order[..i + 1], byKey)
  {
    assert (units + [u])[..|units|] == units && order[..i + 1][..i] == order[..i];
  }

  // ---------------------------------------------------------------- the partition

  lemma {:induction false} UnderIsKey(h: History, runs: seq<Run>, key: Key)
    requires Indexed(h)
    ensures forall r :: r in Under(h, runs, key) <==> r in runs && KeyOf(h, r) == key
  {
    hide KeyOf;
    if runs != [] {
      UnderIsKey(h, runs[..|runs| - 1], key);
      assert runs == runs[..|runs| - 1] + [runs[|runs| - 1]];
    }
  }

  lemma {:induction false} InFlat(units: seq<Unit>, r: Run)
    requires r in Flat(units)
    ensures exists i :: 0 <= i < |units| && r in units[i].runs
  {
    if units != [] {
      if r in Flat(units[..|units| - 1]) {
        InFlat(units[..|units| - 1], r);
      }
    }
  }

  /** Every run of the history is in exactly one unit, the one of its key. */
  lemma EveryRunInOneUnit(h: History, units: seq<Unit>, r: Run)
    requires Indexed(h) && AreUnits(h, units) && r in h.runs
    ensures exists i :: 0 <= i < |units| && r in units[i].runs && units[i].key == KeyOf(h, r)
                        && forall j :: 0 <= j < |units| && r in units[j].runs ==> j == i
  {
    hide KeyOf, Under, Settles, ByCreated;
    assert r in multiset(Flat(units));
    InFlat(units, r);
    var i :| 0 <= i < |units| && r in units[i].runs;
    forall j | 0 <= j < |units| && r in units[j].runs ensures units[j].key == KeyOf(h, r) {
      InUnit(h, units[j], r);
    }
  }

  ghost predicate Together(units: seq<Unit>, r: Run, s: Run) {
    exists i :: 0 <= i < |units| && r in units[i].runs && s in units[i].runs
  }

  /** Retrying leads back from both to one run. */
  ghost predicate OfOneLine(h: History, r: Run, s: Run) {
    exists q :: Leads(h.byId, r, q) && Leads(h.byId, s, q)
  }

  /** Two runs are one unit's only when they are of one pipeline, or of none and retrying leads back from both
      to one run; and always then, but that runs of no pipeline must retry back to an end. */
  lemma UnitsAreLines(h: History, units: seq<Unit>, r: Run, s: Run)
    requires Indexed(h) && AreUnits(h, units) && r in h.runs && s in h.runs
    ensures Together(units, r, s) ==> r.pipeline == s.pipeline && (r.pipeline.Some? || OfOneLine(h, r, s))
    ensures r.pipeline == s.pipeline && (r.pipeline.Some? || (Ends(h.byId, r) && OfOneLine(h, r, s)))
            ==> Together(units, r, s)
  {
    hide AreUnits, UnitOf, Root, Leads, Ends;
    SameKeyTogether(h, units, r, s);
    CommonRoot(h.byId, r, s);
  }

  lemma SameKeyTogether(h: History, units: seq<Unit>, r: Run, s: Run)
    requires Indexed(h) && AreUnits(h, units) && r in h.runs && s in h.runs
    ensures Together(units, r, s) <==> KeyOf(h, r) == KeyOf(h, s)
  {
    hide KeyOf, UnitOf;
    EveryRunInOneUnit(h, units, r);
    var i :| 0 <= i < |units| && r in units[i].runs && units[i].key == KeyOf(h, r);
    InUnit(h, units[i], s);
    if j :| 0 <= j < |units| && r in units[j].runs && s in units[j].runs {
      InUnit(h, units[j], r);
      InUnit(h, units[j], s);
    }
  }

  lemma InUnit(h: History, u: Unit, r: Run)
    requires Indexed(h) && UnitOf(h, u)
    ensures r in u.runs <==> r in h.runs && KeyOf(h, r) == u.key
  {
    hide KeyOf;
    ByCreatedSorts(Under(h, h.runs, u.key));
    UnderIsKey(h, h.runs, u.key);
    assert r in u.runs <==> r in multiset(u.runs);
  }

  // ---------------------------------------------------------------- costs along a dimension

  function Value(m: map<nat, real>, k: nat): real {
    if k in m then m[k] else 0.0
  }

  function Times(m: map<nat, nat>, k: nat): nat {
    if k in m then m[k] else 0
  }

  ghost function Sum(m: map<nat, real>): real
    decreases |m|
  {
    if m == map[] then 0.0
    else
      var k :| k in m;
      Fewer(m, k);
      m[k] + Sum(m - {k})
  }

  ghost function SumTimes(m: map<nat, nat>): nat
    decreases |m|
  {
    if m == map[] then 0
    else
      var k :| k in m;
      Fewer(m, k);
      m[k] + SumTimes(m - {k})
  }

  lemma Fewer<T>(m: map<nat, T>, k: nat)
    requires k in m
    ensures |m - {k}| < |m|
  {
    assert m.Keys == (m - {k}).Keys + {k};
    assert |m| == |m.Keys| && |m - {k}| == |(m - {k}).Keys|;
  }

  /** A map's sum does not depend on where it is begun. */
  lemma {:induction false} SumFrom(m: map<nat, real>, k: nat)
    requires k in m
    ensures Sum(m) == m[k] + Sum(m - {k})
    decreases |m|
  {
    var j :| j in m && Sum(m) == m[j] + Sum(m - {j});
    if j != k {
      Fewer(m, j);
      Fewer(m, k);
      SumFrom(m - {j}, k);
      SumFrom(m - {k}, j);
      assert m - {j} - {k} == m - {k} - {j};
    }
  }

  lemma {:induction false} SumTimesFrom(m: map<nat, nat>, k: nat)
    requires k in m
    ensures SumTimes(m) == m[k] + SumTimes(m - {k})
    decreases |m|
  {
    var j :| j in m && SumTimes(m) == m[j] + SumTimes(m - {j});
    if j != k {
      Fewer(m, j);
      Fewer(m, k);
      SumTimesFrom(m - {j}, k);
      SumTimesFrom(m - {k}, j);
      assert m - {j} - {k} == m - {k} - {j};
    }
  }

  lemma SumAdd(m: map<nat, real>, k: nat, c: real)
    ensures Sum(m[k := Value(m, k) + c]) == Sum(m) + c
  {
    var m' := m[k := Value(m, k) + c];
    SumFrom(m', k);
    assert m' - {k} == m - {k};
    if k in m { SumFrom(m, k); } else { assert m - {k} == m; }
  }

  lemma SumTimesAdd(m: map<nat, nat>, k: nat)
    ensures SumTimes(m[k := Times(m, k) + 1]) == SumTimes(m) + 1
  {
    var m' := m[k := Times(m, k) + 1];
    SumTimesFrom(m', k);
    assert m' - {k} == m - {k};
    if k in m { SumTimesFrom(m, k); } else { assert m - {k} == m; }
  }

  /** How a run's place along a dimension is told. */
  type By = Run -> nat

  function Cost(runs: seq<Run>): real {
    if runs == [] then 0.0 else Cost(runs[..|runs| - 1]) + runs[|runs| - 1].cost
  }

  function CostAt(runs: seq<Run>, by_: By, k: nat): real {
    if runs == [] then 0.0
    else CostAt(runs[..|runs| - 1], by_, k) + if by_(runs[|runs| - 1]) == k then runs[|runs| - 1].cost else 0.0
  }

  function TimesAt(runs: seq<Run>, by_: By, k: nat): nat {
    if runs == [] then 0
    else TimesAt(runs[..|runs| - 1], by_, k) + if by_(runs[|runs| - 1]) == k then 1 else 0
  }

  /** Cost and runs summed by value. */
  class Dimension {
    var cost: map<nat, real>
    var runs: map<nat, nat>

    constructor ()
      ensures cost == map[] && runs == map[]
    {
      cost, runs := map[], map[];
    }

    method Add(k: nat, r: Run)
      modifies this
      ensures cost == old(cost)[k := Value(old(cost), k) + r.cost]
      ensures runs == old(runs)[k := Times(old(runs), k) + 1]
    {
      cost := cost[k := Value(cost, k) + r.cost];
      runs := runs[k := Times(runs, k) + 1];
    }

    /** What it holds after the runs counted: at each value the cost and number of the runs there, and over
        all values the whole cost and number of them. */
    ghost predicate Holds(counted: seq<Run>, by_: By)
      reads this
    {
      && (forall k :: Value(cost, k) == CostAt(counted, by_, k) && Times(runs, k) == TimesAt(counted, by_, k))
      && Sum(cost) == Cost(counted) && SumTimes(runs) == |counted|
    }

    method Count(r: Run, by_: By, ghost counted: seq<Run>)
      requires Holds(counted, by_)
      modifies this
      ensures Holds(counted + [r], by_)
    {
      hide Sum, SumTimes, CostAt, TimesAt, Cost;
      SumAdd(cost, by_(r), r.cost);
      SumTimesAdd(runs, by_(r));
      CountedMore(counted, r, by_);
      Add(by_(r), r);
    }
  }

  lemma CountedMore(counted: seq<Run>, r: Run, by_: By)
    ensures Cost(counted + [r]) == Cost(counted) + r.cost
    ensures forall k :: CostAt(counted + [r], by_, k) == CostAt(counted, by_, k) + if by_(r) == k then r.cost else 0.0
    ensures forall k :: TimesAt(counted + [r], by_, k) == TimesAt(counted, by_, k) + if by_(r) == k then 1 else 0
  {
    assert (counted + [r])[..|counted|] == counted;
  }

  // ---------------------------------------------------------------- the report

  function Counted(units: seq<Unit>): seq<Run> {
    if units == [] then []
    else
      var u := units[|units| - 1];
      Counted(units[..|units| - 1]) + if u.ended then WorkOf(u.runs) else []
  }

  /** The runs that are not checks of another's work. */
  function WorkOf(runs: seq<Run>): seq<Run> {
    if runs == [] then []
    else WorkOf(runs[..|runs| - 1]) + if runs[|runs| - 1].kind == Verify then [] else [runs[|runs| - 1]]
  }

  const UNKNOWN := 0

  function ByRole(r: Run): nat { r.role }
  function ByAgent(r: Run): nat { r.agent }
  function NodeTypeOf(r: Run): nat { if r.nodeType == None then UNKNOWN else r.nodeType.value }

  datatype Totals = Totals(cost: real, estimated: real, runs: nat, units: nat, delivered: nat, firstPass: nat,
                           revise: nat)

  function Estimated(runs: seq<Run>): real {
    if runs == [] then 0.0
    else Estimated(runs[..|runs| - 1]) + if runs[|runs| - 1].estimated then runs[|runs| - 1].cost else 0.0
  }

  function UnitTotals(units: seq<Unit>): (nat, nat, nat, nat) {
    if units == [] then (0, 0, 0, 0)
    else
      var (ended, delivered, firstPass, revise) := UnitTotals(units[..|units| - 1]);
      var u := units[|units| - 1];
      if !u.ended then (ended, delivered, firstPass, revise)
      else (ended + 1, delivered + (if u.delivered then 1 else 0),
            firstPass + (if u.delivered && u.revise == 0 then 1 else 0), revise + u.revise)
  }

  /** Totals over the ended units, and the same costs and runs by role, by agent, by model and by node type:
      each grouping adds up to the totals. modelKey tells an agent's models apart. */
  method ComputeInsights(units: seq<Unit>, modelKey: By)
      returns (totals: Totals, byRole: Dimension, byAgent: Dimension, byModel: Dimension, byType: Dimension)
    ensures totals.cost == Cost(Counted(units)) && totals.runs == |Counted(units)|
    ensures totals.estimated == Estimated(Counted(units))
    ensures (totals.units, totals.delivered, totals.firstPass, totals.revise) == UnitTotals(units)
    ensures byRole.Holds(Counted(units), ByRole) && byAgent.Holds(Counted(units), ByAgent)
    ensures byModel.Holds(Counted(units), modelKey) && byType.Holds(Counted(units), NodeTypeOf)
  {
    hide SoFar, UnitTotals, Counted, Dimension.Holds;
    byRole := new Dimension();
    byAgent := new Dimension();
    byModel := new Dimension();
    byType := new Dimension();
    totals := Totals(0.0, 0.0, 0, 0, 0, 0, 0);
    NothingSoFar(totals, byRole, byAgent, byModel, byType, units, modelKey);
    for i := 0 to |units|
      invariant fresh(byRole) && fresh(byAgent) && fresh(byModel) && fresh(byType)
      invariant byRole != byAgent && byRole != byModel && byRole != byType
      invariant byAgent != byModel && byAgent != byType && byModel != byType
      invariant SoFar(totals, byRole, byAgent, byModel, byType, Counted(units[..i]), modelKey)
      invariant (totals.units, totals.delivered, totals.firstPass, totals.revise) == UnitTotals(units[..i])
    {
      var u := units[i];
      NextUnit(units, i, totals);
      if u.ended {
        UnitKeepsSums(totals, u, byRole, byAgent, byModel, byType, Counted(units[..i]), modelKey);
        totals := WithUnit(totals, u);
        totals := CountUnit(totals, u.runs, byRole, byAgent, byModel, byType, Counted(units[..i]), modelKey);
      }
    }
    assert units[..|units|] == units;
    AllSoFar(totals, byRole, byAgent, byModel, byType, Counted(units), modelKey);
  }

  function WithUnit(t: Totals, u: Unit): Totals {
    t.(units := t.units + 1, revise := t.revise + u.revise, delivered := t.delivered + (if u.delivered then 1 else 0),
       firstPass := t.firstPass + (if u.delivered && u.revise == 0 then 1 else 0))
  }

  lemma NextUnit(units: seq<Unit>, i: nat, t: Totals)
    requires i < |units|
    ensures Counted(units[..i + 1])
            == if units[i].ended then Counted(units[..i]) + WorkOf(units[i].runs) else Counted(units[..i])
    ensures (t.units, t.delivered, t.firstPass, t.revise) == UnitTotals(units[..i]) ==>
              var t' := if units[i].ended then WithUnit(t, units[i]) else t;
              (t'.units, t'.delivered, t'.firstPass, t'.revise) == UnitTotals(units[..i + 1])
  {
    assert units[..i + 1][..i] == units[..i];
    assert Counted(units[..i]) + [] == Counted(units[..i]);
  }

  lemma NothingSoFar(t: Totals, byRole: Dimension, byAgent: Dimension, byModel: Dimension, byType: Dimension,
                     units: seq<Unit>, modelKey: By)
    requires t == Totals(0.0, 0.0, 0, 0, 0, 0, 0)
    requires byRole.cost == byAgent.cost == byModel.cost == byType.cost == map[]
    requires byRole.runs == byAgent.runs == byModel.runs == byType.runs == map[]
    ensures SoFar(t, byRole, byAgent, byModel, byType, Counted(units[..0]), modelKey)
    ensures UnitTotals(units[..0]) == (0, 0, 0, 0)
  {
  }

  lemma UnitKeepsSums(t: Totals, u: Unit, byRole: Dimension, byAgent: Dimension, byModel: Dimension, byType: Dimension,
                      counted: seq<Run>, modelKey: By)
    requires SoFar(t, byRole, byAgent, byModel, byType, counted, modelKey)
    ensures SoFar(WithUnit(t, u), byRole, byAgent, byModel, byType, counted, modelKey)
  {
    hide Dimension.Holds;
  }

  lemma AllSoFar(t: Totals, byRole: Dimension, byAgent: Dimension, byModel: Dimension, byType: Dimension,
                 counted: seq<Run>, modelKey: By)
    requires SoFar(t, byRole, byAgent, byModel, byType, counted, modelKey)
    ensures t.cost == Cost(counted) && t.runs == |counted| && t.estimated == Estimated(counted)
    ensures byRole.Holds(counted, ByRole) && byAgent.Holds(counted, ByAgent)
    ensures byModel.Holds(counted, modelKey) && byType.Holds(counted, NodeTypeOf)
  {
    hide Dimension.Holds;
  }

  ghost predicate SoFar(totals: Totals, byRole: Dimension, byAgent: Dimension, byModel: Dimension, byType: Dimension,
                        counted: seq<Run>, modelKey: By)
    reads byRole, byAgent, byModel, byType
  {
    && totals.cost == Cost(counted) && totals.runs == |counted| && totals.estimated == Estimated(counted)
    && byRole.Holds(counted, ByRole) && byAgent.Holds(counted, ByAgent)
    && byModel.Holds(counted, modelKey) && byType.Holds(counted, NodeTypeOf)
  }

  /** One run, counted along all four. */
  method CountRun(before: Totals, r: Run, byRole: Dimension, byAgent: Dimension, byModel: Dimension, byType: Dimension,
                  ghost counted: seq<Run>, modelKey: By) returns (totals: Totals)
    requires byRole != byAgent && byRole != byModel && byRole != byType
    requires byAgent != byModel && byAgent != byType && byModel != byType
    requires SoFar(before, byRole, byAgent, byModel, byType, counted, modelKey)
    modifies byRole, byAgent, byModel, byType
    ensures SoFar(totals, byRole, byAgent, byModel, byType, counted + [r], modelKey)
    ensures totals == before.(cost := totals.cost, estimated := totals.estimated, runs := totals.runs)
  {
    hide Dimension.Holds;
    assert (counted + [r])[..|counted|] == counted;
    totals := before.(runs := before.runs + 1, cost := before.cost + r.cost,
                      estimated := before.estimated + if r.estimated then r.cost else 0.0);
    byRole.Count(r, ByRole, counted);
    byAgent.Count(r, ByAgent, counted);
    byModel.Count(r, modelKey, counted);
    byType.Count(r, NodeTypeOf, counted);
  }

  lemma WorkNext(runs: seq<Run>, i: nat, counted: seq<Run>)
    requires i < |runs|
    ensures counted + WorkOf(runs[..i + 1])
            == if runs[i].kind == Verify then counted + WorkOf(runs[..i]) else counted + WorkOf(runs[..i]) + [runs[i]]
  {
    assert runs[..i + 1][..i] == runs[..i];
  }

  /** The loop over one ended unit's runs. */
  method CountUnit(before: Totals, runs: seq<Run>, byRole: Dimension, byAgent: Dimension, byModel: Dimension,
                   byType: Dimension, ghost counted: seq<Run>, modelKey: By) returns (totals: Totals)
    requires byRole != byAgent && byRole != byModel && byRole != byType
    requires byAgent != byModel && byAgent != byType && byModel != byType
    requires SoFar(before, byRole, byAgent, byModel, byType, counted, modelKey)
    modifies byRole, byAgent, byModel, byType
    ensures SoFar(totals, byRole, byAgent, byModel, byType, counted + WorkOf(runs), modelKey)
    ensures totals == before.(cost := totals.cost, estimated := totals.estimated, runs := totals.runs)
  {
    hide SoFar;
    totals := before;
    assert counted + WorkOf(runs[..0]) == counted;
    for i := 0 to |runs|
      invariant SoFar(totals, byRole, byAgent, byModel, byType, counted + WorkOf(runs[..i]), modelKey)
      invariant totals == before.(cost := totals.cost, estimated := totals.estimated, runs := totals.runs)
    {
      WorkNext(runs, i, counted);
      if runs[i].kind != Verify {
        totals := CountRun(totals, runs[i], byRole, byAgent, byModel, byType, counted + WorkOf(runs[..i]), modelKey);
      }
    }
    assert runs[..|runs|] == runs;
  }
}
