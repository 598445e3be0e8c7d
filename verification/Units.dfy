/** Runs grouped into the units of delivery they belong to: a pipeline's, or a chain of retries. */
module Units {
  import opened Prelude

  datatype Kind = Implement | Revise | Plan | Test | Verify | OtherKind

  /** A run, and the run it retries when it is a retry. */
  datatype Run = Run(id: nat, pipeline: Option<nat>, retryOf: Option<nat>, created: int, kind: Kind, active: bool,
                     succeeded: bool, role: nat, agent: nat, model: nat, nodeType: Option<nat>, cost: real,
                     estimated: bool)

  datatype PipelineStatus = Running | Approved | Ended

  /** byId finds each run of the history by its id. */
  datatype History = History(runs: seq<Run>, byId: map<nat, Run>, pipelines: map<nat, PipelineStatus>)

  ghost predicate Indexed(h: History) {
    && (forall k :: k in h.byId ==> h.byId[k].id == k)
    && (forall i :: 0 <= i < |h.runs| ==> h.runs[i].id in h.byId && h.byId[h.runs[i].id] == h.runs[i])
    && (forall i, j :: 0 <= i < j < |h.runs| ==> h.runs[i].id != h.runs[j].id)
  }

  // ---------------------------------------------------------------- the root of a retry chain

  ghost predicate IdsRight(byId: map<nat, Run>) {
    forall k :: k in byId ==> byId[k].id == k
  }

  /** The run r retries, when the history has it. */
  function Parent(byId: map<nat, Run>, r: Run): Option<Run> {
    if r.retryOf.Some? && r.retryOf.value in byId then Some(byId[r.retryOf.value]) else None
  }

  /** Where following retries from r ends: at a run that retries none the history has, or one seen before. */
  ghost function Followed(byId: map<nat, Run>, r: Run, seen: set<nat>): nat
    requires IdsRight(byId)
    decreases |byId.Keys - seen|
  {
    match Parent(byId, r)
    case None => r.id
    case Some(p) =>
      if p.id in seen then r.id
      else
        FewerUnseen(byId, seen, p.id);
        Followed(byId, p, seen + {p.id})
  }

  ghost function Root(byId: map<nat, Run>, r: Run): nat
    requires IdsRight(byId)
  {
    Followed(byId, r, {r.id})
  }

  lemma FewerUnseen(byId: map<nat, Run>, seen: set<nat>, id: nat)
    requires id in byId && id !in seen
    ensures |byId.Keys - (seen + {id})| < |byId.Keys - seen|
  {
    assert byId.Keys - seen == (byId.Keys - (seen + {id})) + {id};
  }

  method LineageRoot(byId: map<nat, Run>, r: Run) returns (root: nat)
    requires IdsRight(byId)
    ensures root == Root(byId, r)
  {
    var seen := {r.id};
    var cur := r;
    while true
      invariant Followed(byId, cur, seen) == Root(byId, r)
      decreases |byId.Keys - seen|
    {
      if cur.retryOf.None? || cur.retryOf.value !in byId {
        return cur.id;
      }
      var parent := byId[cur.retryOf.value];
      if parent.id in seen {
        return cur.id;
      }
      FewerUnseen(byId, seen, parent.id);
      seen := seen + {parent.id};
      cur := parent;
    }
  }

  /** The run n retries back from r. */
  function Back(byId: map<nat, Run>, r: Run, n: nat): Option<Run> {
    if n == 0 then Some(r)
    else
      match Back(byId, r, n - 1)
      case None => None
      case Some(q) => Parent(byId, q)
  }

  /** One step back is to the run of the history whose id the run there gives as the one it retries. */
  lemma BackExactly(byId: map<nat, Run>, r: Run, n: nat, q: Run)
    requires IdsRight(byId)
    ensures Back(byId, r, 0) == Some(r)
    ensures Back(byId, r, n + 1) == Some(q) <==>
              && Back(byId, r, n).Some? && Back(byId, r, n).value.retryOf == Some(q.id)
              && q.id in byId && byId[q.id] == q
  {
    assert Back(byId, r, 0) == Some(r);
  }

  /** Whether retrying leads from r back to r by way of some other run. */
  ghost predicate OnCycle(byId: map<nat, Run>, r: Run) {
    exists n: nat :: n >= 2 && CyclesAt(byId, r, n)
  }

  /** n is the length of the cycle r is on. */
  ghost predicate CyclesAt(byId: map<nat, Run>, r: Run, n: nat) {
    n >= 1 && Back(byId, r, n) == Some(r) && forall m: nat :: 1 <= m < n ==> Back(byId, r, m) != Some(r)
  }

  lemma {:induction false} BackAdd(byId: map<nat, Run>, r: Run, n: nat, m: nat)
    requires Back(byId, r, n).Some?
    ensures Back(byId, r, n + m) == Back(byId, Back(byId, r, n).value, m)
  {
    if m > 0 {
      BackAdd(byId, r, n, m - 1);
    }
  }

  /** A run never come to again does not matter to where following ends. */
  lemma {:induction false} NeverSeen(byId: map<nat, Run>, r: Run, seen: set<nat>, x: nat)
    requires IdsRight(byId) && forall n: nat :: Back(byId, r, n).Some? && n > 0 ==> Back(byId, r, n).value.id != x
    ensures Followed(byId, r, seen + {x}) == Followed(byId, r, seen)
    decreases |byId.Keys - seen|
  {
    match Parent(byId, r)
    case None =>
    case Some(p) =>
      assert Back(byId, r, 0) == Some(r);
      assert Back(byId, r, 1) == Some(p);
      if p.id !in seen {
        FewerUnseen(byId, seen, p.id);
        forall n: nat | Back(byId, p, n).Some? && n > 0 ensures Back(byId, p, n).value.id != x {
          BackAdd(byId, r, 1, n);
        }
        NeverSeen(byId, p, seen + {p.id}, x);
        assert seen + {x} + {p.id} == seen + {p.id} + {x};
      }
  }

  /** The runs from s to i retries back. */
  ghost function Passed(byId: map<nat, Run>, r: Run, s: nat, i: nat): set<nat>
    requires forall n: nat :: Back(byId, r, n).Some?
  {
    set n | s <= n <= i :: Back(byId, r, n).value.id
  }

  lemma {:induction false} CycleGoesOn(byId: map<nat, Run>, r: Run, k: nat, n: nat)
    requires CyclesAt(byId, r, k)
    ensures Back(byId, r, n).Some?
  {
    if n > k {
      BackAdd(byId, r, k, n - k);
      CycleGoesOn(byId, r, k, n - k);
    } else {
      BackSome(byId, r, n, k);
    }
  }

  lemma {:induction false} BackSome(byId: map<nat, Run>, r: Run, n: nat, k: nat)
    requires n <= k && Back(byId, r, k).Some?
    ensures Back(byId, r, n).Some?
  {
    if n < k {
      BackSome(byId, r, n, k - 1);
    }
  }

  /** Nothing on a cycle is passed twice within its length. */
  lemma AllDifferent(byId: map<nat, Run>, r: Run, k: nat, a: nat, b: nat)
    requires IdsRight(byId) && r.id in byId && byId[r.id] == r && CyclesAt(byId, r, k) && a < b <= k && b < a + k
    requires forall n: nat :: Back(byId, r, n).Some?
    ensures Back(byId, r, a).value.id != Back(byId, r, b).value.id
  {
    BackIsIndexed(byId, r, a);
    BackIsIndexed(byId, r, b);
    BackAdd(byId, r, a, k - b);
    BackAdd(byId, r, b, k - b);
    assert Back(byId, r, a + (k - b)) != Some(r);
  }

  lemma {:induction false} BackIsIndexed(byId: map<nat, Run>, r: Run, n: nat)
    requires IdsRight(byId) && r.id in byId && byId[r.id] == r && Back(byId, r, n).Some?
    ensures var q := Back(byId, r, n).value; q.id in byId && byId[q.id] == q
  {
  }

  /** Following from s retries back goes once round the cycle. */
  lemma {:induction false} FollowedRound(byId: map<nat, Run>, r: Run, k: nat, s: nat, i: nat)
    requires IdsRight(byId) && r.id in byId && byId[r.id] == r && CyclesAt(byId, r, k) && s <= 1 && s <= i <= s + k - 1
    requires forall n: nat :: Back(byId, r, n).Some?
    ensures Followed(byId, Back(byId, r, i).value, Passed(byId, r, s, i)) == Back(byId, r, s + k - 1).value.id
    decreases s + k - 1 - i
  {
    hide Back, CyclesAt, Passed;
    var q, p := Back(byId, r, i).value, Back(byId, r, i + 1).value;
    ParentIsNext(byId, r, i);
    if i < s + k - 1 {
      PassesOn(byId, r, k, s, i);
      FewerUnseen(byId, Passed(byId, r, s, i), p.id) by { BackIsIndexed(byId, r, i + 1); }
      FollowedRound(byId, r, k, s, i + 1);
    } else {
      ComesRound(byId, r, k, s);
    }
  }

  lemma ParentIsNext(byId: map<nat, Run>, r: Run, i: nat)
    requires Back(byId, r, i).Some?
    ensures Back(byId, r, i + 1) == Parent(byId, Back(byId, r, i).value)
  {
  }

  lemma PassesOn(byId: map<nat, Run>, r: Run, k: nat, s: nat, i: nat)
    requires IdsRight(byId) && r.id in byId && byId[r.id] == r && CyclesAt(byId, r, k) && s <= 1 && s <= i < s + k - 1
    requires forall n: nat :: Back(byId, r, n).Some?
    ensures var p := Back(byId, r, i + 1).value;
            p.id !in Passed(byId, r, s, i) && Passed(byId, r, s, i) + {p.id} == Passed(byId, r, s, i + 1)
  {
    hide Back, CyclesAt;
    var p := Back(byId, r, i + 1).value;
    forall n: nat | s <= n <= i ensures Back(byId, r, n).value.id != p.id { AllDifferent(byId, r, k, n, i + 1); }
  }

  lemma ComesRound(byId: map<nat, Run>, r: Run, k: nat, s: nat)
    requires CyclesAt(byId, r, k) && forall n: nat :: Back(byId, r, n).Some?
    ensures Back(byId, r, s + k) == Back(byId, r, s) && Back(byId, r, s).value.id in Passed(byId, r, s, s + k - 1)
  {
    BackAdd(byId, r, k, s);
  }

  /** A run and the run it retries have the same root exactly when retrying does not lead back from it to
      itself by way of another. */
  lemma RetriesShareTheirRoot(byId: map<nat, Run>, r: Run, p: Run)
    requires IdsRight(byId) && r.id in byId && byId[r.id] == r && Parent(byId, r) == Some(p)
    ensures Root(byId, r) == Root(byId, p) <==> !OnCycle(byId, r)
  {
    assert Back(byId, r, 0) == Some(r);
    assert Back(byId, r, 1) == Some(p);
    if p.id == r.id {
      assert p == r && CyclesAt(byId, r, 1);
      forall n: nat | n >= 2 ensures !CyclesAt(byId, r, n) {
      }
    } else if OnCycle(byId, r) {
      var k: nat :| k >= 2 && CyclesAt(byId, r, k);
      forall n: nat ensures Back(byId, r, n).Some? { CycleGoesOn(byId, r, k, n); }
      assert Passed(byId, r, 0, 0) == {r.id} && Passed(byId, r, 1, 1) == {p.id};
      FollowedRound(byId, r, k, 0, 0);
      FollowedRound(byId, r, k, 1, 1);
      AllDifferent(byId, r, k, k - 1, k);
    } else {
      forall n: nat | Back(byId, p, n).Some? && n > 0 ensures Back(byId, p, n).value.id != r.id {
        BackAdd(byId, r, 1, n);
        if Back(byId, p, n).value.id == r.id {
          BackIsIndexed(byId, r, 1 + n);
          assert Back(byId, r, 1 + n) == Some(r);
          FirstReturn(byId, r, 1 + n);
        }
      }
      NeverSeen(byId, p, {p.id}, r.id);
      assert {r.id} + {p.id} == {p.id} + {r.id};
    }
  }

  /** A run come back to is come back to a first time. */
  lemma {:induction false} FirstReturn(byId: map<nat, Run>, r: Run, n: nat)
    requires n >= 1 && Back(byId, r, n) == Some(r) && Back(byId, r, 1) != Some(r)
    ensures OnCycle(byId, r)
    decreases n
  {
    if m: nat :| 1 <= m < n && Back(byId, r, m) == Some(r) {
      FirstReturn(byId, r, m);
    } else {
      assert CyclesAt(byId, r, n);
    }
  }

  // ---------------------------------------------------------------- the root is a run of the chain

  /** Retrying leads back from r to q, at once or by way of others. */
  ghost predicate Leads(byId: map<nat, Run>, r: Run, q: Run) {
    exists n: nat :: Back(byId, r, n) == Some(q)
  }

  /** Retrying back from r comes to an end. */
  ghost predicate Ends(byId: map<nat, Run>, r: Run) {
    exists n: nat :: Back(byId, r, n) == None
  }

  /** seen are the ids of the runs up to n retries back. */
  ghost predicate SeenUpTo(byId: map<nat, Run>, r: Run, n: nat, seen: set<nat>) {
    forall id :: id in seen ==> SeenAt(byId, r, n, id)
  }

  ghost predicate SeenAt(byId: map<nat, Run>, r: Run, n: nat, id: nat) {
    exists m: nat :: m <= n && Back(byId, r, m).Some? && Back(byId, r, m).value.id == id
  }

  lemma SeenOneMore(byId: map<nat, Run>, r: Run, n: nat, seen: set<nat>)
    requires SeenUpTo(byId, r, n, seen) && Back(byId, r, n + 1).Some?
    ensures SeenUpTo(byId, r, n + 1, seen + {Back(byId, r, n + 1).value.id})
  {
    hide Back;
    var next := n + 1;
    forall id | id in seen + {Back(byId, r, next).value.id} ensures SeenAt(byId, r, next, id) {
      if id in seen {
        assert SeenAt(byId, r, n, id);
      }
    }
  }

  /** Following ends at a run of the chain, which retries none, or one passed before. */
  lemma {:induction false} FollowedIsReached(byId: map<nat, Run>, r: Run, n: nat, seen: set<nat>) returns (end: nat)
    requires IdsRight(byId) && Back(byId, r, n).Some? && SeenUpTo(byId, r, n, seen)
    ensures Back(byId, r, end).Some? && Back(byId, r, end).value.id == Followed(byId, Back(byId, r, n).value, seen)
    ensures var q := Back(byId, r, end).value;
            Parent(byId, q) == None || SeenAt(byId, r, end, Parent(byId, q).value.id)
    decreases |byId.Keys - seen|
  {
    hide Back, SeenAt, SeenUpTo;
    var q := Back(byId, r, n).value;
    ParentIsNext(byId, r, n);
    match Parent(byId, q)
    case None => end := n;
    case Some(p) =>
      if p.id in seen {
        end := n;
        assert SeenAt(byId, r, n, p.id) by { SeenIn(byId, r, n, seen, p.id); }
      } else {
        FewerUnseen(byId, seen, p.id);
        SeenOneMore(byId, r, n, seen);
        end := FollowedIsReached(byId, r, n + 1, seen + {p.id});
      }
  }

  lemma SeenIn(byId: map<nat, Run>, r: Run, n: nat, seen: set<nat>, id: nat)
    requires SeenUpTo(byId, r, n, seen) && id in seen
    ensures SeenAt(byId, r, n, id)
  {
  }

  lemma {:induction false} NeverEnds(byId: map<nat, Run>, r: Run, n: nat, m: nat, k: nat)
    requires m < n && Back(byId, r, m).Some? && Back(byId, r, n) == Back(byId, r, m)
    ensures Back(byId, r, k).Some?
    decreases k
  {
    if k <= n {
      BackSome(byId, r, k, n);
    } else {
      BackAdd(byId, r, n, k - n);
      BackAdd(byId, r, m, k - n);
      NeverEnds(byId, r, n, m, m + (k - n));
    }
  }

  /** The root of a run is a run of its chain: the one its chain ends at when it ends. */
  lemma RootIsReached(byId: map<nat, Run>, r: Run) returns (n: nat)
    requires IdsRight(byId) && r.id in byId && byId[r.id] == r
    ensures Back(byId, r, n).Some? && Back(byId, r, n).value.id == Root(byId, r)
    ensures Ends(byId, r) <==> Parent(byId, Back(byId, r, n).value) == None
  {
    hide Back;
    assert Back(byId, r, 0) == Some(r) by { BackNone(byId, r); }
    assert SeenAt(byId, r, 0, r.id);
    n := FollowedIsReached(byId, r, 0, {r.id});
    ParentIsNext(byId, r, n);
    var q := Back(byId, r, n).value;
    if Parent(byId, q).Some? {
      var m: nat :| m <= n && Back(byId, r, m).Some? && Back(byId, r, m).value.id == Parent(byId, q).value.id;
      BackIsIndexed(byId, r, m);
      BackIsIndexed(byId, r, n + 1);
      forall k: nat ensures Back(byId, r, k) != None { NeverEnds(byId, r, n + 1, m, k); }
    }
  }

  lemma BackNone(byId: map<nat, Run>, r: Run)
    ensures Back(byId, r, 0) == Some(r)
  {
  }

  lemma EndIsRoot(byId: map<nat, Run>, r: Run, n: nat)
    requires IdsRight(byId) && r.id in byId && byId[r.id] == r
    requires Back(byId, r, n).Some? && Parent(byId, Back(byId, r, n).value) == None
    ensures Root(byId, r) == Back(byId, r, n).value.id && Ends(byId, r)
  {
    hide Back;
    ParentIsNext(byId, r, n);
    var end := RootIsReached(byId, r);
    ParentIsNext(byId, r, end);
    if n < end {
      BackSome(byId, r, n + 1, end);
    } else if end < n {
      BackSome(byId, r, end + 1, n);
    }
  }

  /** Runs that share a root have come from a common run; and runs that have, share it once a chain ends. */
  lemma CommonRoot(byId: map<nat, Run>, r: Run, s: Run)
    requires IdsRight(byId) && r.id in byId && byId[r.id] == r && s.id in byId && byId[s.id] == s
    ensures Root(byId, r) == Root(byId, s) ==> exists q :: Leads(byId, r, q) && Leads(byId, s, q)
    ensures Ends(byId, r) && (exists q :: Leads(byId, r, q) && Leads(byId, s, q)) ==> Root(byId, r) == Root(byId, s)
  {
    hide Back, Root;
    var n := RootIsReached(byId, r);
    var m := RootIsReached(byId, s);
    BackIsIndexed(byId, r, n);
    BackIsIndexed(byId, s, m);
    if Root(byId, r) == Root(byId, s) {
      assert Back(byId, s, m) == Some(Back(byId, r, n).value);
      assert Leads(byId, r, Back(byId, r, n).value) && Leads(byId, s, Back(byId, r, n).value);
    }
    if q :| Leads(byId, r, q) && Leads(byId, s, q) && Ends(byId, r) {
      var i: nat, j: nat :| Back(byId, r, i) == Some(q) && Back(byId, s, j) == Some(q);
      ParentIsNext(byId, r, n);
      if n < i { BackSome(byId, r, n + 1, i); }
      BackAdd(byId, r, i, n - i);
      BackAdd(byId, s, j, n - i);
      EndIsRoot(byId, s, j + (n - i));
    }
  }
}
