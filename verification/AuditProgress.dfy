/** Nobody waits for the audit writer for ever: its own steps alone free every caller, flush and Close. */
module AuditProgress {
  import opened Prelude
  import opened AuditQueue

  predicate WritersOwn(e: Event) {
    e.Receive? || e.WriteRow? || e.Publish?
  }

  ghost predicate WritersRun(q: Queue, es: seq<Event>) {
    Run(q, es) && forall i :: 0 <= i < |es| ==> WritersOwn(es[i])
  }

  /** The steps the writer still has before it. */
  function StepsLeft(q: Queue): nat {
    3 * |q.ch| + match q.writer case Free => 0 case Writing(_) => 2 case Wrote(_) => 1
  }

  function NextStep(q: Queue): Event
    requires StepsLeft(q) > 0
  {
    match q.writer case Free => Receive case Writing(_) => WriteRow case Wrote(_) => Publish
  }

  lemma NextStepIsPossible(q: Queue)
    requires StepsLeft(q) > 0
    ensures Can(q, NextStep(q)) && WritersOwn(NextStep(q))
    ensures var q' := After(q, NextStep(q));
            && StepsLeft(q') < StepsLeft(q)
            && q'.callers == q.callers && q'.flushers == q.flushers && q'.closed == q.closed && q'.lastSeq == q.lastSeq
  {
  }

  /** From any state the writer's own steps come to where every queued row is finished and reported. */
  lemma {:induction false} WriterCatchesUp(q: Queue) returns (es: seq<Event>)
    requires InOrder(q)
    ensures WritersRun(q, es)
    ensures var r := End(q, es);
            && r.ch == [] && r.writer == Free && r.written == r.lastSeq == q.lastSeq
            && r.callers == q.callers && r.flushers == q.flushers && r.closed == q.closed && InOrder(r)
    decreases StepsLeft(q)
  {
    hide Can, After, InOrder;
    if StepsLeft(q) == 0 {
      es := [];
      AllFinished(q);
    } else {
      var e := NextStep(q);
      NextStepIsPossible(q);
      StepKeepsOrder(q, e);
      var rest := WriterCatchesUp(After(q, e));
      es := [e] + rest;
      assert es[1..] == rest;
    }
  }

  lemma AllFinished(q: Queue)
    requires InOrder(q) && StepsLeft(q) == 0
    ensures q.ch == [] && q.writer == Free && q.written == q.lastSeq
  {
    hide Queued;
    assert q.queued[q.written..] == [];
  }

  /** So a flush that waits can return, a caller that waits can go on to write its row, and a closed queue's writer
      can finish; none of them needs anybody else to move. */
  lemma NobodyWaitsForEver(q: Queue, es: seq<Event>) returns (more: seq<Event>)
    requires Fresh(q) && Run(q, es)
    ensures WritersRun(End(q, es), more)
    ensures var s, r := End(q, es), End(End(q, es), more);
            && (forall f :: 0 <= f < |s.flushers| && s.flushers[f].Awaiting? ==> Can(r, FlushReturns(f)))
            && (forall c :: 0 <= c < |s.callers| && s.callers[c].Waiting? ==>
                  Can(r, WaitEnds(c)) && Can(After(r, WaitEnds(c)), WriteDirect(c)))
            && (s.closed ==> Can(r, Finish) && After(r, Finish).finished)
  {
    hide Run, End, WritersRun;
    FreshIsSound(q);
    RunKeepsSound(q, es);
    more := WriterCatchesUp(End(q, es));
    forall c | 0 <= c < |End(q, es).callers| && End(q, es).callers[c].Waiting?
      ensures End(q, es).callers[c].ahead <= End(q, es).lastSeq
    {
      WaitIsBounded(q, es, c);
    }
  }

  lemma StepBoundsWait(q: Queue, e: Event, c: Caller)
    requires Can(q, e) && c < |q.callers| && (q.callers[c].Waiting? ==> q.callers[c].ahead <= q.lastSeq)
    ensures c < |After(q, e).callers|
    ensures After(q, e).callers[c].Waiting? ==> After(q, e).callers[c].ahead <= After(q, e).lastSeq
  {
  }

  lemma {:induction false} RunBoundsWait(q: Queue, es: seq<Event>, c: Caller)
    requires Run(q, es) && c < |q.callers| && (q.callers[c].Waiting? ==> q.callers[c].ahead <= q.lastSeq)
    ensures c < |End(q, es).callers|
    ensures End(q, es).callers[c].Waiting? ==> End(q, es).callers[c].ahead <= End(q, es).lastSeq
    decreases |es|
  {
    hide Can, After;
    if es != [] {
      StepBoundsWait(q, es[0], c);
      RunBoundsWait(After(q, es[0]), es[1..], c);
    }
  }

  lemma WaitIsBounded(q: Queue, es: seq<Event>, c: Caller)
    requires Fresh(q) && Run(q, es) && c < |End(q, es).callers| && End(q, es).callers[c].Waiting?
    ensures End(q, es).callers[c].ahead <= End(q, es).lastSeq
  {
    SameCallers(q, es);
    RunBoundsWait(q, es, c);
  }
}
