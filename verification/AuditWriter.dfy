/** The audit queue's fields, changed in place by its callers and its writer. */
module AuditWriter {
  import opened Prelude
  import opened AuditQueue

  class AuditWriter {
    const size: nat
    var ch: seq<Item>
    var closed: bool
    var lastSeq: nat
    var written: nat
    var trail: seq<Item>
    var callers: seq<Phase>
    ghost var queued: seq<Item>
    ghost var rushed: set<Caller>

    constructor (size: nat, callers: nat)
      ensures Fresh(Q(Free)) && this.size == size && |this.callers| == callers
    {
      this.size := size;
      ch, closed, lastSeq, written, trail := [], false, 0, 0, [];
      this.callers := seq(callers, i => Idle(0));
      queued, rushed := [], {};
    }

    /** The queue of the protocol, its writer being at writer and its flushes left aside. */
    ghost function Q(writer: Writer): Queue
      reads this
    {
      Queue(size, ch, closed, lastSeq, written, writer, false, callers, [], queued, trail, rushed)
    }

    /** The locked section of RecordOrLog. */
    method Offer(c: Caller, ghost writer: Writer)
      requires c < |callers| && callers[c].Idle?
      modifies this
      ensures Q(writer) == After(old(Q(writer)), AuditQueue.Offer(c))
    {
      var n := callers[c].n;
      if !closed {
        var place := lastSeq + 1;
        if |ch| < size {
          ch := ch + [Item(c, n, place)];
          queued := queued + [Item(c, n, place)];
          lastSeq := place;
          callers := callers[c := Idle(n + 1)];
          return;
        }
      }
      if closed {
        rushed := rushed + {c};
        callers := callers[c := Direct(n)];
      } else {
        callers := callers[c := Waiting(n, lastSeq)];
      }
    }

    /** The row a caller writes itself. */
    method WriteDirect(c: Caller, ghost writer: Writer)
      requires c < |callers| && callers[c].Direct?
      modifies `trail, `callers
      ensures Q(writer) == After(old(Q(writer)), AuditQueue.WriteDirect(c))
    {
      trail := trail + [Item(c, callers[c].n, 0)];
      callers := callers[c := Idle(callers[c].n + 1)];
    }

    method Close(ghost writer: Writer)
      modifies `closed
      ensures Q(writer) == After(old(Q(writer)), AuditQueue.Close)
    {
      closed := true;
    }

    /** What a flush's wait loop answers: written is what it reads each time it wakes, the last one being
        when its context has ended. */
    static method WaitFor(seen: seq<nat>, target: nat) returns (ok: bool, at: nat)
      requires seen != []
      ensures ok <==> exists k :: 0 <= k < |seen| && seen[k] >= target
      ensures at < |seen| && (ok ==> seen[at] >= target) && forall k :: 0 <= k < at ==> seen[k] < target
    {
      at := 0;
      while seen[at] < target
        invariant 0 <= at < |seen|
        invariant forall k :: 0 <= k < at ==> seen[k] < target
        decreases |seen| - at
      {
        if at == |seen| - 1 {
          return false, at;
        }
        at := at + 1;
      }
      ok := true;
    }

    /** The writer's turn at one row: taken, written, reported. */
    method WriteNext()
      requires ch != []
      modifies `ch, `trail, `written
      ensures Run(old(Q(Free)), [Receive, WriteRow, Publish])
      ensures Q(Free) == End(old(Q(Free)), [Receive, WriteRow, Publish])
      ensures ch == old(ch)[1..] && trail == old(trail) + [old(ch)[0]]
      ensures old(InOrder(Q(Free))) ==> InOrder(Q(Free))
    {
      hide InOrder;
      ghost var q := Q(Free);
      ThreeSteps(q);
      var item := ch[0];
      ch := ch[1..];
      trail := trail + [item];
      written := item.place;
    }

    /** The writer's loop over a closed queue: it goes on until every queued row is written. */
    method Drain()
      requires closed && InOrder(Q(Free))
      modifies `ch, `trail, `written
      ensures ch == [] && trail == old(trail) + old(ch) && written == lastSeq && InOrder(Q(Free))
    {
      hide InOrder;
      while ch != []
        invariant InOrder(Q(Free)) && trail + ch == old(trail) + old(ch)
        decreases |ch|
      {
        assert ch == [ch[0]] + ch[1..];
        WriteNext();
      }
      DrainedIsReported(Q(Free));
    }
  }

  lemma DrainedIsReported(q: Queue)
    requires InOrder(q) && q.ch == [] && q.writer.Free?
    ensures q.written == q.lastSeq
  {
    hide Queued;
    assert q.queued[q.written..] == [];
  }

  lemma ThreeSteps(q: Queue)
    requires q.writer.Free? && q.ch != []
    ensures Run(q, [Receive, WriteRow, Publish])
    ensures End(q, [Receive, WriteRow, Publish])
            == q.(ch := q.ch[1..], trail := q.trail + [q.ch[0]], written := q.ch[0].place)
    ensures InOrder(q) ==> InOrder(End(q, [Receive, WriteRow, Publish]))
  {
    hide InOrder;
    var es := [Receive, WriteRow, Publish];
    assert es[1..] == [WriteRow, Publish] && es[1..][1..] == [Publish];
    var q1 := After(q, Receive);
    var q2 := After(q1, WriteRow);
    RunOf(q2, [Publish], After(q2, Publish));
    RunOf(q1, es[1..], q2);
    RunOf(q, es, q1);
    if InOrder(q) {
      StepKeepsOrder(q, Receive);
      StepKeepsOrder(q1, WriteRow);
      StepKeepsOrder(q2, Publish);
    }
  }
}
