/** The audit queue: callers, one background writer, flushes and Close, in every interleaving of their steps. */
module AuditQueue {
  import opened Prelude

  type Caller = nat

  /** The n-th event a caller hands over, and its place in the queue: 0 when its caller writes it itself. */
  datatype Item = Item(caller: Caller, n: nat, place: nat)

  /** Where a caller is: between events, waiting for the rows ahead of one that did not fit, or about to
      write a row itself. n events are behind it. */
  datatype Phase = Idle(n: nat) | Waiting(n: nat, ahead: nat) | Direct(n: nat)

  /** The writer waits for a row, has taken one, or has written it without having said so. */
  datatype Writer = Free | Writing(item: Item) | Wrote(item: Item)

  /** A flush has not begun, waits for a row to be finished, or has returned nil. */
  datatype Flusher = Unasked | Awaiting(target: nat) | Flushed(target: nat)

  /** queued, trail and rushed are history: every row ever queued, every write finished (as a row, or as the
      fallback line of a row the database refused), and the callers that once wrote without waiting. */
  datatype Queue = Queue(size: nat, ch: seq<Item>, closed: bool, lastSeq: nat, written: nat, writer: Writer,
                         finished: bool, callers: seq<Phase>, flushers: seq<Flusher>,
                         queued: seq<Item>, trail: seq<Item>, rushed: set<Caller>)

  datatype Event =
    | Offer(c: Caller)
    | WaitEnds(c: Caller)
    | WaitTimesOut(c: Caller)
    | WriteDirect(c: Caller)
    | Receive
    | WriteRow
    | Publish
    | Finish
    | Close
    | FlushBegins(f: nat)
    | FlushReturns(f: nat)

  predicate Can(q: Queue, e: Event) {
    match e
    case Offer(c) => c < |q.callers| && q.callers[c].Idle?
    case WaitEnds(c) => c < |q.callers| && q.callers[c].Waiting? && q.written >= q.callers[c].ahead
    case WaitTimesOut(c) => c < |q.callers| && q.callers[c].Waiting?
    case WriteDirect(c) => c < |q.callers| && q.callers[c].Direct?
    case Receive => q.writer.Free? && q.ch != []
    case WriteRow => q.writer.Writing?
    case Publish => q.writer.Wrote?
    case Finish => q.writer.Free? && q.ch == [] && q.closed
    case Close => true
    case FlushBegins(f) => f < |q.flushers|
    case FlushReturns(f) => f < |q.flushers| && q.flushers[f].Awaiting? && q.written >= q.flushers[f].target
  }

  /** The locked section of handing a row over: queued when there is room, kept by its caller when not. */
  function Offered(q: Queue, c: Caller): Queue
    requires c < |q.callers| && q.callers[c].Idle?
  {
    var n := q.callers[c].n;
    if q.closed then
      q.(callers := q.callers[c := Direct(n)], rushed := q.rushed + {c})
    else if |q.ch| < q.size then
      var item := Item(c, n, q.lastSeq + 1);
      q.(ch := q.ch + [item], lastSeq := q.lastSeq + 1, callers := q.callers[c := Idle(n + 1)],
         queued := q.queued + [item])
    else
      q.(callers := q.callers[c := Waiting(n, q.lastSeq)])
  }

  function After(q: Queue, e: Event): Queue
    requires Can(q, e)
  {
    match e
    case Offer(c) => Offered(q, c)
    case WaitEnds(c) => q.(callers := q.callers[c := Direct(q.callers[c].n)])
    case WaitTimesOut(c) => q.(callers := q.callers[c := Direct(q.callers[c].n)], rushed := q.rushed + {c})
    case WriteDirect(c) =>
      var n := q.callers[c].n;
      q.(callers := q.callers[c := Idle(n + 1)], trail := q.trail + [Item(c, n, 0)])
    case Receive => q.(writer := Writing(q.ch[0]), ch := q.ch[1..])
    case WriteRow => q.(writer := Wrote(q.writer.item), trail := q.trail + [q.writer.item])
    case Publish => q.(writer := Free, written := q.writer.item.place)
    case Finish => q.(finished := true)
    case Close => q.(closed := true)
    case FlushBegins(f) => q.(flushers := q.flushers[f := Awaiting(q.lastSeq)])
    case FlushReturns(f) => q.(flushers := q.flushers[f := Flushed(q.flushers[f].target)])
  }

  predicate Run(q: Queue, es: seq<Event>)
    decreases |es|
  {
    es == [] || (Can(q, es[0]) && Run(After(q, es[0]), es[1..]))
  }

  function End(q: Queue, es: seq<Event>): Queue
    requires Run(q, es)
    decreases |es|
  {
    if es == [] then q else End(After(q, es[0]), es[1..])
  }

  /** A new queue of size rows, with any number of callers and flushes to come. */
  predicate Fresh(q: Queue) {
    && q.ch == q.queued == q.trail == [] && !q.closed && q.lastSeq == q.written == 0 && q.writer == Free
    && !q.finished && q.rushed == {}
    && (forall c :: 0 <= c < |q.callers| ==> q.callers[c] == Idle(0))
    && (forall f :: 0 <= f < |q.flushers| ==> q.flushers[f] == Unasked)
  }

  // ---------------------------------------------------------------- queue order

  /** The row the writer holds and has not yet reported finished. */
  function InFlight(q: Queue): seq<Item> {
    if q.writer.Free? then [] else [q.writer.item]
  }

  /** How many queued rows are finished, reported or not. */
  function Done(q: Queue): nat {
    q.written + if q.writer.Wrote? then 1 else 0
  }

  function Queued(items: seq<Item>): seq<Item> {
    if items == [] then []
    else
      var last := items[|items| - 1];
      Queued(items[..|items| - 1]) + if last.place > 0 then [last] else []
  }

  ghost predicate InOrder(q: Queue) {
    && |q.queued| == q.lastSeq && q.written <= q.lastSeq
    && (forall k :: 0 <= k < |q.queued| ==> q.queued[k].place == k + 1)
    && InFlight(q) + q.ch == q.queued[q.written..]
    && Done(q) <= q.lastSeq
    && Queued(q.trail) == q.queued[..Done(q)]
    && (q.finished ==> q.closed && q.writer.Free? && q.ch == [])
    && (forall f :: 0 <= f < |q.flushers| && q.flushers[f].Flushed? ==> q.flushers[f].target <= q.written)
    && (forall f :: 0 <= f < |q.flushers| && q.flushers[f].Awaiting? ==> q.flushers[f].target <= q.lastSeq)
    && |q.ch| <= q.size
  }

  lemma QueuedAppend(items: seq<Item>, item: Item)
    ensures Queued(items + [item]) == Queued(items) + if item.place > 0 then [item] else []
  {
    assert (items + [item])[..|items|] == items;
  }

  lemma ReceivingKeepsOrder(q: Queue)
    requires InOrder(q) && Can(q, Receive)
    ensures InOrder(After(q, Receive))
  {
    hide Queued;
    var q' := After(q, Receive);
    assert InFlight(q') + q'.ch == q.ch;
    assert InFlight(q) + q.ch == q.ch;
  }

  lemma WritingKeepsOrder(q: Queue)
    requires InOrder(q) && Can(q, WriteRow)
    ensures InOrder(After(q, WriteRow))
  {
    hide Queued;
    NextQueued(q);
    QueuedAppend(q.trail, q.writer.item);
    assert q.queued[..q.written + 1] == q.queued[..q.written] + [q.writer.item];
  }

  lemma PublishingKeepsOrder(q: Queue)
    requires InOrder(q) && Can(q, Publish)
    ensures InOrder(After(q, Publish))
  {
    hide Queued;
    NextQueued(q);
    assert q.queued[q.written + 1..] == q.queued[q.written..][1..] == q.ch;
  }

  /** The row in the writer's hands is the next one queued. */
  lemma NextQueued(q: Queue)
    requires InOrder(q) && !q.writer.Free?
    ensures q.written < |q.queued| && q.queued[q.written] == q.writer.item
  {
    hide Queued;
    var rest := q.queued[q.written..];
    assert rest == [q.writer.item] + q.ch;
    assert rest[0] == q.queued[q.written];
  }

  lemma QueuingKeepsOrder(q: Queue, c: Caller)
    requires InOrder(q) && Can(q, Offer(c)) && !q.closed && |q.ch| < q.size
    ensures InOrder(After(q, Offer(c)))
  {
    hide Queued;
    var q' := After(q, Offer(c));
    var item := Item(c, q.callers[c].n, q.lastSeq + 1);
    assert q'.queued[q.written..] == q.queued[q.written..] + [item];
    assert InFlight(q') + q'.ch == InFlight(q) + q.ch + [item];
    assert q'.queued[..Done(q)] == q.queued[..Done(q)];
  }

  lemma StepKeepsOrder(q: Queue, e: Event)
    requires InOrder(q) && Can(q, e)
    ensures InOrder(After(q, e))
  {
    match e
    case Receive => ReceivingKeepsOrder(q);
    case WriteRow => WritingKeepsOrder(q);
    case Publish => PublishingKeepsOrder(q);
    case WriteDirect(c) => QueuedAppend(q.trail, Item(c, q.callers[c].n, 0));
    case Offer(c) => if !q.closed && |q.ch| < q.size { QueuingKeepsOrder(q, c); }
    case _ =>
  }

  // ---------------------------------------------------------------- each caller's rows

  /** The numbers of c's events among items, in order. */
  function Of(items: seq<Item>, c: Caller): seq<nat> {
    if items == [] then []
    else
      var last := items[|items| - 1];
      Of(items[..|items| - 1], c) + if last.caller == c then [last.n] else []
  }

  function Upto(n: nat): seq<nat> {
    seq(n, i => i)
  }

  lemma {:induction false} OfAppend(a: seq<Item>, b: seq<Item>, c: Caller)
    ensures Of(a + b, c) == Of(a, c) + Of(b, c)
    decreases |b|
  {
    if b == [] {
      assert a + b == a;
    } else {
      assert (a + b)[..|a + b| - 1] == a + b[..|b| - 1];
      OfAppend(a, b[..|b| - 1], c);
    }
  }

  lemma {:induction false} OfNone(items: seq<Item>, c: Caller)
    requires forall k :: 0 <= k < |items| ==> items[k].caller != c
    ensures Of(items, c) == []
  {
    if items != [] {
      OfNone(items[..|items| - 1], c);
    }
  }

  /** The rows on their way: taken but not written, and queued. */
  function Ahead(q: Queue): seq<Item> {
    (if q.writer.Writing? then [q.writer.item] else []) + q.ch
  }

  function Everything(q: Queue): seq<Item> {
    q.trail + Ahead(q)
  }

  /** Nothing c handed over is dropped or doubled; and while it never wrote without waiting, its rows are in
      the order it handed them over, and one it is to write itself has none of its own still ahead. */
  ghost predicate CallerKept(q: Queue, c: Caller) {
    c < |q.callers| ==>
      && multiset(Of(Everything(q), c)) == multiset(Upto(q.callers[c].n))
      && (c !in q.rushed ==>
            && Of(Everything(q), c) == Upto(q.callers[c].n)
            && (q.callers[c].Waiting? ==> forall i :: i in Ahead(q) && i.caller == c ==> i.place <= q.callers[c].ahead)
            && (q.callers[c].Direct? ==> forall i :: i in Ahead(q) ==> i.caller != c))
  }

  /** A caller none of whose rows moved, and whose own phase is as it was. */
  lemma OthersKept(q: Queue, q': Queue, c: Caller)
    requires CallerKept(q, c) && c < |q.callers| && |q'.callers| == |q.callers| && q'.callers[c] == q.callers[c]
    requires c in q'.rushed <==> c in q.rushed
    requires Of(Everything(q'), c) == Of(Everything(q), c)
    requires forall i :: i in Ahead(q') && i.caller == c ==> i in Ahead(q)
    ensures CallerKept(q', c)
  {
  }

  lemma WriterKeepsCallers(q: Queue, e: Event, c: Caller)
    requires Can(q, e) && (e.Receive? || e.WriteRow? || e.Publish?) && CallerKept(q, c) && c < |q.callers|
    ensures CallerKept(After(q, e), c)
  {
    hide CallerKept, Of;
    var q' := After(q, e);
    match e
    case Receive =>
      assert Ahead(q') == Ahead(q);
      OthersKept(q, q', c);
    case WriteRow =>
      assert Ahead(q) == [q.writer.item] + Ahead(q');
      assert Everything(q') == Everything(q);
      OthersKept(q, q', c);
    case Publish =>
      OthersKept(q, q', c);
  }

  lemma UptoNext(n: nat)
    ensures Upto(n + 1) == Upto(n) + [n]
  {
  }

  lemma OfOne(item: Item, c: Caller)
    ensures Of([item], c) == if item.caller == c then [item.n] else []
  {
    assert [item][..0] == [];
  }

  lemma QueuingKeepsCallers(q: Queue, c: Caller, d: Caller)
    requires Can(q, Offer(c)) && !q.closed && |q.ch| < q.size && CallerKept(q, d) && d < |q.callers|
    ensures CallerKept(After(q, Offer(c)), d)
  {
    hide Of;
    var q' := After(q, Offer(c));
    var item := Item(c, q.callers[c].n, q.lastSeq + 1);
    assert Ahead(q') == Ahead(q) + [item];
    assert Everything(q') == Everything(q) + [item];
    OfAppend(Everything(q), [item], d);
    OfOne(item, d);
    if c == d {
      UptoNext(item.n);
    } else {
      assert Of(Everything(q'), d) == Of(Everything(q), d);
      OthersKept(q, q', d);
    }
  }

  lemma DirectKeepsCallers(q: Queue, c: Caller, d: Caller)
    requires Can(q, WriteDirect(c)) && CallerKept(q, d) && d < |q.callers|
    ensures CallerKept(After(q, WriteDirect(c)), d)
  {
    hide Of, CallerKept;
    var q' := After(q, WriteDirect(c));
    var item := Item(c, q.callers[c].n, 0);
    OfAppend(q.trail, Ahead(q), d);
    OfAppend(q.trail, [item], d);
    OfAppend(q.trail + [item], Ahead(q), d);
    OfOne(item, d);
    if c == d {
      OwnRowKept(q, c);
    } else {
      assert Of(q.trail, d) + [] == Of(q.trail, d);
      OthersKept(q, q', d);
    }
  }

  lemma OwnRowKept(q: Queue, c: Caller)
    requires Can(q, WriteDirect(c)) && CallerKept(q, c)
    requires var item := Item(c, q.callers[c].n, 0);
             && Of(Everything(q), c) == Of(q.trail, c) + Of(Ahead(q), c)
             && Of(q.trail + [item] + Ahead(q), c) == Of(q.trail, c) + [item.n] + Of(Ahead(q), c)
    ensures CallerKept(After(q, WriteDirect(c)), c)
  {
    hide Of;
    var q' := After(q, WriteDirect(c));
    var n := q.callers[c].n;
    assert Ahead(q') == Ahead(q) && Everything(q') == q.trail + [Item(c, n, 0)] + Ahead(q);
    UptoNext(n);
    DirectRow(Of(q.trail, c), Of(Ahead(q), c), n);
    if c !in q.rushed {
      OfNone(Ahead(q), c);
      assert Of(q.trail, c) + [] == Of(q.trail, c) && Of(q.trail, c) + [n] + [] == Of(q.trail, c) + [n];
    }
  }

  lemma DirectRow(a: seq<nat>, b: seq<nat>, n: nat)
    ensures multiset(a + [n] + b) == multiset(a + b + [n])
  {
  }

  /** A caller that turns to writing its row itself, having waited or not. */
  lemma TurningKeepsCallers(q: Queue, e: Event, d: Caller)
    requires InOrder(q) && Can(q, e)
    requires e.WaitEnds? || e.WaitTimesOut? || (e.Offer? && (q.closed || |q.ch| >= q.size))
    requires CallerKept(q, d) && d < |q.callers|
    ensures CallerKept(After(q, e), d)
  {
    hide Of, Queued;
    var q' := After(q, e);
    assert Ahead(q') == Ahead(q);
    forall i | i in Ahead(q) ensures q.written < i.place <= q.lastSeq {
      AheadIsLater(q, i);
    }
  }

  lemma AheadIsLater(q: Queue, i: Item)
    requires InOrder(q) && i in Ahead(q)
    ensures q.written < i.place <= q.lastSeq
  {
    var rest := InFlight(q) + q.ch;
    assert i in rest;
    var k :| 0 <= k < |rest| && rest[k] == i;
    assert q.queued[q.written..][k] == q.queued[q.written + k];
  }

  lemma StepKeepsCallers(q: Queue, e: Event, d: Caller)
    requires InOrder(q) && Can(q, e) && CallerKept(q, d)
    ensures CallerKept(After(q, e), d)
  {
    hide Of, InOrder;
    if d < |q.callers| {
      match e
      case Receive => WriterKeepsCallers(q, e, d);
      case WriteRow => WriterKeepsCallers(q, e, d);
      case Publish => WriterKeepsCallers(q, e, d);
      case Offer(c) =>
        if !q.closed && |q.ch| < q.size { QueuingKeepsCallers(q, c, d); } else { TurningKeepsCallers(q, e, d); }
      case WaitEnds(_) => TurningKeepsCallers(q, e, d);
      case WaitTimesOut(_) => TurningKeepsCallers(q, e, d);
      case WriteDirect(c) => DirectKeepsCallers(q, c, d);
      case _ => OthersKept(q, After(q, e), d);
    }
  }

  // ---------------------------------------------------------------- over whole runs

  ghost predicate Sound(q: Queue) {
    InOrder(q) && forall c :: CallerKept(q, c)
  }

  lemma FreshIsSound(q: Queue)
    requires Fresh(q)
    ensures Sound(q)
  {
    forall c ensures CallerKept(q, c) {
      assert Everything(q) == [];
    }
  }

  lemma {:induction false} RunKeepsSound(q: Queue, es: seq<Event>)
    requires Sound(q) && Run(q, es)
    ensures Sound(End(q, es))
    decreases |es|
  {
    hide InOrder, CallerKept, After, Can;
    if es != [] {
      StepKeepsOrder(q, es[0]);
      forall c ensures CallerKept(After(q, es[0]), c) { StepKeepsCallers(q, es[0], c); }
      RunKeepsSound(After(q, es[0]), es[1..]);
    }
  }

  /** Queued rows are finished once each, in the order they were queued: those finished are always the
      first Done of them, and written is how many of those the writer has reported. */
  lemma QueuedRowsInOrder(q: Queue, es: seq<Event>)
    requires Fresh(q) && Run(q, es)
    ensures var r := End(q, es);
            && Done(r) <= |r.queued| && Queued(r.trail) == r.queued[..Done(r)]
            && r.written <= Done(r) <= r.written + 1
            && (forall k :: 0 <= k < |r.queued| ==> r.queued[k].place == k + 1)
  {
    FreshIsSound(q);
    RunKeepsSound(q, es);
  }

  lemma StepKeepsQueued(q: Queue, e: Event)
    requires Can(q, e)
    ensures q.queued <= After(q, e).queued && |After(q, e).flushers| == |q.flushers| && q.trail <= After(q, e).trail
  {
  }

  lemma {:induction false} QueuedIsInTrail(items: seq<Item>, i: Item)
    requires i in Queued(items)
    ensures i in items
  {
    if items != [] {
      if i in Queued(items[..|items| - 1]) {
        QueuedIsInTrail(items[..|items| - 1], i);
      }
    }
  }

  lemma {:induction false} TargetStays(q: Queue, es: seq<Event>, f: nat, target: nat)
    requires Run(q, es) && FlushBegins(f) !in es
    requires f < |q.flushers| && (q.flushers[f] == Awaiting(target) || q.flushers[f] == Flushed(target))
    ensures var r := End(q, es);
            && q.queued <= r.queued && |r.flushers| == |q.flushers|
            && (r.flushers[f] == Awaiting(target) || r.flushers[f] == Flushed(target))
    decreases |es|
  {
    if es != [] {
      assert es[0] in es;
      StepKeepsQueued(q, es[0]);
      TargetStays(After(q, es[0]), es[1..], f, target);
    }
  }

  /** A flush that returns nil has seen every row queued before it began finished. */
  lemma FlushSeesEarlierRows(q: Queue, before: seq<Event>, f: nat, during: seq<Event>, i: Item)
    requires Fresh(q) && Run(q, before) && Can(End(q, before), FlushBegins(f)) && FlushBegins(f) !in during
    requires Run(After(End(q, before), FlushBegins(f)), during) && i in End(q, before).queued
    requires f < |End(After(End(q, before), FlushBegins(f)), during).flushers|
    requires End(After(End(q, before), FlushBegins(f)), during).flushers[f].Flushed?
    ensures i in End(After(End(q, before), FlushBegins(f)), during).trail
  {
    hide Queued, Of;
    var q1 := End(q, before);
    var q2 := After(q1, FlushBegins(f));
    var r := End(q2, during);
    FreshIsSound(q);
    RunKeepsSound(q, before);
    StepKeepsOrder(q1, FlushBegins(f));
    forall c ensures CallerKept(q2, c) { StepKeepsCallers(q1, FlushBegins(f), c); }
    RunKeepsSound(q2, during);
    TargetStays(q2, during, f, q1.lastSeq);
    assert r.flushers[f].target <= r.written;
    var k :| 0 <= k < |q1.queued| && q1.queued[k] == i;
    assert r.queued[..Done(r)][k] == i;
    QueuedIsInTrail(r.trail, i);
  }

  /** Close that returns nil has seen every queued row finished. */
  lemma CloseSeesEveryRow(q: Queue, es: seq<Event>)
    requires Fresh(q) && Run(q, es) && End(q, es).finished
    ensures Queued(End(q, es).trail) == End(q, es).queued && End(q, es).written == End(q, es).lastSeq
  {
    FreshIsSound(q);
    RunKeepsSound(q, es);
    var r := End(q, es);
    assert r.queued[r.written..] == [];
    assert r.queued[..Done(r)] == r.queued;
  }

  /** Nothing is dropped and nothing doubled: what a caller handed over is in the trail or still on its way,
      once each, whatever overflowed, timed out or came after Close. */
  lemma NothingDropped(q: Queue, es: seq<Event>, c: Caller)
    requires Fresh(q) && Run(q, es) && c < |End(q, es).callers|
    ensures var r := End(q, es);
            && multiset(Of(Everything(r), c)) == multiset(Upto(r.callers[c].n))
            && (r.writer.Free? && r.ch == [] ==> multiset(Of(r.trail, c)) == multiset(Upto(r.callers[c].n)))
  {
    FreshIsSound(q);
    RunKeepsSound(q, es);
    var r := End(q, es);
    assert CallerKept(r, c);
    if r.writer.Free? && r.ch == [] {
      assert Everything(r) == r.trail;
    }
  }

  // ---------------------------------------------------------------- the order of a caller's rows

  /** c writes a row itself while a row it handed over before is still on its way. */
  predicate Overtakes(q: Queue, e: Event, c: Caller) {
    e == WriteDirect(c) && Of(Ahead(q), c) != []
  }

  predicate Overtook(q: Queue, es: seq<Event>, c: Caller)
    requires Run(q, es)
    decreases |es|
  {
    es != [] && (Overtakes(q, es[0], c) || Overtook(After(q, es[0]), es[1..], c))
  }

  predicate Ordered(q: Queue, c: Caller) {
    c < |q.callers| && Of(Everything(q), c) == Upto(q.callers[c].n)
  }

  lemma OneMore(s: seq<nat>, n: nat)
    ensures s + [n] == Upto(n + 1) <==> s == Upto(n)
  {
    UptoNext(n);
    assert (s + [n])[..|s|] == s && Upto(n + 1)[..n] == Upto(n);
  }

  lemma CountUpto(s: seq<nat>, n: nat)
    requires multiset(s) == multiset(Upto(n))
    ensures |s| == n
  {
    assert |multiset(s)| == |s| && |multiset(Upto(n))| == |Upto(n)|;
  }

  /** A row put in before others of its caller stands where an earlier one should. */
  lemma RowOvertakes(a: seq<nat>, b: seq<nat>, n: nat)
    requires multiset(a + b) == multiset(Upto(n)) && b != []
    ensures |a| < n && (a + [n])[|a|] == n && a + [n] + b != Upto(n + 1)
  {
    CountUpto(a + b, n);
    assert (a + [n] + b)[|a|] == n && Upto(n + 1)[|a|] == |a|;
  }

  lemma DirectRowsSplit(q: Queue, c: Caller)
    requires Can(q, WriteDirect(c))
    ensures var q' := After(q, WriteDirect(c));
            && Of(Everything(q), c) == Of(q.trail, c) + Of(Ahead(q), c)
            && Of(q'.trail, c) == Of(q.trail, c) + [q.callers[c].n]
            && Of(Everything(q'), c) == Of(q.trail, c) + [q.callers[c].n] + Of(Ahead(q), c)
  {
    hide Of;
    var item := Item(c, q.callers[c].n, 0);
    OfAppend(q.trail, Ahead(q), c);
    OfAppend(q.trail, [item], c);
    OfAppend(q.trail + [item], Ahead(q), c);
    OfOne(item, c);
    assert Ahead(After(q, WriteDirect(c))) == Ahead(q);
  }

  lemma DirectKeepsOrdered(q: Queue, c: Caller)
    requires Can(q, WriteDirect(c)) && CallerKept(q, c)
    ensures Ordered(After(q, WriteDirect(c)), c) <==> Ordered(q, c) && !Overtakes(q, WriteDirect(c), c)
  {
    hide Of, Everything, Ahead;
    var a, b, n := Of(q.trail, c), Of(Ahead(q), c), q.callers[c].n;
    DirectRowsSplit(q, c);
    if b == [] {
      OneMore(a, n);
      assert a + [n] + [] == a + [n] && a + [] == a;
    } else {
      RowOvertakes(a, b, n);
    }
  }

  lemma QueuingKeepsOrdered(q: Queue, c: Caller, d: Caller)
    requires Can(q, Offer(c)) && !q.closed && |q.ch| < q.size && d < |q.callers|
    ensures Ordered(After(q, Offer(c)), d) <==> Ordered(q, d)
  {
    hide Of;
    var q' := After(q, Offer(c));
    var item := Item(c, q.callers[c].n, q.lastSeq + 1);
    assert Everything(q') == Everything(q) + [item];
    OfAppend(Everything(q), [item], d);
    OfOne(item, d);
    OneMore(Of(Everything(q), d), item.n);
    assert Of(Everything(q), d) + [] == Of(Everything(q), d);
  }

  lemma OtherDirectKeepsOrdered(q: Queue, c: Caller, d: Caller)
    requires Can(q, WriteDirect(c)) && c != d && d < |q.callers|
    ensures Ordered(After(q, WriteDirect(c)), d) <==> Ordered(q, d)
  {
    hide Of;
    var item := Item(c, q.callers[c].n, 0);
    OfAppend(q.trail, Ahead(q), d);
    OfAppend(q.trail, [item], d);
    OfAppend(q.trail + [item], Ahead(q), d);
    OfOne(item, d);
    assert Of(q.trail, d) + [] == Of(q.trail, d) && Ahead(After(q, WriteDirect(c))) == Ahead(q);
  }

  lemma StepKeepsOrdered(q: Queue, e: Event, d: Caller)
    requires Can(q, e) && CallerKept(q, d) && d < |q.callers|
    ensures Ordered(After(q, e), d) <==> Ordered(q, d) && !Overtakes(q, e, d)
  {
    hide Of, CallerKept;
    var q' := After(q, e);
    match e
    case WriteDirect(c) =>
      if c == d { DirectKeepsOrdered(q, c); } else { OtherDirectKeepsOrdered(q, c, d); }
    case Offer(c) =>
      if !q.closed && |q.ch| < q.size { QueuingKeepsOrdered(q, c, d); } else { assert Ahead(q') == Ahead(q); }
    case WriteRow => assert Everything(q') == Everything(q) by { assert Ahead(q) == [q.writer.item] + Ahead(q'); }
    case _ => assert Ahead(q') == Ahead(q);
  }

  lemma {:induction false} RunKeepsOrdered(q: Queue, es: seq<Event>, c: Caller)
    requires Sound(q) && Run(q, es) && c < |q.callers|
    ensures |End(q, es).callers| == |q.callers|
    ensures Ordered(End(q, es), c) <==> Ordered(q, c) && !Overtook(q, es, c)
    decreases |es|
  {
    hide InOrder, CallerKept, Can, Ordered, Overtakes;
    if es != [] {
      var q' := After(q, es[0]);
      assert CallerKept(q, c);
      StepKeepsOrdered(q, es[0], c);
      StepKeepsOrder(q, es[0]);
      forall d ensures CallerKept(q', d) { StepKeepsCallers(q, es[0], d); }
      CallersStay(q, es[0]);
      RunKeepsOrdered(q', es[1..], c);
    }
  }

  lemma CallersStay(q: Queue, e: Event)
    requires Can(q, e)
    ensures |After(q, e).callers| == |q.callers|
  {
  }

  /** A row of the trail out of its place stays there: the trail only grows. */
  predicate Misplaced(s: seq<nat>) {
    exists k :: 0 <= k < |s| && s[k] != k
  }

  lemma {:induction false} MisplacedStays(q: Queue, es: seq<Event>, c: Caller)
    requires Run(q, es) && Misplaced(Of(q.trail, c))
    ensures Misplaced(Of(End(q, es).trail, c))
    decreases |es|
  {
    hide Of, Can, After;
    if es != [] {
      var q' := After(q, es[0]);
      StepKeepsQueued(q, es[0]);
      assert q'.trail == q.trail + q'.trail[|q.trail|..];
      OfAppend(q.trail, q'.trail[|q.trail|..], c);
      var k :| 0 <= k < |Of(q.trail, c)| && Of(q.trail, c)[k] != k;
      assert Of(q'.trail, c)[k] == Of(q.trail, c)[k];
      MisplacedStays(q', es[1..], c);
    }
  }

  lemma {:induction false} OvertakenIsMisplaced(q: Queue, es: seq<Event>, c: Caller)
    requires Sound(q) && Run(q, es) && c < |q.callers| && Overtook(q, es, c)
    ensures Misplaced(Of(End(q, es).trail, c))
    decreases |es|
  {
    hide InOrder, CallerKept, Can, After, Of, Misplaced;
    var q' := After(q, es[0]);
    assert CallerKept(q, c);
    if Overtakes(q, es[0], c) {
      OvertakingMisplaces(q, c);
      MisplacedStays(q', es[1..], c);
    } else {
      StepKeepsOrder(q, es[0]);
      forall d ensures CallerKept(q', d) { StepKeepsCallers(q, es[0], d); }
      CallersStay(q, es[0]);
      OvertakenIsMisplaced(q', es[1..], c);
    }
  }

  lemma OvertakingMisplaces(q: Queue, c: Caller)
    requires Can(q, WriteDirect(c)) && CallerKept(q, c) && Overtakes(q, WriteDirect(c), c)
    ensures Misplaced(Of(After(q, WriteDirect(c)).trail, c))
  {
    hide Of, Everything, Ahead;
    var a, n := Of(q.trail, c), q.callers[c].n;
    DirectRowsSplit(q, c);
    RowOvertakes(a, Of(Ahead(q), c), n);
    assert (a + [n])[|a|] != |a|;
  }

  /** A caller's rows, those written and then those on their way, are in the order it handed them over, and
      those written are the first of them, exactly when it never wrote one itself while an earlier one of its
      own was still on its way. */
  lemma OrderIsKeptUnlessOvertaken(q: Queue, es: seq<Event>, c: Caller)
    requires Fresh(q) && Run(q, es) && c < |End(q, es).callers|
    ensures var r := End(q, es);
            && (Of(Everything(r), c) == Upto(r.callers[c].n) <==> !Overtook(q, es, c))
            && (Of(r.trail, c) <= Upto(r.callers[c].n) <==> !Overtook(q, es, c))
  {
    hide Of, Overtook, InOrder;
    var r := End(q, es);
    FreshIsSound(q);
    RunKeepsSound(q, es);
    SameCallers(q, es);
    FreshIsOrdered(q, c);
    RunKeepsOrdered(q, es, c);
    OfAppend(r.trail, Ahead(r), c);
    if Overtook(q, es, c) {
      OvertakenIsMisplaced(q, es, c);
    }
  }

  lemma {:induction false} SameCallers(q: Queue, es: seq<Event>)
    requires Run(q, es)
    ensures |End(q, es).callers| == |q.callers|
    decreases |es|
  {
    hide Can, After;
    if es != [] {
      CallersStay(q, es[0]);
      SameCallers(After(q, es[0]), es[1..]);
    }
  }

  lemma FreshIsOrdered(q: Queue, c: Caller)
    requires Fresh(q) && c < |q.callers|
    ensures Ordered(q, c)
  {
    assert Everything(q) == [];
  }

  /** A caller that never wrote without waiting is never overtaken by its own rows. */
  lemma CallersOrderIsKept(q: Queue, es: seq<Event>, c: Caller)
    requires Fresh(q) && Run(q, es) && c < |End(q, es).callers| && c !in End(q, es).rushed
    ensures !Overtook(q, es, c) && Of(End(q, es).trail, c) <= Upto(End(q, es).callers[c].n)
  {
    FreshIsSound(q);
    RunKeepsSound(q, es);
    assert CallerKept(End(q, es), c);
    OrderIsKeptUnlessOvertaken(q, es, c);
  }

  /** After Close a row its caller writes waits for nothing: it can pass one the caller queued before. */
  lemma CloseLosesOrder() returns (q: Queue, es: seq<Event>)
    ensures Fresh(q) && Run(q, es) && |End(q, es).callers| == 1 && Of(End(q, es).trail, 0) == [1]
    ensures Of(Everything(End(q, es)), 0) == [1, 0]
  {
    q := Queue(1, [], false, 0, 0, Free, false, [Idle(0)], [], [], [], {});
    es := [Offer(0), Close, Offer(0), WriteDirect(0)];
    hide Of;
    var first := Item(0, 0, 1);
    var late := Item(0, 1, 0);
    var q1 := q.(ch := [first], lastSeq := 1, callers := [Idle(1)], queued := [first]);
    var q2 := q1.(closed := true);
    var q3 := q2.(callers := [Direct(1)], rushed := {0});
    var q4 := q3.(callers := [Idle(2)], trail := [late]);
    assert es[1..] == [Close, Offer(0), WriteDirect(0)];
    RunOf(q, es, q1);
    RunOf(q1, es[1..], q2);
    assert es[1..][1..] == [Offer(0), WriteDirect(0)];
    RunOf(q2, es[1..][1..], q3);
    assert es[1..][1..][1..] == [WriteDirect(0)];
    RunOf(q3, es[1..][1..][1..], q4);
    LateRow(q4, late, first);
  }

  lemma RunOf(q: Queue, es: seq<Event>, next: Queue)
    requires es != [] && Can(q, es[0]) && After(q, es[0]) == next
    ensures Run(q, es) == Run(next, es[1..]) && (Run(q, es) ==> End(q, es) == End(next, es[1..]))
  {
  }

  lemma LateRow(q: Queue, late: Item, first: Item)
    requires q.trail == [late] && Ahead(q) == [first] && late.caller == first.caller == 0
    ensures Of(q.trail, 0) == [late.n] && Of(Everything(q), 0) == [late.n, first.n]
  {
    hide Ahead;
    OfOne(late, 0);
    OfOne(first, 0);
    OfAppend([late], [first], 0);
  }
}
