/** The invariants that hold the ask protocol together: threads, waiters and stored asks in step. */
module AskWiring {
  import opened Prelude
  import opened AskShape
  import opened AskStore
  import opened AskProtocol

  predicate Stored(p: Phase) {
    p.Rechecking? || p.Releasing? || p.Handing? || p.Sending? || p.Waiting?
  }

  predicate NotYetStored(p: Phase) {
    p.Checking? || p.Allowing? || p.Registering? || p.Inserting?
  }

  predicate Listens(p: Phase) {
    p.Inserting? || Stored(p) || p.Leaving?
  }

  /** An asker's own decision on its way to itself. */
  predicate OwnDecision(p: Phase) {
    p.Handing? || p.Sending?
  }

  /** One asker's ask, waiter and place are in step with the hub. */
  ghost predicate WiredAsker(h: Hub, id: AskId, k: Asker) {
    && k.ask.facts.id == id && k.ask.status == Pending
    && (k.ask.facts.kind == Permission ==>
          k.ask.facts.tool != "" && KeysFit(k.ask.facts.tool, k.ask.facts.runKey, k.lookupKey))
    && (k.ask.facts.kind != Permission ==> k.ask.facts.tool == "")
    && (Stored(k.phase) ==> id in h.asks)
    && (NotYetStored(k.phase) ==> id !in h.asks)
    && (id in h.registered <==> Listens(k.phase))
    && (id in h.registered ==> id in h.chans)
    && (id in h.asks ==> h.asks[id].facts == k.ask.facts)
    && (OwnDecision(k.phase) ==> k.phase.updated.facts.id == id)
  }

  ghost predicate Wired(h: Hub, askers: map<AskId, Asker>) {
    && (forall id :: id in askers ==> WiredAsker(h, id, askers[id]))
    && (forall id :: id in h.asks ==> id in askers)
    && (forall id :: id in h.registered ==> id in askers)
  }

  /** What a person has resolved to do fits the ask it is about. */
  ghost predicate DeciderFits(h: Hub, d: Answerer) {
    d.Deciding? ==>
      && d.status in {Approved, Denied, Answered}
      && d.id in h.asks && d.project == h.asks[d.id].facts.project
      && (d.lateAllowed <==> h.asks[d.id].facts.kind != Permission)
      && MayAnswer(d.viewer, h.asks[d.id])
      && (d.status == Approved && d.answer == APPROVE_RUN ==> h.asks[d.id].facts.kind == Permission)
      && (d.answer == APPROVE_RUN && h.asks[d.id].facts.kind == Permission ==> d.status == Approved)
  }

  ghost predicate DecidersFit(h: Hub, answerers: map<nat, Answerer>) {
    forall t :: t in answerers ==> DeciderFits(h, answerers[t])
  }

  /** How a stored ask stands to its first settled form. */
  predicate StandsBy(first: Ask, a: Ask) {
    || a == first
    || (first.status == Expired && a.facts == first.facts && a.facts.kind != Permission
        && a.status in {Approved, Denied, Answered})
  }

  ghost predicate OnceSettled(asks: Asks, first: map<AskId, Ask>) {
    && (forall id :: id in first <==> id in asks && Settled(asks[id]))
    && (forall id :: id in first ==> StandsBy(first[id], asks[id]))
  }

  /** Nobody but the asker of id changed what is stored, who is registered, or which channels exist. */
  ghost predicate OnlyAt(h: Hub, h': Hub, id: AskId) {
    && (forall x :: x != id ==> (x in h'.asks <==> x in h.asks) && (x in h'.registered <==> x in h.registered))
    && (forall x :: x in h.chans ==> x in h'.chans)
  }

  /** Only statuses and channel contents changed. */
  ghost predicate OnlyContents(h: Hub, h': Hub) {
    && h'.registered == h.registered
    && (forall x :: x in h'.asks <==> x in h.asks)
    && (forall x :: x in h.chans ==> x in h'.chans)
  }

  lemma AskerStays(h: Hub, id: AskId, k: Asker, who: string, now: int, timeout: int)
    requires WiredAsker(h, id, k)
    ensures var (h', k') := AskerEffect(h, k, who, now, timeout);
            OnlyAt(h, h', id) && AsksMove(h.asks, h'.asks)
  {
    hide KeysFit, HasRoom, AskTimeout;
  }

  lemma AskerInStep(h: Hub, id: AskId, k: Asker, who: string, now: int, timeout: int)
    requires WiredAsker(h, id, k)
    ensures var (h', k') := AskerEffect(h, k, who, now, timeout);
            WiredAsker(h', id, k') && k'.ask.facts == k.ask.facts
  {
    hide KeysFit, HasRoom, AskTimeout;
  }

  lemma WaiterInStep(h: Hub, id: AskId, k: Asker, e: Event)
    requires WiredAsker(h, id, k)
    ensures var (h', k') := WaiterEffect(h, k, e);
            WiredAsker(h', id, k') && k'.ask.facts == k.ask.facts
  {
    hide KeysFit;
  }

  lemma WaiterStays(h: Hub, id: AskId, k: Asker, e: Event)
    requires WiredAsker(h, id, k)
    ensures var (h', k') := WaiterEffect(h, k, e);
            OnlyAt(h, h', id) && AsksMove(h.asks, h'.asks)
  {
    hide KeysFit;
  }

  lemma AnswererStays(h: Hub, a: Answerer, pick: AskId, now: int)
    requires DeciderFits(h, a)
    ensures var (h', a') := AnswererEffect(h, a, pick, now);
            OnlyContents(h, h') && AsksMove(h.asks, h'.asks)
  {
    hide MayAnswer, ReleaseList;
  }

  lemma ExpirerStays(h: Hub, x: Expirer, pick: AskId, now: int)
    ensures var (h', x') := ExpirerEffect(h, x, pick, now);
            OnlyContents(h, h') && AsksMove(h.asks, h'.asks)
  {
    hide RunPending;
  }

  lemma SweepStays(h: Hub, projects: set<nat>, now: int)
    ensures var h' := h.(asks := ExpireStale(h.asks, projects, now));
            OnlyContents(h, h') && AsksMove(h.asks, h'.asks)
  {
    ExpireStaleMoves(h.asks, projects, now);
  }

  /** Every event moves the stored asks only as AsksMove allows. */
  lemma EffectMoves(env: Env, s: State, e: Event)
    requires Wired(s.hub, s.askers) && DecidersFit(s.hub, s.answerers)
    ensures AsksMove(s.hub.asks, Effect(env, s, e).hub.asks)
  {
    hide AskerEffect, WaiterEffect, AnswererEffect, ExpirerEffect, LookedUp, ShapeAsk, ExpireStale, AsksMove,
         WiredAsker, DeciderFits;
    StandStillMoves(s.hub.asks);
    match e
    case StepAsker(id, who, now, timeout) =>
      if id in s.askers { AskerStays(s.hub, id, s.askers[id], who, now, timeout); }
    case StepAnswerer(t, pick, now) => if t in s.answerers { AnswererStays(s.hub, s.answerers[t], pick, now); }
    case StepExpirer(t, pick, now) => if t in s.expirers { ExpirerStays(s.hub, s.expirers[t], pick, now); }
    case SweepStale(projects, now) => SweepStays(s.hub, projects, now);
    case StartAsk(_, _, _, _, _, _, _) =>
    case StartAnswer(_, _, _, _, _, _, _) =>
    case StartExpiry(_, _, _) =>
    case _ => if e.id in s.askers { WaiterStays(s.hub, e.id, s.askers[e.id], e); }
  }

  lemma WiredFrame(h: Hub, h': Hub, askers: map<AskId, Asker>)
    requires Wired(h, askers) && AsksMove(h.asks, h'.asks) && OnlyContents(h, h')
    ensures Wired(h', askers)
  {
    hide KeysFit;
    forall id | id in askers ensures WiredAsker(h', id, askers[id]) {
      assert WiredAsker(h, id, askers[id]);
    }
  }

  lemma WiredUpdate(h: Hub, h': Hub, askers: map<AskId, Asker>, id: AskId, k: Asker)
    requires Wired(h, askers) && AsksMove(h.asks, h'.asks) && OnlyAt(h, h', id) && WiredAsker(h', id, k)
    requires id in askers
    ensures Wired(h', askers[id := k])
  {
    hide KeysFit;
    forall x | x in askers && x != id ensures WiredAsker(h', x, askers[x]) {
      assert WiredAsker(h, x, askers[x]);
    }
  }

  lemma WiredKept(env: Env, s: State, e: Event)
    requires Wired(s.hub, s.askers) && DecidersFit(s.hub, s.answerers)
    ensures var t := Effect(env, s, e); Wired(t.hub, t.askers)
  {
    hide AskerEffect, WaiterEffect, AnswererEffect, ExpirerEffect, LookedUp, ShapeAsk, ExpireStale, AsksMove,
         WiredAsker, DeciderFits, OnlyAt, OnlyContents, Wired;
    match e
    case StartAsk(_, _, _, _, _, _, _) => StartWired(env, s, e);
    case StepAsker(id, who, now, timeout) => if id in s.askers { StepWired(s, id, who, now, timeout); }
    case StepAnswerer(t, pick, now) =>
      if t in s.answerers {
        AnswererStays(s.hub, s.answerers[t], pick, now);
        WiredFrame(s.hub, AnswererEffect(s.hub, s.answerers[t], pick, now).0, s.askers);
      }
    case StepExpirer(t, pick, now) =>
      if t in s.expirers {
        ExpirerStays(s.hub, s.expirers[t], pick, now);
        WiredFrame(s.hub, ExpirerEffect(s.hub, s.expirers[t], pick, now).0, s.askers);
      }
    case SweepStale(projects, now) =>
      SweepStays(s.hub, projects, now);
      WiredFrame(s.hub, Effect(env, s, e).hub, s.askers);
    case StartAnswer(_, _, _, _, _, _, _) =>
    case StartExpiry(_, _, _) =>
    case _ => if e.id in s.askers { WaitWired(s, e.id, e); }
  }

  lemma StepWired(s: State, id: AskId, who: string, now: int, timeout: int)
    requires Wired(s.hub, s.askers) && id in s.askers
    ensures var (h, k) := AskerEffect(s.hub, s.askers[id], who, now, timeout); Wired(h, s.askers[id := k])
  {
    hide AskerEffect, WiredAsker, AsksMove, OnlyAt;
    var (h, k) := AskerEffect(s.hub, s.askers[id], who, now, timeout);
    AskerStays(s.hub, id, s.askers[id], who, now, timeout);
    AskerInStep(s.hub, id, s.askers[id], who, now, timeout);
    WiredUpdate(s.hub, h, s.askers, id, k);
  }

  lemma WaitWired(s: State, id: AskId, e: Event)
    requires Wired(s.hub, s.askers) && id in s.askers
    ensures var (h, k) := WaiterEffect(s.hub, s.askers[id], e); Wired(h, s.askers[id := k])
  {
    hide WaiterEffect, WiredAsker, AsksMove, OnlyAt;
    var (h, k) := WaiterEffect(s.hub, s.askers[id], e);
    WaiterStays(s.hub, id, s.askers[id], e);
    WaiterInStep(s.hub, id, s.askers[id], e);
    WiredUpdate(s.hub, h, s.askers, id, k);
  }

  lemma StartWired(env: Env, s: State, e: Event)
    requires Wired(s.hub, s.askers) && e.StartAsk?
    ensures var t := Effect(env, s, e); Wired(t.hub, t.askers)
  {
    hide ShapeAsk, KeysFit;
    ShapedKeysFit(env, e.input, e.nonce);
    var t := Effect(env, s, e);
    forall x | x in t.askers ensures WiredAsker(t.hub, x, t.askers[x]) {
      if x in s.askers { assert WiredAsker(s.hub, x, s.askers[x]); }
    }
  }

  lemma DecidersFrame(h: Hub, h': Hub, answerers: map<nat, Answerer>)
    requires DecidersFit(h, answerers) && AsksMove(h.asks, h'.asks)
    ensures DecidersFit(h', answerers)
  {
    forall t | t in answerers ensures DeciderFits(h', answerers[t]) {
      assert DeciderFits(h, answerers[t]);
    }
  }

  lemma DecidersKept(env: Env, s: State, e: Event)
    requires Wired(s.hub, s.askers) && DecidersFit(s.hub, s.answerers)
    ensures var t := Effect(env, s, e); DecidersFit(t.hub, t.answerers)
  {
    hide AskerEffect, WaiterEffect, ExpirerEffect, ShapeAsk, ExpireStale, AsksMove, WiredAsker, DeciderFits, LookedUp,
         AnswererEffect;
    EffectMoves(env, s, e);
    var t := Effect(env, s, e);
    DecidersFrame(s.hub, t.hub, s.answerers);
    if e.StartAnswer? {
      LookupFits(s.hub, e);
    } else if e.StepAnswerer? && e.t in s.answerers {
      DecidesOnce(s.hub, s.answerers[e.t], e.pick, e.now);
    }
  }

  lemma LookupFits(h: Hub, e: Event)
    requires e.StartAnswer?
    ensures LookedUp(h, e).Some? ==> DeciderFits(h, LookedUp(h, e).value)
  {
    hide MayAnswer;
  }

  lemma DecidesOnce(h: Hub, a: Answerer, pick: AskId, now: int)
    ensures var (h', a') := AnswererEffect(h, a, pick, now);
            DeciderFits(h', a')
  {
    hide ReleaseList, ViewerId, MayAnswer;
  }

  lemma OnceSettledKept(env: Env, s: State, e: Event)
    requires Wired(s.hub, s.askers) && DecidersFit(s.hub, s.answerers) && OnceSettled(s.hub.asks, s.first)
    ensures OnceSettled(After(env, s, e).hub.asks, After(env, s, e).first)
  {
    EffectMoves(env, s, e);
    NotedStands(s.hub.asks, Effect(env, s, e).hub.asks, s.first);
  }

  lemma NotedStands(asks: Asks, asks': Asks, first: map<AskId, Ask>)
    requires OnceSettled(asks, first) && AsksMove(asks, asks')
    ensures OnceSettled(asks', Noted(first, asks'))
  {
  }
}
