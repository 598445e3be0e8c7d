/** What a call that asks returns: the decision that settled its ask, and no decision is lost. */
module AskDelivery {
  import opened Prelude
  import opened AskShape
  import opened AskStore
  import opened AskProtocol
  import opened AskWiring

  /** v is the form ask id first settled in or, when that was an expiry, how it stands now. */
  ghost predicate Genuine(asks: Asks, first: map<AskId, Ask>, id: AskId, v: Ask) {
    id in first && id in asks && (v == first[id] || (first[id].status == Expired && v == asks[id]))
  }

  /** A value travels under its own id. */
  ghost predicate GenuineOwn(asks: Asks, first: map<AskId, Ask>, v: Ask) {
    Genuine(asks, first, v.facts.id, v)
  }

  ghost predicate AskerGenuine(asks: Asks, first: map<AskId, Ask>, id: AskId, k: Asker) {
    match k.phase
    case Handing(updated) => Genuine(asks, first, id, updated)
    case Sending(updated) => Genuine(asks, first, id, updated)
    case Leaving(result) => result.Some? ==> Genuine(asks, first, id, result.value)
    case Done(result) => result.Some? ==> Genuine(asks, first, id, result.value)
    case _ => true
  }

  ghost predicate AnswererGenuine(asks: Asks, first: map<AskId, Ask>, a: Answerer) {
    match a
    case Passing(job) => GenuineOwn(asks, first, job.updated)
    case Posting(job) => GenuineOwn(asks, first, job.updated)
    case _ => true
  }

  ghost predicate ExpirerGenuine(asks: Asks, first: map<AskId, Ask>, x: Expirer) {
    match x
    case Looking(_, expired, _) => GenuineOwn(asks, first, expired)
    case Signalling(_, expired, _) => GenuineOwn(asks, first, expired)
    case _ => true
  }

  ghost predicate ChansGenuine(asks: Asks, first: map<AskId, Ask>, chans: Chans) {
    forall id :: id in chans && chans[id].Some? ==> Genuine(asks, first, id, chans[id].value)
  }

  /** Everything on its way to an asker, or returned by it, is genuine. */
  ghost predicate AllGenuine(s: State) {
    && ChansGenuine(s.hub.asks, s.first, s.hub.chans)
    && (forall id :: id in s.askers ==> AskerGenuine(s.hub.asks, s.first, id, s.askers[id]))
    && (forall t :: t in s.answerers ==> AnswererGenuine(s.hub.asks, s.first, s.answerers[t]))
    && (forall t :: t in s.expirers ==> ExpirerGenuine(s.hub.asks, s.first, s.expirers[t]))
  }

  /** Stored asks carry their own id. */
  ghost predicate OwnIds(asks: Asks) {
    forall id :: id in asks ==> asks[id].facts.id == id
  }

  lemma WiredOwnIds(h: Hub, askers: map<AskId, Asker>)
    requires Wired(h, askers)
    ensures OwnIds(h.asks)
  {
    hide KeysFit;
    forall id | id in h.asks ensures h.asks[id].facts.id == id {
      assert WiredAsker(h, id, askers[id]);
    }
  }

  lemma GenuineStays(asks: Asks, asks': Asks, first: map<AskId, Ask>, id: AskId, v: Ask)
    requires AsksMove(asks, asks') && OnceSettled(asks, first) && Genuine(asks, first, id, v)
    ensures Genuine(asks', Noted(first, asks'), id, v)
  {
  }

  /** A settled ask, as it stands, is genuine. */
  lemma StandingIsGenuine(asks: Asks, first: map<AskId, Ask>, id: AskId)
    requires OnceSettled(asks, first) && id in asks && Settled(asks[id])
    ensures Genuine(asks, first, id, asks[id])
  {
  }

  /** What was genuine before a step is genuine after it, wherever it is. */
  lemma AllStayGenuine(s: State, asks: Asks)
    requires AllGenuine(s) && AsksMove(s.hub.asks, asks) && OnceSettled(s.hub.asks, s.first)
    ensures ChansGenuine(asks, Noted(s.first, asks), s.hub.chans)
    ensures forall id :: id in s.askers ==> AskerGenuine(asks, Noted(s.first, asks), id, s.askers[id])
    ensures forall t :: t in s.answerers ==> AnswererGenuine(asks, Noted(s.first, asks), s.answerers[t])
    ensures forall t :: t in s.expirers ==> ExpirerGenuine(asks, Noted(s.first, asks), s.expirers[t])
  {
    hide AsksMove, OnceSettled, Genuine, Noted;
    var first := Noted(s.first, asks);
    forall id, v | Genuine(s.hub.asks, s.first, id, v) ensures Genuine(asks, first, id, v) {
      GenuineStays(s.hub.asks, asks, s.first, id, v);
    }
    forall id | id in s.askers ensures AskerGenuine(asks, first, id, s.askers[id]) {
      assert AskerGenuine(s.hub.asks, s.first, id, s.askers[id]);
    }
    forall t | t in s.answerers ensures AnswererGenuine(asks, first, s.answerers[t]) {
      assert AnswererGenuine(s.hub.asks, s.first, s.answerers[t]);
    }
    forall t | t in s.expirers ensures ExpirerGenuine(asks, first, s.expirers[t]) {
      assert ExpirerGenuine(s.hub.asks, s.first, s.expirers[t]);
    }
  }

  lemma SentGenuine(asks: Asks, first: map<AskId, Ask>, chans: Chans, v: Ask)
    requires ChansGenuine(asks, first, chans) && GenuineOwn(asks, first, v)
    ensures ChansGenuine(asks, first, Sent(chans, v))
  {
    hide Genuine;
  }

  lemma AskerStepGenuine(h: Hub, first: map<AskId, Ask>, id: AskId, k: Asker, who: string, now: int, timeout: int)
    requires WiredAsker(h, id, k) && OnceSettled(h.asks, first)
    requires var h' := AskerEffect(h, k, who, now, timeout).0;
             && ChansGenuine(h'.asks, Noted(first, h'.asks), h.chans)
             && AskerGenuine(h'.asks, Noted(first, h'.asks), id, k)
             && OnceSettled(h'.asks, Noted(first, h'.asks))
    ensures var (h', k') := AskerEffect(h, k, who, now, timeout);
            && ChansGenuine(h'.asks, Noted(first, h'.asks), h'.chans)
            && AskerGenuine(h'.asks, Noted(first, h'.asks), id, k')
  {
    hide KeysFit, HasRoom, AskTimeout, Genuine, OnceSettled, Noted;
    var (h', k') := AskerEffect(h, k, who, now, timeout);
    match k.phase
    case Allowing(_) => StandingIsGenuine(h'.asks, Noted(first, h'.asks), id);
    case Releasing(_) => if k'.phase.Handing? { StandingIsGenuine(h'.asks, Noted(first, h'.asks), id); }
    case Sending(updated) => SentGenuine(h'.asks, Noted(first, h'.asks), h.chans, updated);
    case _ =>
  }

  lemma WaiterStepGenuine(h: Hub, first: map<AskId, Ask>, id: AskId, k: Asker, e: Event)
    requires WiredAsker(h, id, k)
    requires var h' := WaiterEffect(h, k, e).0;
             && ChansGenuine(h'.asks, Noted(first, h'.asks), h.chans)
             && AskerGenuine(h'.asks, Noted(first, h'.asks), id, k)
             && OnceSettled(h'.asks, Noted(first, h'.asks))
    ensures var (h', k') := WaiterEffect(h, k, e);
            && ChansGenuine(h'.asks, Noted(first, h'.asks), h'.chans)
            && AskerGenuine(h'.asks, Noted(first, h'.asks), id, k')
  {
    hide KeysFit, Genuine, OnceSettled, Noted;
    var (h', k') := WaiterEffect(h, k, e);
    if k.phase == Waiting && e.TimeOut? {
      StandingIsGenuine(h'.asks, Noted(first, h'.asks), id);
    }
  }

  lemma AnswererStepGenuine(h: Hub, first: map<AskId, Ask>, a: Answerer, pick: AskId, now: int)
    requires DeciderFits(h, a) && OwnIds(h.asks)
    requires var h' := AnswererEffect(h, a, pick, now).0;
             && ChansGenuine(h'.asks, Noted(first, h'.asks), h.chans)
             && AnswererGenuine(h'.asks, Noted(first, h'.asks), a)
             && OnceSettled(h'.asks, Noted(first, h'.asks))
    ensures var (h', a') := AnswererEffect(h, a, pick, now);
            && ChansGenuine(h'.asks, Noted(first, h'.asks), h'.chans)
            && AnswererGenuine(h'.asks, Noted(first, h'.asks), a')
  {
    hide Genuine, OnceSettled, Noted, ReleaseList, ViewerId, MayAnswer;
    var (h', a') := AnswererEffect(h, a, pick, now);
    match a
    case Deciding(_, id, _, _, _, _, _) => if a'.Passing? { StandingIsGenuine(h'.asks, Noted(first, h'.asks), id); }
    case Freeing(_, _, _) => if a'.Passing? { StandingIsGenuine(h'.asks, Noted(first, h'.asks), pick); }
    case Posting(job) => SentGenuine(h'.asks, Noted(first, h'.asks), h.chans, job.updated);
    case _ =>
  }

  lemma ExpirerStepGenuine(h: Hub, first: map<AskId, Ask>, x: Expirer, pick: AskId, now: int)
    requires OwnIds(h.asks)
    requires var h' := ExpirerEffect(h, x, pick, now).0;
             && ChansGenuine(h'.asks, Noted(first, h'.asks), h.chans)
             && ExpirerGenuine(h'.asks, Noted(first, h'.asks), x)
             && OnceSettled(h'.asks, Noted(first, h'.asks))
    ensures var (h', x') := ExpirerEffect(h, x, pick, now);
            && ChansGenuine(h'.asks, Noted(first, h'.asks), h'.chans)
            && ExpirerGenuine(h'.asks, Noted(first, h'.asks), x')
  {
    hide Genuine, OnceSettled, Noted, RunPending;
    var (h', x') := ExpirerEffect(h, x, pick, now);
    match x
    case Expiring(_, _) => if x'.Looking? { StandingIsGenuine(h'.asks, Noted(first, h'.asks), pick); }
    case Signalling(_, expired, _) => SentGenuine(h'.asks, Noted(first, h'.asks), h.chans, expired);
    case _ =>
  }

  lemma GenuineKept(env: Env, s: State, e: Event)
    requires Wired(s.hub, s.askers) && DecidersFit(s.hub, s.answerers) && OnceSettled(s.hub.asks, s.first)
    requires AllGenuine(s)
    ensures AllGenuine(After(env, s, e))
  {
    hide WiredAsker, AsksMove, AskerEffect, AnswererEffect, ExpirerEffect, WaiterEffect, LookedUp, ShapeAsk;
    hide ExpireStale, DeciderFits, OnceSettled, Noted, AskerGenuine, AnswererGenuine, ExpirerGenuine, ChansGenuine,
         OnlyAt, OnlyContents,
         OwnIds, PersonAllows, NewAsk;
    var t := Effect(env, s, e);
    EffectMoves(env, s, e);
    OnceSettledKept(env, s, e);
    AllStayGenuine(s, t.hub.asks);
    WiredOwnIds(s.hub, s.askers);
    match e
    case StepAsker(id, who, now, timeout) =>
      if id in s.askers { AskerStepGenuine(s.hub, s.first, id, s.askers[id], who, now, timeout); }
    case StepAnswerer(i, pick, now) =>
      if i in s.answerers { AnswererStepGenuine(s.hub, s.first, s.answerers[i], pick, now); }
    case StepExpirer(i, pick, now) =>
      if i in s.expirers { ExpirerStepGenuine(s.hub, s.first, s.expirers[i], pick, now); }
    case SweepStale(projects, now) =>
    case StartAsk(id, _, _, _, _, _, _) => NewThreadsGenuine(env, s, e);
    case StartAnswer(i, _, _, _, _, _, _) => NewThreadsGenuine(env, s, e);
    case StartExpiry(i, _, _) => NewThreadsGenuine(env, s, e);
    case _ => if e.id in s.askers { WaiterStepGenuine(s.hub, s.first, e.id, s.askers[e.id], e); }
  }

  lemma NewThreadsGenuine(env: Env, s: State, e: Event)
    requires e.StartAsk? || e.StartAnswer? || e.StartExpiry?
    requires forall id :: id in s.askers ==> AskerGenuine(s.hub.asks, Noted(s.first, s.hub.asks), id, s.askers[id])
    requires forall t :: t in s.answerers ==> AnswererGenuine(s.hub.asks, Noted(s.first, s.hub.asks), s.answerers[t])
    requires forall t :: t in s.expirers ==> ExpirerGenuine(s.hub.asks, Noted(s.first, s.hub.asks), s.expirers[t])
    requires ChansGenuine(s.hub.asks, Noted(s.first, s.hub.asks), s.hub.chans)
    ensures AllGenuine(After(env, s, e))
  {
    hide ShapeAsk, MayAnswer, Resolve, Genuine, Noted, ChansGenuine;
  }

  // ---------------------------------------------------------------- no decision is lost

  /** An asker that has yet to hear how its stored ask ends. */
  predicate Listening(p: Phase) {
    p.Rechecking? || p.Releasing? || p.Waiting?
  }

  /** An answerer about to hand the decision of ask id over. */
  predicate Carries(a: Answerer, id: AskId) {
    (a.Passing? || a.Posting?) && a.job.updated.facts.id == id
  }

  predicate DecidedFirst(first: map<AskId, Ask>, id: AskId) {
    id in first && first[id].status != Expired
  }

  ghost predicate ReachesAsker(h: Hub, answerers: map<nat, Answerer>, id: AskId) {
    (id in h.chans && h.chans[id].Some?) || exists t :: t in answerers && Carries(answerers[t], id)
  }

  /** A decided ask whose asker still listens is in its channel, or on its way there. */
  ghost predicate NoneLost(s: State) {
    forall id :: id in s.askers && Listening(s.askers[id].phase) && DecidedFirst(s.first, id) ==>
      ReachesAsker(s.hub, s.answerers, id)
  }

  lemma AskerKeepsListeners(h: Hub, id: AskId, k: Asker, who: string, now: int, timeout: int)
    requires WiredAsker(h, id, k)
    ensures var (h', k') := AskerEffect(h, k, who, now, timeout);
            && (forall x :: x != id && x in h.chans && h.chans[x].Some? ==> x in h'.chans && h'.chans[x].Some?)
            && (Listening(k.phase) && id in h.chans && h.chans[id].Some? && Listening(k'.phase) ==>
                  id in h'.chans && h'.chans[id].Some?)
            && (k.phase.Sending? ==> id in h'.chans && h'.chans[id].Some?)
            && (Listening(k'.phase) ==> Listening(k.phase) || k.phase.Sending? || k.phase.Inserting?)
            && (k.phase.Inserting? && Listening(k'.phase) ==> id in h'.asks && h'.asks[id].status == Pending)
            && (forall x :: x != id ==> (x in h.asks <==> x in h'.asks) && (x in h.asks ==> h'.asks[x] == h.asks[x]))
            && (Listening(k.phase) && Listening(k'.phase) && id in h.asks && id in h'.asks
                ==> h'.asks[id] == h.asks[id])
  {
    hide KeysFit, HasRoom, AskTimeout;
  }

  /** First decisions appear only as asks settle. */
  lemma NotedGrows(asks: Asks, asks': Asks, first: map<AskId, Ask>, id: AskId)
    requires OnceSettled(asks, first) && AsksMove(asks, asks') && DecidedFirst(Noted(first, asks'), id)
    ensures id in asks'
    ensures DecidedFirst(first, id) || (id in asks && asks'[id] != asks[id] && asks'[id].status != Expired)
            || (id !in asks && Settled(asks'[id]))
  {
  }

  lemma AskerLosesNone(env: Env, s: State, e: Event)
    requires Wired(s.hub, s.askers) && OnceSettled(s.hub.asks, s.first) && NoneLost(s)
    requires e.StepAsker? && e.id in s.askers
    ensures NoneLost(After(env, s, e))
  {
    hide WiredAsker, AsksMove, AskerEffect, OnceSettled, Noted, Carries, Listening, DecidedFirst, OnlyAt;
    var k := s.askers[e.id];
    var (h, k') := AskerEffect(s.hub, k, e.who, e.now, e.timeout);
    var t := After(env, s, e);
    assert WiredAsker(s.hub, e.id, k);
    AskerStays(s.hub, e.id, k, e.who, e.now, e.timeout);
    AskerKeepsListeners(s.hub, e.id, k, e.who, e.now, e.timeout);
    forall id | id in t.askers && Listening(t.askers[id].phase) && DecidedFirst(t.first, id)
      ensures ReachesAsker(t.hub, t.answerers, id)
    {
      NotedGrows(s.hub.asks, h.asks, s.first, id);
      if id == e.id && k.phase.Inserting? {
        PendingIsUndecided(s.hub.asks, h.asks, s.first, id);
      } else if id != e.id || !k.phase.Sending? {
        ListenerStored(s.hub, id, s.askers[id]);
        assert ReachesAsker(s.hub, s.answerers, id);
      }
    }
  }

  lemma PendingIsUndecided(asks: Asks, asks': Asks, first: map<AskId, Ask>, id: AskId)
    requires OnceSettled(asks, first) && AsksMove(asks, asks') && id in asks' && asks'[id].status == Pending
    ensures !DecidedFirst(Noted(first, asks'), id)
  {
  }

  lemma ListenerStored(h: Hub, id: AskId, k: Asker)
    requires Listening(k.phase)
    ensures WiredAsker(h, id, k) ==> id in h.asks && id in h.registered
  {
    hide KeysFit;
  }

  lemma AnswererHandsOver(h: Hub, a: Answerer, pick: AskId, now: int, id: AskId)
    requires DeciderFits(h, a) && OwnIds(h.asks)
    ensures var (h', a') := AnswererEffect(h, a, pick, now);
            && (id in h.chans && h.chans[id].Some? ==> id in h'.chans && h'.chans[id].Some?)
            && (Carries(a, id) && id in h.registered ==> Carries(a', id) || (id in h'.chans && h'.chans[id].Some?))
            && (id in h.asks && id in h'.asks && h'.asks[id] != h.asks[id] ==> Carries(a', id))
            && (id in h'.asks ==> id in h.asks)
  {
    hide ReleaseList, ViewerId, MayAnswer;
  }

  lemma AnswererLosesNone(env: Env, s: State, e: Event)
    requires Wired(s.hub, s.askers) && DecidersFit(s.hub, s.answerers) && OnceSettled(s.hub.asks, s.first)
    requires NoneLost(s)
    requires e.StepAnswerer? && e.t in s.answerers
    ensures NoneLost(After(env, s, e))
  {
    hide WiredAsker, AsksMove, AnswererEffect, OnceSettled, Noted, Carries, Listening, DecidedFirst, OnlyContents;
    hide PersonAllows, DeciderFits, OwnIds;
    var a := s.answerers[e.t];
    var (h, a') := AnswererEffect(s.hub, a, e.pick, e.now);
    var t := After(env, s, e);
    AnswererStays(s.hub, a, e.pick, e.now);
    WiredOwnIds(s.hub, s.askers);
    forall id | id in t.askers && Listening(t.askers[id].phase) && DecidedFirst(t.first, id)
      ensures ReachesAsker(t.hub, t.answerers, id)
    {
      NotedGrows(s.hub.asks, h.asks, s.first, id);
      AnswererHandsOver(s.hub, a, e.pick, e.now, id);
      ListenerStored(s.hub, id, s.askers[id]);
      if Carries(a', id) {
        assert e.t in t.answerers && Carries(t.answerers[e.t], id);
      } else if !(id in h.chans && h.chans[id].Some?) {
        assert ReachesAsker(s.hub, s.answerers, id);
        var i :| i in s.answerers && Carries(s.answerers[i], id);
        assert i in t.answerers && Carries(t.answerers[i], id);
      }
    }
  }

  lemma ExpiryDecidesNothing(h: Hub, x: Expirer, pick: AskId, now: int, id: AskId)
    ensures var (h', x') := ExpirerEffect(h, x, pick, now);
            && (id in h.chans && h.chans[id].Some? ==> id in h'.chans && h'.chans[id].Some?)
            && (id in h'.asks ==> id in h.asks && (h'.asks[id] == h.asks[id] || h'.asks[id].status == Expired))
  {
    hide RunPending;
  }

  lemma SweepDecidesNothing(asks: Asks, projects: set<nat>, now: int, id: AskId)
    ensures var asks' := ExpireStale(asks, projects, now);
            id in asks' ==> id in asks && (asks'[id] == asks[id] || asks'[id].status == Expired)
  {
  }

  lemma WaiterDecidesNothing(h: Hub, k: Asker, e: Event, id: AskId)
    ensures var (h', k') := WaiterEffect(h, k, e);
            && (Listening(k'.phase) ==> h' == h && k' == k)
            && (id != k.ask.facts.id && id in h.chans && h.chans[id].Some? ==> id in h'.chans && h'.chans[id].Some?)
            && (id in h'.asks ==> id in h.asks && (h'.asks[id] == h.asks[id] || h'.asks[id].status == Expired))
  {
  }

  /** A step that decides nothing and empties no listener's channel loses nothing. */
  lemma QuietLosesNone(s: State, t: State)
    requires OnceSettled(s.hub.asks, s.first) && AsksMove(s.hub.asks, t.hub.asks) && NoneLost(s)
    requires t.first == Noted(s.first, t.hub.asks)
    requires forall id :: id in t.hub.asks
               ==> id in s.hub.asks && (t.hub.asks[id] == s.hub.asks[id] || t.hub.asks[id].status == Expired)
    requires forall id :: id in t.askers && Listening(t.askers[id].phase) && DecidedFirst(s.first, id) ==>
               id in s.askers && s.askers[id] == t.askers[id]
               && (id in s.hub.chans && s.hub.chans[id].Some? ==> id in t.hub.chans && t.hub.chans[id].Some?)
    requires forall i :: i in s.answerers ==> i in t.answerers && t.answerers[i] == s.answerers[i]
    ensures NoneLost(t)
  {
    hide AsksMove, OnceSettled, Noted, Carries, Listening, DecidedFirst;
    forall id | id in t.askers && Listening(t.askers[id].phase) && DecidedFirst(t.first, id)
      ensures ReachesAsker(t.hub, t.answerers, id)
    {
      NotedGrows(s.hub.asks, t.hub.asks, s.first, id);
      assert ReachesAsker(s.hub, s.answerers, id);
      if !(id in s.hub.chans && s.hub.chans[id].Some?) {
        var i :| i in s.answerers && Carries(s.answerers[i], id);
        assert i in t.answerers && Carries(t.answerers[i], id);
      }
    }
  }

  lemma NoneLostKept(env: Env, s: State, e: Event)
    requires Wired(s.hub, s.askers) && DecidersFit(s.hub, s.answerers) && OnceSettled(s.hub.asks, s.first)
    requires NoneLost(s)
    ensures NoneLost(After(env, s, e))
  {
    hide WiredAsker, AsksMove, AskerEffect, AnswererEffect, ExpirerEffect, WaiterEffect, LookedUp, ShapeAsk;
    hide ExpireStale, DeciderFits, OnceSettled, Noted, OnlyAt, OnlyContents, NoneLost, Listening, DecidedFirst;
    var t := After(env, s, e);
    EffectMoves(env, s, e);
    match e
    case StepAsker(id, _, _, _) => if id in s.askers { AskerLosesNone(env, s, e); } else { QuietLosesNone(s, t); }
    case StepAnswerer(i, _, _) => if i in s.answerers { AnswererLosesNone(env, s, e); } else { QuietLosesNone(s, t); }
    case StepExpirer(i, pick, now) =>
      if i in s.expirers {
        forall id { ExpiryDecidesNothing(s.hub, s.expirers[i], pick, now, id); }
      }
      QuietLosesNone(s, t);
    case SweepStale(projects, now) =>
      forall id { SweepDecidesNothing(s.hub.asks, projects, now, id); }
      QuietLosesNone(s, t);
    case StartAsk(id, _, _, _, _, _, _) => StartLosesNone(env, s, e);
    case StartAnswer(_, _, _, _, _, _, _) => QuietLosesNone(s, t);
    case StartExpiry(_, _, _) => QuietLosesNone(s, t);
    case _ =>
      if e.id in s.askers {
        WaiterLosesNone(s, e, t);
      } else {
        QuietLosesNone(s, t);
      }
  }

  lemma WaiterLosesNone(s: State, e: Event, t: State)
    requires Wired(s.hub, s.askers) && OnceSettled(s.hub.asks, s.first) && NoneLost(s)
    requires (e.Receive? || e.TimeOut? || e.Cancel?) && e.id in s.askers
    requires t.hub == WaiterEffect(s.hub, s.askers[e.id], e).0
    requires t.askers == s.askers[e.id := WaiterEffect(s.hub, s.askers[e.id], e).1] && t.answerers == s.answerers
    requires AsksMove(s.hub.asks, t.hub.asks) && t.first == Noted(s.first, t.hub.asks)
    ensures NoneLost(t)
  {
    hide WiredAsker, AsksMove, WaiterEffect, OnceSettled, Noted, NoneLost, Listening, DecidedFirst;
    assert WiredAsker(s.hub, e.id, s.askers[e.id]);
    OwnAskId(s.hub, e.id, s.askers[e.id]);
    forall id | id in t.hub.asks
      ensures id in s.hub.asks && (t.hub.asks[id] == s.hub.asks[id] || t.hub.asks[id].status == Expired)
    {
      WaiterDecidesNothing(s.hub, s.askers[e.id], e, id);
    }
    forall id | id in t.askers && Listening(t.askers[id].phase) && DecidedFirst(s.first, id)
      ensures id in s.askers && s.askers[id] == t.askers[id]
              && (id in s.hub.chans && s.hub.chans[id].Some? ==> id in t.hub.chans && t.hub.chans[id].Some?)
    {
      WaiterDecidesNothing(s.hub, s.askers[e.id], e, id);
    }
    QuietLosesNone(s, t);
  }

  lemma OwnAskId(h: Hub, id: AskId, k: Asker)
    requires WiredAsker(h, id, k)
    ensures k.ask.facts.id == id
  {
  }

  lemma StartLosesNone(env: Env, s: State, e: Event)
    requires OnceSettled(s.hub.asks, s.first) && NoneLost(s) && e.StartAsk?
    ensures NoneLost(After(env, s, e))
  {
    hide OnceSettled, Noted, ShapeAsk, DecidedFirst;
    var t := After(env, s, e);
    StandStillMoves(s.hub.asks);
    QuietLosesNone(s, t);
  }
}
