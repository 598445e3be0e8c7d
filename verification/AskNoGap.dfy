/** No pending prompt is left behind by an allow that covers it, and the caps on pending asks. */
module AskNoGap {
  import opened Prelude
  import opened AskShape
  import opened AskStore
  import opened AskProtocol
  import opened AskWiring
  import opened AskProvenance

  /** b is a prompt still waiting that person-allowed prompt p covers. */
  ghost predicate LeftWaiting(asks: Asks, byPerson: set<AskId>, p: AskId, b: AskId) {
    && p in byPerson && p in asks && b in asks
    && asks[b].facts.kind == Permission && asks[b].status == Pending && CoversFacts(asks[p].facts, asks[b].facts)
  }

  /** The asker of b has yet to look again, or has looked and is about to release it. */
  predicate AskerOwes(askers: map<AskId, Asker>, b: AskId) {
    b in askers && (askers[b].phase.Rechecking? || askers[b].phase.Releasing?)
  }

  /** An answerer has allowed p and not yet listed what it covers, or has b on its list. */
  predicate AnswererOwes(a: Answerer, p: AskId, b: AskId) {
    match a
    case Passing(job) => RestOwes(job, p, b)
    case Posting(job) => RestOwes(job, p, b)
    case Listing(allow, _) => allow.facts.id == p
    case Freeing(_, _, todo) => b in todo
    case _ => false
  }

  predicate RestOwes(job: Job, p: AskId, b: AskId) {
    match job.rest
    case AfterOwn => job.updated.facts.id == p
    case AfterEach(todo) => b in todo
  }

  ghost predicate SomebodyOwes(askers: map<AskId, Asker>, answerers: map<nat, Answerer>, p: AskId, b: AskId) {
    AskerOwes(askers, b) || exists t :: t in answerers && AnswererOwes(answerers[t], p, b)
  }

  ghost predicate NoGap(s: State) {
    forall p, b :: LeftWaiting(s.hub.asks, s.byPerson, p, b) ==> SomebodyOwes(s.askers, s.answerers, p, b)
  }

  /** What waits now on an old allow waited before, unless this step stored it. */
  lemma WaitedBefore(asks: Asks, asks': Asks, byPerson: set<AskId>, p: AskId, b: AskId)
    requires AsksMove(asks, asks') && ByPersonHolds(asks, byPerson) && p in byPerson && b in asks
    requires LeftWaiting(asks', byPerson, p, b)
    ensures LeftWaiting(asks, byPerson, p, b) && asks'[b] == asks[b]
  {
    hide CoversFacts, SameFold;
    assert PersonAllowed(asks[p]);
  }

  lemma AskerStepOwes(h: Hub, id: AskId, k: Asker, who: string, now: int, timeout: int)
    requires WiredAsker(h, id, k)
    ensures var (h', k') := AskerEffect(h, k, who, now, timeout);
            && (id !in h.asks && id in h'.asks && h'.asks[id].status == Pending ==> k'.phase.Rechecking?)
            && (forall x :: x in h'.asks && x !in h.asks ==> x == id)
            && (k.phase.Rechecking? && AsksForRun(k.ask) && who != "" ==> k'.phase.Releasing?)
            && (k.phase.Releasing? ==> id in h'.asks && h'.asks[id].status != Pending)
  {
    hide KeysFit, HasRoom, AskTimeout;
  }

  /** Looking again finds any allow that covers the prompt. */
  lemma RecheckFinds(s: State, p: AskId, id: AskId, who: string)
    requires Wired(s.hub, s.askers) && Provenance(s) && id in s.askers && AsksForRun(s.askers[id].ask)
    requires LeftWaiting(s.hub.asks, s.byPerson, p, id)
    requires var k := s.askers[id];
             AllowedBy(s.hub.asks, k.ask.facts.project, k.ask.facts.runId.value, k.ask.facts.tool, k.lookupKey, who)
    ensures who != ""
  {
    hide KeysFit, SameFold, ReleaseCovers, LookupCovers, AskersGranted, AnswerersFit, Granted;
    var k := s.askers[id];
    var asks := s.hub.asks;
    assert WiredAsker(s.hub, id, k);
    assert PersonAllowed(asks[p]);
    AllowCovers(s, p, id);
    assert Allows(asks[p], k.ask.facts.project, k.ask.facts.runId.value, k.ask.facts.tool, k.lookupKey);
  }

  lemma AskerKeepsNoGap(s: State, e: Event, env: Env)
    requires Wired(s.hub, s.askers) && Provenance(s) && NoGap(s) && e.StepAsker? && e.id in s.askers && Honest(s, e)
    ensures NoGap(Effect(env, s, e))
  {
    hide AskerEffect, WiredAsker, AsksMove, AllowedBy, CoversFacts, Traced, AskersGranted, AnswerersFit, PersonAllowed,
         AnswererOwes, OnlyAt, ByPersonHolds;
    var k := s.askers[e.id];
    var (h, k') := AskerEffect(s.hub, k, e.who, e.now, e.timeout);
    assert WiredAsker(s.hub, e.id, k);
    AskerStays(s.hub, e.id, k, e.who, e.now, e.timeout);
    AskerStepOwes(s.hub, e.id, k, e.who, e.now, e.timeout);
    forall p, b | LeftWaiting(h.asks, s.byPerson, p, b) ensures SomebodyOwes(s.askers[e.id := k'], s.answerers, p, b) {
      if b in s.hub.asks {
        WaitedBefore(s.hub.asks, h.asks, s.byPerson, p, b);
        if b == e.id && k.phase.Rechecking? {
          AskFacts(s, b);
          CoveredIsForRun(s.hub.asks, s.byPerson, p, b);
          RecheckFinds(s, p, b, e.who);
        }
      }
    }
  }

  lemma CoveredIsForRun(asks: Asks, byPerson: set<AskId>, p: AskId, b: AskId)
    requires LeftWaiting(asks, byPerson, p, b)
    ensures AsksForRun(asks[b])
  {
  }

  lemma AskFacts(s: State, b: AskId)
    requires Wired(s.hub, s.askers) && b in s.hub.asks
    ensures b in s.askers && s.askers[b].ask.facts == s.hub.asks[b].facts
  {
    hide KeysFit;
    assert b in s.askers && WiredAsker(s.hub, b, s.askers[b]);
  }

  /** An answerer's step keeps what it owes until it has paid. */
  lemma AnswererPays(s: State, a: Answerer, pick: AskId, now: int, p: AskId, b: AskId)
    requires Wired(s.hub, s.askers) && Provenance(s) && DeciderFits(s.hub, a) && AnswererFits(s.hub.asks, s.byPerson, a)
    requires AnswererOwes(a, p, b) && LeftWaiting(s.hub.asks, s.byPerson, p, b)
    requires var (h, a') := AnswererEffect(s.hub, a, pick, now); b in h.asks && h.asks[b].status == Pending
    ensures AnswererOwes(AnswererEffect(s.hub, a, pick, now).1, p, b)
  {
    hide Granted, KeysFit, Traced, IsShell, MayAnswer, SameFold, ReleaseCovers;
    assert PersonAllowed(s.hub.asks[p]);
  }

  /** A person's fresh allow owes everything it covers. */
  lemma FreshAllowOwes(h: Hub, byPerson: set<AskId>, a: Answerer, pick: AskId, now: int, p: AskId, b: AskId)
    requires var (h', a') := AnswererEffect(h, a, pick, now); p in PersonAllows(byPerson, a, a') && p !in byPerson
    requires a.Deciding? && a.id in h.asks && h.asks[a.id].facts.id == a.id
    ensures AnswererOwes(AnswererEffect(h, a, pick, now).1, p, b)
  {
    hide ReleaseList, ViewerId, IsRunAllow;
    var a' := AnswererEffect(h, a, pick, now).1;
    assert p == a.id && a'.Passing? && a'.job.rest == AfterOwn && a'.job.updated.facts.id == p;
  }

  lemma AnswererKeepsNoGap(s: State, e: Event, env: Env)
    requires Wired(s.hub, s.askers) && DecidersFit(s.hub, s.answerers) && Provenance(s) && NoGap(s)
    requires e.StepAnswerer? && e.t in s.answerers
    ensures NoGap(Effect(env, s, e))
  {
    hide AnswererEffect, WiredAsker, AsksMove, CoversFacts, Traced, AskersGranted, PersonAllowed, Provenance,
         AnswererOwes, ByPersonHolds, PersonAllows, AnswererFits, DeciderFits, OnlyContents;
    var a := s.answerers[e.t];
    var (h, a') := AnswererEffect(s.hub, a, e.pick, e.now);
    var byPerson := PersonAllows(s.byPerson, a, a');
    AnswererStays(s.hub, a, e.pick, e.now);
    AsksStay(s.hub, a, e.pick, e.now);
    ProvenanceParts(s, e.t);
    forall p, b | LeftWaiting(h.asks, byPerson, p, b) ensures SomebodyOwes(s.askers, s.answerers[e.t := a'], p, b) {
      if p in s.byPerson {
        WaitedBefore(s.hub.asks, h.asks, s.byPerson, p, b);
        if !AskerOwes(s.askers, b) {
          var t :| t in s.answerers && AnswererOwes(s.answerers[t], p, b);
          if t == e.t {
            AnswererPays(s, a, e.pick, e.now, p, b);
            assert e.t in s.answerers[e.t := a'] && AnswererOwes(s.answerers[e.t := a'][e.t], p, b);
          } else {
            assert t in s.answerers[e.t := a'] && AnswererOwes(s.answerers[e.t := a'][t], p, b);
          }
        }
      } else {
        FreshIsOwn(s, a, e.pick, e.now, p);
        FreshAllowOwes(s.hub, s.byPerson, a, e.pick, e.now, p, b);
        assert e.t in s.answerers[e.t := a'] && AnswererOwes(s.answerers[e.t := a'][e.t], p, b);
      }
    }
  }

  lemma AsksStay(h: Hub, a: Answerer, pick: AskId, now: int)
    ensures var h' := AnswererEffect(h, a, pick, now).0; forall b :: b in h'.asks <==> b in h.asks
  {
    hide ReleaseList, ViewerId;
  }

  lemma ProvenanceParts(s: State, t: nat)
    requires Provenance(s) && t in s.answerers
    ensures ByPersonHolds(s.hub.asks, s.byPerson) && AnswererFits(s.hub.asks, s.byPerson, s.answerers[t])
  {
    hide AnswererFits, ByPersonHolds, Traced, AskersGranted;
  }

  lemma FreshIsOwn(s: State, a: Answerer, pick: AskId, now: int, p: AskId)
    requires Wired(s.hub, s.askers) && DeciderFits(s.hub, a)
    requires var a' := AnswererEffect(s.hub, a, pick, now).1; p in PersonAllows(s.byPerson, a, a') && p !in s.byPerson
    ensures a.Deciding? && p == a.id && a.id in s.hub.asks && s.hub.asks[a.id].facts.id == a.id
  {
    hide KeysFit, ReleaseList, ViewerId, MayAnswer;
    assert a.id in s.askers && WiredAsker(s.hub, a.id, s.askers[a.id]);
  }

  /** A step that stores nothing, allows nothing, and leaves askers who owe and answerers alone. */
  lemma QuietKeepsNoGap(s: State, t: State)
    requires NoGap(s) && AsksMove(s.hub.asks, t.hub.asks) && ByPersonHolds(s.hub.asks, s.byPerson)
    requires t.byPerson == s.byPerson && (forall b :: b in t.hub.asks ==> b in s.hub.asks)
    requires forall b :: AskerOwes(s.askers, b) ==> AskerOwes(t.askers, b)
    requires forall i :: i in s.answerers ==> i in t.answerers && t.answerers[i] == s.answerers[i]
    ensures NoGap(t)
  {
    hide AnswererOwes, AskerOwes, ByPersonHolds, AsksMove, CoversFacts;
    forall p, b | LeftWaiting(t.hub.asks, t.byPerson, p, b) ensures SomebodyOwes(t.askers, t.answerers, p, b) {
      WaitedBefore(s.hub.asks, t.hub.asks, s.byPerson, p, b);
      if !AskerOwes(t.askers, b) {
        var i :| i in s.answerers && AnswererOwes(s.answerers[i], p, b);
        assert i in t.answerers && AnswererOwes(t.answerers[i], p, b);
      }
    }
  }

  lemma NoGapKept(env: Env, s: State, e: Event)
    requires Wired(s.hub, s.askers) && DecidersFit(s.hub, s.answerers) && Provenance(s) && NoGap(s) && Honest(s, e)
    ensures NoGap(Effect(env, s, e))
  {
    hide WiredAsker, AsksMove, AskerEffect, AnswererEffect, ExpirerEffect, WaiterEffect, LookedUp, NoGap,
         DeciderFits, ShapeAsk, ExpireStale, AllowedBy, OnlyAt, ByPersonHolds, Traced, AskersGranted, AnswerersFit;
    var t := Effect(env, s, e);
    EffectMoves(env, s, e);
    match e
    case StepAsker(id, who, now, timeout) => if id in s.askers { AskerKeepsNoGap(s, e, env); }
    case StepAnswerer(i, pick, now) => if i in s.answerers { AnswererKeepsNoGap(s, e, env); }
    case StepExpirer(i, pick, now) =>
      if i in s.expirers { ExpirerStays(s.hub, s.expirers[i], pick, now); }
      QuietKeepsNoGap(s, t);
    case SweepStale(projects, now) =>
      SweepStays(s.hub, projects, now);
      QuietKeepsNoGap(s, t);
    case StartAsk(_, _, _, _, _, _, _) => QuietKeepsNoGap(s, t);
    case StartAnswer(_, _, _, _, _, _, _) => QuietKeepsNoGap(s, t);
    case StartExpiry(_, _, _) => QuietKeepsNoGap(s, t);
    case _ =>
      if e.id in s.askers {
        WaitersOweNothing(s.hub, s.askers[e.id], e);
        QuietKeepsNoGap(s, t);
      }
  }

  lemma WaitersOweNothing(h: Hub, k: Asker, e: Event)
    ensures var (h', k') := WaiterEffect(h, k, e);
            && (k' == k || (!k.phase.Rechecking? && !k.phase.Releasing?))
            && (forall b :: b in h'.asks ==> b in h.asks)
  {
  }

  // ---------------------------------------------------------------- the caps on pending asks

  /** A session waits on one question and eight prompts at most, an account on 160 asks in a project. */
  ghost predicate Capped(asks: Asks) {
    && (forall project, session, permission ::
          |SessionLoad(asks, project, session, permission)| <= SessionLimit(permission))
    && (forall project, actor :: |ActorLoad(asks, project, actor)| <= MAX_PENDING_PER_ACTOR)
  }

  /** Asks that only settle leave the caps in place. */
  lemma SettlingKeepsCaps(asks: Asks, asks': Asks)
    requires Capped(asks) && AsksMove(asks, asks')
    requires forall b :: b in asks' && asks'[b].status == Pending ==> b in asks
    ensures Capped(asks')
  {
    forall project, session, permission
      ensures |SessionLoad(asks', project, session, permission)| <= SessionLimit(permission)
    {
      SubsetCardinality(SessionLoad(asks', project, session, permission),
                        SessionLoad(asks, project, session, permission));
    }
    forall project, actor ensures |ActorLoad(asks', project, actor)| <= MAX_PENDING_PER_ACTOR {
      SubsetCardinality(ActorLoad(asks', project, actor), ActorLoad(asks, project, actor));
    }
  }

  lemma InsertSessionLoad(asks: Asks, id: AskId, ask: Ask, project: nat, session: nat, permission: bool)
    requires id !in asks && HasRoom(asks, ask)
    requires |SessionLoad(asks, project, session, permission)| <= SessionLimit(permission)
    ensures |SessionLoad(asks[id := ask], project, session, permission)| <= SessionLimit(permission)
  {
    hide ActorLoad;
    var was := SessionLoad(asks, project, session, permission);
    var is' := SessionLoad(asks[id := ask], project, session, permission);
    if project == ask.facts.project && session == ask.facts.session && permission == (ask.facts.kind == Permission) {
      SubsetCardinality(is', was + {id});
    } else {
      SubsetCardinality(is', was);
    }
  }

  lemma InsertActorLoad(asks: Asks, id: AskId, ask: Ask, project: nat, actor: string)
    requires id !in asks && HasRoom(asks, ask) && |ActorLoad(asks, project, actor)| <= MAX_PENDING_PER_ACTOR
    ensures |ActorLoad(asks[id := ask], project, actor)| <= MAX_PENDING_PER_ACTOR
  {
    hide SessionLoad, Lower;
    var was, is' := ActorLoad(asks, project, actor), ActorLoad(asks[id := ask], project, actor);
    if project == ask.facts.project && SameFold(ask.facts.actor, actor) {
      assert was == ActorLoad(asks, project, ask.facts.actor);
      SubsetCardinality(is', was + {id});
    } else {
      SubsetCardinality(is', was);
    }
  }

  /** Storing one ask where there is room keeps the caps. */
  lemma InsertKeepsCaps(asks: Asks, id: AskId, ask: Ask)
    requires Capped(asks) && id !in asks && HasRoom(asks, ask)
    ensures Capped(asks[id := ask])
  {
    hide SessionLoad, ActorLoad, HasRoom;
    var asks' := asks[id := ask];
    forall project, session, permission
      ensures |SessionLoad(asks', project, session, permission)| <= SessionLimit(permission)
    {
      InsertSessionLoad(asks, id, ask, project, session, permission);
    }
    forall project, actor ensures |ActorLoad(asks', project, actor)| <= MAX_PENDING_PER_ACTOR {
      InsertActorLoad(asks, id, ask, project, actor);
    }
  }

  lemma AskerKeepsCaps(h: Hub, id: AskId, k: Asker, who: string, now: int, timeout: int)
    requires WiredAsker(h, id, k) && Capped(h.asks)
    ensures Capped(AskerEffect(h, k, who, now, timeout).0.asks)
  {
    hide KeysFit, HasRoom, AskTimeout, Capped, AsksMove;
    var (h', k') := AskerEffect(h, k, who, now, timeout);
    AskerStays(h, id, k, who, now, timeout);
    if k.phase.Inserting? && HasRoom(h.asks, k.ask) {
      InsertKeepsCaps(h.asks, id, k.ask);
    } else {
      SettlingKeepsCaps(h.asks, h'.asks);
    }
  }

  lemma CapsKept(env: Env, s: State, e: Event)
    requires Wired(s.hub, s.askers) && DecidersFit(s.hub, s.answerers) && Capped(s.hub.asks)
    ensures Capped(Effect(env, s, e).hub.asks)
  {
    hide WiredAsker, AsksMove, AskerEffect, AnswererEffect, ExpirerEffect, WaiterEffect, LookedUp, Capped,
         DeciderFits, ShapeAsk, ExpireStale, OnlyAt;
    var t := Effect(env, s, e);
    EffectMoves(env, s, e);
    match e
    case StepAsker(id, who, now, timeout) =>
      if id in s.askers { AskerKeepsCaps(s.hub, id, s.askers[id], who, now, timeout); }
    case StepAnswerer(i, pick, now) =>
      if i in s.answerers {
        AnswererStays(s.hub, s.answerers[i], pick, now);
        SettlingKeepsCaps(s.hub.asks, t.hub.asks);
      }
    case StepExpirer(i, pick, now) =>
      if i in s.expirers { ExpirerStays(s.hub, s.expirers[i], pick, now); SettlingKeepsCaps(s.hub.asks, t.hub.asks); }
    case SweepStale(projects, now) => SweepStays(s.hub, projects, now); SettlingKeepsCaps(s.hub.asks, t.hub.asks);
    case StartAsk(_, _, _, _, _, _, _) =>
    case StartAnswer(_, _, _, _, _, _, _) =>
    case StartExpiry(_, _, _) =>
    case _ =>
      if e.id in s.askers { WaitersOweNothing(s.hub, s.askers[e.id], e); SettlingKeepsCaps(s.hub.asks, t.hub.asks); }
  }
}
