/** What holds of the hub's asks in every state of every run. */
module AskTheorems {
  import opened Prelude
  import opened AskShape
  import opened AskStore
  import opened AskProtocol
  import opened AskWiring
  import opened AskProvenance
  import opened AskNoGap
  import opened AskDelivery

  ghost predicate Good(s: State) {
    && Wired(s.hub, s.askers) && DecidersFit(s.hub, s.answerers) && OnceSettled(s.hub.asks, s.first)
    && Provenance(s) && NoGap(s) && Capped(s.hub.asks) && AllGenuine(s) && NoneLost(s)
  }

  lemma GoodAtFirst()
    ensures Good(Initial())
  {
    var s := Initial();
    forall project, session, permission
      ensures |SessionLoad(s.hub.asks, project, session, permission)| <= SessionLimit(permission)
    {
      assert SessionLoad(s.hub.asks, project, session, permission) == {};
    }
    forall project, actor ensures |ActorLoad(s.hub.asks, project, actor)| <= MAX_PENDING_PER_ACTOR {
      assert ActorLoad(s.hub.asks, project, actor) == {};
    }
  }

  lemma GoodKept(env: Env, s: State, e: Event, s': State)
    requires Good(s) && Step(env, s, e, s')
    ensures Good(s')
  {
    hide Wired, DecidersFit, OnceSettled, Provenance, NoGap, Capped, AllGenuine, NoneLost, Effect, Honest;
    WiredKept(env, s, e);
    DecidersKept(env, s, e);
    OnceSettledKept(env, s, e);
    ProvenanceKept(env, s, e);
    NoGapKept(env, s, e);
    CapsKept(env, s, e);
    GenuineKept(env, s, e);
    NoneLostKept(env, s, e);
    OnlyFirst(Effect(env, s, e), s');
  }

  /** The record of first forms is no part of what these invariants speak of. */
  lemma OnlyFirst(t: State, t': State)
    requires t' == t.(first := t'.first)
    ensures Provenance(t) ==> Provenance(t')
    ensures NoGap(t) ==> NoGap(t')
  {
    hide ByPersonHolds, Traced, AskersGranted, AnswerersFit, LeftWaiting, SomebodyOwes;
  }

  lemma {:induction false} AlwaysGood(env: Env, states: seq<State>, events: seq<Event>, i: nat)
    requires Run(env, states, events) && i < |states|
    ensures Good(states[i])
  {
    hide Good, Step;
    if i == 0 {
      GoodAtFirst();
    } else {
      AlwaysGood(env, states, events, i - 1);
      GoodKept(env, states[i - 1], events[i - 1], states[i]);
    }
  }

  /** Prompt b still waits although the stored allow a, however it came to be stored, covers it. */
  ghost predicate StillWaits(s: State, a: AskId, b: AskId) {
    && a in s.hub.asks && IsRunAllow(s.hub.asks[a])
    && b in s.hub.asks && s.hub.asks[b].facts.kind == Permission && s.hub.asks[b].status == Pending
    && CoversFacts(s.hub.asks[a].facts, s.hub.asks[b].facts)
  }

  predicate AtRest(a: Answerer) {
    a.Deciding? || a.Finished?
  }

  /** There is no gap: a prompt a stored allow covers waits only while its own asker, or the answerer
      of a person's allow that covers it, still has it to release. */
  lemma NoPromptLeftBehind(env: Env, states: seq<State>, events: seq<Event>, i: nat, a: AskId, b: AskId)
    requires Run(env, states, events) && i < |states| && StillWaits(states[i], a, b)
    ensures var s := states[i];
            || AskerOwes(s.askers, b)
            || exists t, p :: t in s.answerers && p in s.byPerson && AnswererOwes(s.answerers[t], p, b)
                              && LeftWaiting(s.hub.asks, s.byPerson, p, b)
  {
    hide Run, Good, AnswererOwes, Wired, DecidersFit, OnceSettled, AllGenuine, NoneLost, Capped, AskersGranted;
    hide AnswerersFit;
    var s := states[i];
    AlwaysGood(env, states, events, i);
    var p := PersonBehind(s, a, b);
    assert SomebodyOwes(s.askers, s.answerers, p, b) by { GoodParts(s); }
  }

  lemma GoodParts(s: State)
    requires Good(s)
    ensures NoGap(s) && Provenance(s)
  {
    hide Wired, DecidersFit, OnceSettled, AllGenuine, NoneLost, Capped, NoGap, Provenance;
  }

  /** Behind every stored allow that covers b stands a person's own that does. */
  lemma PersonBehind(s: State, a: AskId, b: AskId) returns (p: AskId)
    requires Good(s) && StillWaits(s, a, b)
    ensures LeftWaiting(s.hub.asks, s.byPerson, p, b) && s.hub.asks[p].decidedBy == s.hub.asks[a].decidedBy
  {
    hide Wired, DecidersFit, OnceSettled, AllGenuine, NoneLost, Capped, AskersGranted, AnswerersFit, NoGap, IsShell,
         ByPersonHolds;
    if a in s.byPerson {
      p := a;
    } else {
      p :| p in s.byPerson && p in s.hub.asks && s.hub.asks[p].decidedBy == s.hub.asks[a].decidedBy
           && CoversFacts(s.hub.asks[p].facts, s.hub.asks[a].facts);
    }
  }

  /** Once the threads have passed those steps, no pending prompt is covered by a stored allow. */
  lemma NoGapAtRest(env: Env, states: seq<State>, events: seq<Event>, i: nat, a: AskId, b: AskId)
    requires Run(env, states, events) && i < |states|
    requires !AskerOwes(states[i].askers, b)
    requires forall t :: t in states[i].answerers ==> AtRest(states[i].answerers[t])
    ensures !StillWaits(states[i], a, b)
  {
    hide Run, Good, StillWaits, LeftWaiting;
    if StillWaits(states[i], a, b) {
      NoPromptLeftBehind(env, states, events, i, a, b);
      assert false;
    }
  }

  /** Every prompt allowed for its run was allowed by a person who may answer it, or is covered by a
      prompt of the same project, run and tool that the very person named on it allowed. */
  lemma AllowsTraceToPersons(env: Env, states: seq<State>, events: seq<Event>, i: nat, id: AskId)
    requires Run(env, states, events) && i < |states|
    requires id in states[i].hub.asks && IsRunAllow(states[i].hub.asks[id])
    ensures var asks := states[i].hub.asks;
            exists p :: p in asks && PersonAllowed(asks[p]) && asks[p].decidedBy == asks[id].decidedBy
                        && (p == id || CoversFacts(asks[p].facts, asks[id].facts))
  {
    hide Run, Wired, DecidersFit, OnceSettled, AllGenuine, NoneLost, Capped, AskersGranted, AnswerersFit, NoGap,
         CoversFacts, PersonAllowed;
    AlwaysGood(env, states, events, i);
    var s := states[i];
    var asks := s.hub.asks;
    if id in s.byPerson {
      assert PersonAllowed(asks[id]);
    } else {
      var p :| p in s.byPerson && p in asks && asks[p].decidedBy == asks[id].decidedBy
               && CoversFacts(asks[p].facts, asks[id].facts);
      assert PersonAllowed(asks[p]);
    }
  }

  /** What a call that asks returns is the decision that moved its ask out of pending; a permission
      prompt's is also what its record says for ever after. Only a question that expired first may
      return that expiry or the one late answer that followed. */
  lemma ReturnsItsDecision(env: Env, states: seq<State>, events: seq<Event>, i: nat, id: AskId)
    requires Run(env, states, events) && i < |states|
    requires id in states[i].askers && states[i].askers[id].phase.Done? && states[i].askers[id].phase.result.Some?
    ensures var s := states[i];
            var returned := s.askers[id].phase.result.value;
            && id in s.first && id in s.hub.asks
            && (s.first[id].status != Expired ==> returned == s.first[id] == s.hub.asks[id])
            && (s.hub.asks[id].facts.kind == Permission ==> returned == s.hub.asks[id])
            && (returned == s.first[id] || returned == s.hub.asks[id])
  {
    hide Run, Wired, DecidersFit, NoneLost, Capped, NoGap, Provenance;
    AlwaysGood(env, states, events, i);
    var s := states[i];
    assert AskerGenuine(s.hub.asks, s.first, id, s.askers[id]);
  }

  /** A decision its asker still waits for is in the asker's channel once no answerer carries it. */
  lemma DecisionReachesAsker(env: Env, states: seq<State>, events: seq<Event>, i: nat, id: AskId)
    requires Run(env, states, events) && i < |states|
    requires id in states[i].askers && states[i].askers[id].phase.Waiting? && DecidedFirst(states[i].first, id)
    requires forall t :: t in states[i].answerers ==> !Carries(states[i].answerers[t], id)
    ensures var s := states[i];
            id in s.hub.chans && s.hub.chans[id] == Some(s.first[id])
  {
    hide Run, Wired, DecidersFit, Capped, NoGap, Provenance;
    AlwaysGood(env, states, events, i);
    var s := states[i];
    assert ReachesAsker(s.hub, s.answerers, id);
    assert Genuine(s.hub.asks, s.first, id, s.hub.chans[id].value);
  }

  /** Once settled, an ask changes at most once more, ever: an expired question decided late. */
  lemma SettledOnce(env: Env, states: seq<State>, events: seq<Event>, i: nat, j: nat, id: AskId)
    requires Run(env, states, events) && i <= j < |states|
    requires id in states[i].hub.asks && Settled(states[i].hub.asks[id])
    ensures id in states[j].hub.asks && states[j].hub.asks[id].facts == states[i].hub.asks[id].facts
    ensures var a, b := states[i].hub.asks[id], states[j].hub.asks[id];
            || b == a
            || (a.status == Expired && a.facts.kind != Permission && b.status in {Approved, Denied, Answered})
    decreases j
  {
    hide Good, Effect;
    if i < j {
      SettledOnce(env, states, events, i, j - 1, id);
      AlwaysGood(env, states, events, j - 1);
      MovesInGood(env, states[j - 1], events[j - 1]);
      assert Step(env, states[j - 1], events[j - 1], states[j - 1 + 1]);
    }
  }

  lemma MovesInGood(env: Env, s: State, e: Event)
    requires Good(s)
    ensures AsksMove(s.hub.asks, Effect(env, s, e).hub.asks)
  {
    hide Wired, DecidersFit, OnceSettled, Provenance, NoGap, Capped, AllGenuine, NoneLost, Effect, AsksMove;
    EffectMoves(env, s, e);
  }

  /** A session never waits on more than one question or eight prompts, an account on 160 asks. */
  lemma PendingAlwaysCapped(env: Env, states: seq<State>, events: seq<Event>, i: nat, project: nat, session: nat,
                            permission: bool, actor: string)
    requires Run(env, states, events) && i < |states|
    ensures |SessionLoad(states[i].hub.asks, project, session, permission)| <= if permission then 8 else 1
    ensures |ActorLoad(states[i].hub.asks, project, actor)| <= 160
  {
    hide Run, Wired, DecidersFit, OnceSettled, Provenance, NoGap, AllGenuine, NoneLost;
    AlwaysGood(env, states, events, i);
  }

  /** The event that started the call asking as id. */
  ghost predicate StartedAs(env: Env, events: seq<Event>, j: nat, id: AskId, f: Facts) {
    && j < |events| && events[j].StartAsk? && events[j].id == id
    && var r := ShapeAsk(env, events[j].input, events[j].nonce);
       r.Shaped?
         && f == NewAsk(r.shape, id, events[j].project, events[j].session, events[j].actor, events[j].runId).facts
  }

  /** An asker keeps the facts it was started with. */
  lemma FactsStay(env: Env, s: State, e: Event, id: AskId)
    requires Wired(s.hub, s.askers) && id in s.askers
    ensures var t := Effect(env, s, e); id in t.askers && t.askers[id].ask.facts == s.askers[id].ask.facts
  {
    hide WiredAsker, AskerEffect, WaiterEffect, AnswererEffect, ExpirerEffect, ShapeAsk, LookedUp, ExpireStale;
    hide PersonAllows;
    assert WiredAsker(s.hub, id, s.askers[id]);
    if e.StepAsker? {
      AskerInStep(s.hub, id, s.askers[id], e.who, e.now, e.timeout);
    } else {
      WaiterInStep(s.hub, id, s.askers[id], e);
    }
  }

  lemma NewAskerStarted(env: Env, s: State, e: Event, id: AskId)
    requires id !in s.askers && id in Effect(env, s, e).askers
    ensures StartedAs(env, [e], 0, id, Effect(env, s, e).askers[id].ask.facts)
  {
    hide AskerEffect, WaiterEffect, AnswererEffect, ExpirerEffect, ShapeAsk, LookedUp, ExpireStale, PersonAllows;
  }

  lemma {:induction false} StartOf(env: Env, states: seq<State>, events: seq<Event>, i: nat, id: AskId) returns (j: nat)
    requires Run(env, states, events) && i < |states| && id in states[i].askers
    ensures StartedAs(env, events, j, id, states[i].askers[id].ask.facts)
  {
    hide Good, Effect, ShapeAsk;
    if i == 0 {
      assert false;
    } else {
      var s := states[i - 1];
      assert Step(env, s, events[i - 1], states[i - 1 + 1]);
      if id in s.askers {
        j := StartOf(env, states, events, i - 1, id);
        AlwaysGood(env, states, events, i - 1);
        assert Wired(s.hub, s.askers) by { GoodIsWired(s); }
        FactsStay(env, s, events[i - 1], id);
      } else {
        NewAskerStarted(env, s, events[i - 1], id);
        j := i - 1;
      }
    }
  }

  lemma GoodIsWired(s: State)
    requires Good(s)
    ensures Wired(s.hub, s.askers)
  {
    hide DecidersFit, OnceSettled, Provenance, NoGap, Capped, AllGenuine, NoneLost, Wired;
  }

  /** Said of the calls themselves: a prompt allowed for its run was allowed by a person, or is a call
      that the call a person allowed was meant to cover. */
  lemma AllowedAsIntended(env: Env, states: seq<State>, events: seq<Event>, i: nat, id: AskId)
      returns (p: AskId, given: AskInput, covered: AskInput)
    requires Run(env, states, events) && i < |states| && InjectiveDigest(env)
    requires id in states[i].hub.asks && IsRunAllow(states[i].hub.asks[id])
    ensures p in states[i].hub.asks && PersonAllowed(states[i].hub.asks[p])
    ensures p != id ==> IntendedCovers(env, given, covered)
    ensures exists j: nat, n: nat :: StartedAs(env, events, j, p, states[i].hub.asks[p].facts)
              && events[j].input == given
                           && StartedAs(env, events, n, id, states[i].hub.asks[id].facts) && events[n].input == covered
  {
    hide Run, Good, PersonAllowed, ShapePermission, IntendedCovers, IsRunAllow, ReleaseCovers;
    AllowsTraceToPersons(env, states, events, i, id);
    var asks := states[i].hub.asks;
    p :| p in asks && PersonAllowed(asks[p]) && asks[p].decidedBy == asks[id].decidedBy
         && (p == id || CoversFacts(asks[p].facts, asks[id].facts));
    AlwaysGood(env, states, events, i);
    GoodIsWired(states[i]);
    AskFacts(states[i], p);
    AskFacts(states[i], id);
    var j := StartOf(env, states, events, i, p);
    var n := StartOf(env, states, events, i, id);
    given, covered := events[j].input, events[n].input;
    if p != id {
      PersonAllowsPrompts(asks[p]);
      RunAllowIsPrompt(asks[id]);
      CoverageIsOneRelation(env, given, covered, events[j].nonce, events[n].nonce);
    }
  }

  lemma PersonAllowsPrompts(a: Ask)
    requires PersonAllowed(a)
    ensures a.facts.kind == Permission
  {
  }

  lemma RunAllowIsPrompt(a: Ask)
    requires IsRunAllow(a)
    ensures a.facts.kind == Permission
  {
  }
}
