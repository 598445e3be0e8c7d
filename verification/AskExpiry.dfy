/** When an ask's time is up: what the sweep does at any moment, and that it comes neither sooner nor later than
    the wait the ask was stored with. */
module AskExpiry {
  import opened Prelude
  import opened AskShape
  import opened AskStore
  import opened AskProtocol
  import opened AskWiring
  import opened AskNoGap
  import opened AskTheorems

  predicate Named(projects: set<nat>, a: Ask) {
    projects == {} || a.facts.project in projects
  }

  /** A pending ask of a named project expires at its expiry time, or when it has none at the longest wait after
      it was made; until then, and every other ask always, it stays as it is. */
  lemma SweepExactly(asks: Asks, projects: set<nat>, now: int, id: AskId)
    requires id in asks
    ensures ExpireStale(asks, projects, now).Keys == asks.Keys
    ensures var a, b := asks[id], ExpireStale(asks, projects, now)[id];
            && (a.status != Pending || !Named(projects, a) || a.expiresAt < 0 ==> b == a)
            && (a.status == Pending && Named(projects, a) && a.expiresAt > 0
                ==> b == if now < a.expiresAt then a else a.(status := Expired, decidedAt := now))
            && (a.status == Pending && Named(projects, a) && a.expiresAt == 0
                ==> b == if now < a.createdAt + 600_000 then a else a.(status := Expired, decidedAt := now))
  {
  }

  // ---------------------------------------------------------------- over whole runs

  /** The step of its asker that gave a its time. */
  predicate Timed(e: Event, a: Ask) {
    && e.StepAsker? && e.id == a.facts.id
    && a.createdAt == e.now && a.expiresAt == e.now + AskTimeout(a.facts.kind, e.timeout)
  }

  ghost predicate TimedBefore(events: seq<Event>, n: nat, a: Ask) {
    exists j :: 0 <= j < n && j < |events| && Timed(events[j], a)
  }

  ghost predicate AllTimed(events: seq<Event>, n: nat, s: State) {
    && (forall id :: id in s.askers && s.askers[id].phase.Inserting? ==> TimedBefore(events, n, s.askers[id].ask))
    && (forall id :: id in s.hub.asks && s.hub.asks[id].status == Pending ==> TimedBefore(events, n, s.hub.asks[id]))
  }

  /** A pending ask that was not stored before is its asker's, about to insert it. */
  lemma NewPending(env: Env, s: State, e: Event, id: AskId)
    requires Good(s) && id !in s.hub.asks
    requires id in Effect(env, s, e).hub.asks && Effect(env, s, e).hub.asks[id].status == Pending
    ensures id in s.askers && s.askers[id].phase.Inserting? && Effect(env, s, e).hub.asks[id] == s.askers[id].ask
  {
    hide Good, ShapeAsk, LookedUp, PersonAllows, AskerEffect, AnswererEffect, ExpirerEffect, WaiterEffect, ExpireStale;
    GoodIsWired(s);
    if e.StepAsker? {
      if e.id in s.askers {
        AskerStores(s, e.id, e.who, e.now, e.timeout, id);
      }
    } else {
      OthersStoreNone(env, s, e, id);
    }
  }

  /** Only a step of its asker stores an ask. */
  lemma OthersStoreNone(env: Env, s: State, e: Event, id: AskId)
    requires !e.StepAsker? && id !in s.hub.asks
    ensures id !in Effect(env, s, e).hub.asks
  {
    hide ShapeAsk, LookedUp, PersonAllows, AskerEffect, Sent, ReleaseList, RunPending;
  }

  lemma AskerStores(s: State, id: AskId, who: string, now: int, timeout: int, new_: AskId)
    requires Wired(s.hub, s.askers) && id in s.askers && new_ !in s.hub.asks
    ensures var asks := AskerEffect(s.hub, s.askers[id], who, now, timeout).0.asks;
            new_ in asks && asks[new_].status == Pending ==>
              new_ == id && s.askers[id].phase.Inserting? && asks[new_] == s.askers[id].ask
  {
    hide HasRoom, AskTimeout, Sent;
    assert WiredAsker(s.hub, id, s.askers[id]);
  }

  /** An asker about to insert its ask has just been given its time, or was about to before. */
  lemma NewInserting(env: Env, s: State, e: Event, id: AskId)
    requires Good(s) && id in Effect(env, s, e).askers && Effect(env, s, e).askers[id].phase.Inserting?
    ensures || Timed(e, Effect(env, s, e).askers[id].ask)
            || (id in s.askers && s.askers[id] == Effect(env, s, e).askers[id])
  {
    hide Good, ShapeAsk, LookedUp, PersonAllows, HasRoom, AskTimeout, Sent, Noted, ReleaseList, Decide, ExpireStale,
      AnswererEffect, ExpirerEffect, AskerEffect;
    if e.StepAsker? && e.id == id {
      GoodIsWired(s);
      AskerInserting(s, e.id, e.who, e.now, e.timeout);
    }
  }

  lemma AskerInserting(s: State, id: AskId, who: string, now: int, timeout: int)
    requires Wired(s.hub, s.askers) && id in s.askers
    requires AskerEffect(s.hub, s.askers[id], who, now, timeout).1.phase.Inserting?
    ensures var ask := AskerEffect(s.hub, s.askers[id], who, now, timeout).1.ask;
            ask.facts.id == id && ask.createdAt == now && ask.expiresAt == now + AskTimeout(ask.facts.kind, timeout)
  {
    hide HasRoom, AskTimeout, Decide, Sent;
    assert WiredAsker(s.hub, id, s.askers[id]);
  }

  lemma StepKeepsTimed(env: Env, events: seq<Event>, n: nat, s: State)
    requires Good(s) && n < |events| && AllTimed(events, n, s)
    ensures AllTimed(events, n + 1, Effect(env, s, events[n]))
  {
    hide Good, Effect, Timed;
    var e, t, m := events[n], Effect(env, s, events[n]), n + 1;
    MovesInGood(env, s, e);
    forall id | id in t.askers && t.askers[id].phase.Inserting? ensures TimedBefore(events, m, t.askers[id].ask) {
      NewInserting(env, s, e, id);
      if !Timed(e, t.askers[id].ask) {
        assert TimedBefore(events, n, s.askers[id].ask);
      }
    }
    forall id | id in t.hub.asks && t.hub.asks[id].status == Pending ensures TimedBefore(events, m, t.hub.asks[id]) {
      if id in s.hub.asks {
        assert TimedBefore(events, n, s.hub.asks[id]);
      } else {
        NewPending(env, s, e, id);
        assert TimedBefore(events, n, s.askers[id].ask);
      }
    }
  }

  lemma {:induction false} AlwaysTimed(env: Env, states: seq<State>, events: seq<Event>, i: nat)
    requires Run(env, states, events) && i < |states|
    ensures AllTimed(events, i, states[i])
  {
    hide Good, Effect, Honest, TimedBefore;
    if i > 0 {
      AlwaysTimed(env, states, events, i - 1);
      AlwaysGood(env, states, events, i - 1);
      assert Step(env, states[i - 1], events[i - 1], states[i - 1 + 1]);
      StepKeepsTimed(env, events, i - 1, states[i - 1]);
    }
  }

  lemma SweepIs(env: Env, s: State, e: Event, t: State)
    requires e.SweepStale? && Step(env, s, e, t)
    ensures t.hub.asks == ExpireStale(s.hub.asks, e.projects, e.now)
  {
    hide Honest, ExpireStale, ShapeAsk, AskerEffect, AnswererEffect, ExpirerEffect, WaiterEffect, LookedUp;
  }

  /** The sweep expires a waiting ask exactly once the wait its own asker was given, from when it was made, is
      over; it never cuts a wait short, and never leaves one standing that is over. */
  lemma SweptAtItsTime(env: Env, states: seq<State>, events: seq<Event>, i: nat, id: AskId)
    requires Run(env, states, events) && i < |events| && events[i].SweepStale?
    requires id in states[i].hub.asks && states[i].hub.asks[id].status == Pending
    ensures var a, now := states[i].hub.asks[id], events[i].now;
            && id in states[i + 1].hub.asks
            && exists j :: 0 <= j < i && events[j].StepAsker? && events[j].id == id && a.createdAt == events[j].now
                           && (events[j].now >= 0 && Named(events[i].projects, a) ==>
                                 states[i + 1].hub.asks[id]
                                 == if now < events[j].now + AskTimeout(a.facts.kind, events[j].timeout) then a
                                    else a.(status := Expired, decidedAt := now))
                           && (!Named(events[i].projects, a) ==> states[i + 1].hub.asks[id] == a)
  {
    hide Good, Step, AskTimeout, Named, ExpireStale;
    AlwaysTimed(env, states, events, i);
    AlwaysGood(env, states, events, i);
    GoodIsWired(states[i]);
    AskFacts(states[i], id);
    var a := states[i].hub.asks[id];
    var j :| 0 <= j < i && Timed(events[j], a);
    SweepIs(env, states[i], events[i], states[i + 1]);
    SweepExactly(states[i].hub.asks, events[i].projects, events[i].now, id);
  }
}
