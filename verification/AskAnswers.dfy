/** Who decides an ask: every decision is an answer given by a person who may give it, or a prompt's release by
    an allow for its run. */
module AskAnswers {
  import opened Prelude
  import opened AskShape
  import opened AskStore
  import opened AskProtocol
  import opened AskWiring
  import opened AskProvenance
  import opened AskNoGap
  import opened AskDelivery
  import opened AskTheorems

  /** The name a person's decision is recorded under. */
  function Who(v: Viewer): string {
    if Trim(v.id) == "" then "local" else Trim(v.id)
  }

  /** A person may answer an ask of their own account; an administrator any that is no permission prompt; and
      where there are no accounts, the local person a prompt. */
  predicate Entitled(v: Viewer, f: Facts) {
    !v.agent && (|| SameFold(f.actor, Who(v))
                 || (v.admin && f.kind != Permission)
                 || (f.kind == Permission && Who(v) == "local"))
  }

  lemma EntitledMayAnswer(v: Viewer, a: Ask)
    ensures MayAnswer(v, a) && !v.agent <==> Entitled(v, a.facts)
  {
  }

  /** What an answer makes of an ask. */
  predicate Says(verdict: Verdict, raw: string, status: Status, answer: string) {
    match verdict
    case Approve => status == Approved && answer == ""
    case ApproveRun => status == Approved && answer == "approve_run"
    case Deny => status == Denied && answer == ""
    case Answer => status == Answered && answer == Trim(raw)
  }

  /** Which answers fit an ask: a permission prompt is allowed, allowed for its run, or denied; an approval approved or
      denied; a question or choice dismissed, or answered with text of at most 4000 characters, which for a choice is
      one of its options. */
  lemma FitsExactly(ask: Ask, verdict: Verdict, raw: string)
    ensures Resolve(ask, verdict, raw).Resolved?
            <==> || verdict == Deny || (verdict == Approve && ask.facts.kind in {Permission, Approval})
                 || (verdict == ApproveRun && ask.facts.kind == Permission)
                 || (verdict == Answer && 0 < |Trim(raw)| <= 4000
                     && (ask.facts.kind == Question
                         || (ask.facts.kind == Choice && Trim(raw) in ask.facts.options)))
    ensures var r := Resolve(ask, verdict, raw); r.Resolved? ==> Says(verdict, raw, r.status, r.answer)
  {
  }

  /** An answer is taken up exactly when a person entitled to it gives one that fits to an ask of the project that
      waits, or that has expired and is no permission prompt. */
  lemma TakenUpExactly(env: Env, s: State, e: Event)
    requires e.StartAnswer? && e.t !in s.answerers
    ensures e.t in After(env, s, e).answerers
            <==> && e.id in s.hub.asks
                 && var a := s.hub.asks[e.id];
                    && a.facts.project == e.project && Entitled(e.viewer, a.facts)
                    && (a.status == Pending || (a.status == Expired && a.facts.kind != Permission))
                    && Resolve(a, e.verdict, e.answer).Resolved?
    ensures After(env, s, e).hub == s.hub
  {
    hide Resolve, MayAnswer, Entitled, Noted;
    if e.id in s.hub.asks {
      EntitledMayAnswer(e.viewer, s.hub.asks[e.id]);
    }
  }

  /** e is the answer that made a what it is. */
  predicate Answers(e: Event, a: Ask) {
    && e.StartAnswer? && e.id == a.facts.id && e.project == a.facts.project && Entitled(e.viewer, a.facts)
    && Says(e.verdict, e.answer, a.status, a.answer) && a.decidedBy == Who(e.viewer)
  }

  predicate Begins(e: Event, d: Answerer, f: Facts) {
    && d.Deciding? && e.StartAnswer? && e.id == d.id == f.id && e.project == d.project == f.project
    && e.viewer == d.viewer && Entitled(e.viewer, f) && Says(e.verdict, e.answer, d.status, d.answer)
  }

  predicate IsDecided(a: Ask) {
    a.status in {Approved, Denied, Answered}
  }

  ghost predicate AnsweredBefore(events: seq<Event>, n: nat, a: Ask) {
    exists j :: 0 <= j < n && j < |events| && Answers(events[j], a)
  }

  ghost predicate BegunBefore(events: seq<Event>, n: nat, d: Answerer, f: Facts) {
    exists j :: 0 <= j < n && j < |events| && Begins(events[j], d, f)
  }

  ghost predicate DecisionsBegun(events: seq<Event>, n: nat, s: State) {
    forall t :: t in s.answerers && s.answerers[t].Deciding? ==>
      s.answerers[t].id in s.hub.asks
      && BegunBefore(events, n, s.answerers[t], s.hub.asks[s.answerers[t].id].facts)
  }

  predicate ForPrompts(k: Asker) {
    k.phase.Allowing? || k.phase.Releasing? ==> k.ask.facts.kind == Permission
  }

  ghost predicate Explained(events: seq<Event>, n: nat, a: Ask, byPerson: set<AskId>) {
    IsDecided(a) ==> AnsweredBefore(events, n, a) || (IsRunAllow(a) && a.facts.id !in byPerson)
  }

  ghost predicate AllExplained(events: seq<Event>, n: nat, s: State) {
    && DecisionsBegun(events, n, s)
    && (forall id :: id in s.askers ==> ForPrompts(s.askers[id]))
    && (forall id :: id in s.hub.asks ==> Explained(events, n, s.hub.asks[id], s.byPerson))
  }

  // ---------------------------------------------------------------- one step

  lemma NewDecider(env: Env, s: State, e: Event, t: nat)
    requires Good(s) && t in Effect(env, s, e).answerers && Effect(env, s, e).answerers[t].Deciding?
    ensures var d := Effect(env, s, e).answerers[t];
            || (t in s.answerers && s.answerers[t] == d)
            || (d.id in s.hub.asks && Begins(e, d, s.hub.asks[d.id].facts))
  {
    hide Good, ShapeAsk, PersonAllows, ExpireStale, AskerEffect, WaiterEffect, ExpirerEffect, AnswererEffect, LookedUp;
    hide Begins;
    if e.StartAnswer? && LookedUp(s.hub, e).Some? {
      LookedUpBegins(s, e);
    }
    if e.StepAnswerer? && e.t in s.answerers {
      NoneBegins(s.hub, s.answerers[e.t], e.pick, e.now);
    }
  }

  lemma LookedUpBegins(s: State, e: Event)
    requires Good(s) && e.StartAnswer? && LookedUp(s.hub, e).Some?
    ensures var d := LookedUp(s.hub, e).value; d.Deciding? && d.id in s.hub.asks && Begins(e, d, s.hub.asks[d.id].facts)
  {
    hide Good, MayAnswer, Entitled, Resolve, Says;
    GoodIsWired(s);
    AskFacts(s, e.id);
    OwnId(s, e.id);
    EntitledMayAnswer(e.viewer, s.hub.asks[e.id]);
    FitsExactly(s.hub.asks[e.id], e.verdict, e.answer);
  }

  lemma NoneBegins(h: Hub, a: Answerer, pick: AskId, now: int)
    ensures AnswererEffect(h, a, pick, now).1.Deciding? ==> AnswererEffect(h, a, pick, now).1 == a
  {
    hide Decide, Sent, ReleaseList;
  }

  lemma OwnId(s: State, id: AskId)
    requires Wired(s.hub, s.askers) && id in s.hub.asks
    ensures s.hub.asks[id].facts.id == id
  {
    assert WiredAsker(s.hub, id, s.askers[id]);
  }

  lemma StepKeepsForPrompts(env: Env, s: State, e: Event, id: AskId)
    requires id in Effect(env, s, e).askers && forall k :: k in s.askers ==> ForPrompts(s.askers[k])
    ensures ForPrompts(Effect(env, s, e).askers[id])
  {
    hide ShapeAsk, PersonAllows, HasRoom, AskTimeout, Sent, Decide, ExpireStale, ReleaseList, LookedUp, ExpireOne;
    hide AnswererEffect, ExpirerEffect;
  }

  lemma AskerDecides(h: Hub, k: Asker, who: string, now: int, timeout: int, id: AskId)
    requires WiredAsker(h, k.ask.facts.id, k) && ForPrompts(k)
    requires var asks := AskerEffect(h, k, who, now, timeout).0.asks; id in asks && IsDecided(asks[id])
    requires id in h.asks ==> !IsDecided(h.asks[id])
    ensures IsRunAllow(AskerEffect(h, k, who, now, timeout).0.asks[id])
  {
    hide KeysFit, HasRoom, AskTimeout, Sent;
  }

  lemma AnswererDecides(h: Hub, byPerson: set<AskId>, a: Answerer, pick: AskId, now: int, id: AskId)
    requires AnswererFits(h.asks, byPerson, a)
    requires var asks := AnswererEffect(h, a, pick, now).0.asks; id in asks && IsDecided(asks[id])
    requires id in h.asks ==> !IsDecided(h.asks[id])
    ensures id in h.asks
    ensures var b := AnswererEffect(h, a, pick, now).0.asks[id];
            if a.Deciding? then
              a.id == id && b == h.asks[id].(status := a.status, answer := a.answer, note := a.note,
                                             decidedBy := Who(a.viewer), decidedAt := now)
            else IsRunAllow(b)
  {
    hide ReleaseList, Sent, Granted, OwnFits;
  }

  /** Nothing else decides an ask. */
  lemma OthersDecideNothing(env: Env, s: State, e: Event, id: AskId)
    requires Good(s) && !e.StepAsker? && !e.StepAnswerer? && id in Effect(env, s, e).hub.asks
    ensures id in s.hub.asks && (IsDecided(Effect(env, s, e).hub.asks[id]) ==> IsDecided(s.hub.asks[id]))
    ensures Effect(env, s, e).byPerson == s.byPerson
  {
    hide Good, ShapeAsk, LookedUp, Sent, RunPending;
  }

  /** A step that decides an ask: a person's decision carried out, or an allow for the run. */
  lemma NewDecision(env: Env, s: State, e: Event, id: AskId)
    requires Good(s) && id in Effect(env, s, e).hub.asks && IsDecided(Effect(env, s, e).hub.asks[id])
    requires id in s.hub.asks ==> !IsDecided(s.hub.asks[id])
    requires forall k :: k in s.askers ==> ForPrompts(s.askers[k])
    ensures var a, byPerson := Effect(env, s, e).hub.asks[id], Effect(env, s, e).byPerson;
            || (IsRunAllow(a) && id !in byPerson)
            || (e.StepAnswerer? && e.t in s.answerers && id in s.hub.asks && a.facts == s.hub.asks[id].facts
                && var d := s.answerers[e.t];
                   d.Deciding? && d.id == id && a.status == d.status && a.answer == d.answer
                   && a.decidedBy == Who(d.viewer))
  {
    hide Good, ShapeAsk, HasRoom, AskTimeout, Sent, LookedUp, ReleaseList, AskerEffect, AnswererEffect, WiredAsker;
    hide ExpirerEffect, WaiterEffect, ExpireStale, AnswererFits;
    GoodIsWired(s);
    GoodParts(s);
    NotByPerson(s, id);
    if e.StepAsker? && e.id in s.askers {
      OwnAskId(s, e.id);
      AskerDecides(s.hub, s.askers[e.id], e.who, e.now, e.timeout, id);
    } else if e.StepAnswerer? && e.t in s.answerers {
      assert AnswererFits(s.hub.asks, s.byPerson, s.answerers[e.t]);
      AnswererDecides(s.hub, s.byPerson, s.answerers[e.t], e.pick, e.now, id);
    } else if !e.StepAsker? && !e.StepAnswerer? {
      OthersDecideNothing(env, s, e, id);
    }
  }

  lemma OwnAskId(s: State, id: AskId)
    requires Wired(s.hub, s.askers) && id in s.askers
    ensures WiredAsker(s.hub, s.askers[id].ask.facts.id, s.askers[id])
  {
    assert WiredAsker(s.hub, id, s.askers[id]);
  }

  lemma NotByPerson(s: State, id: AskId)
    requires Provenance(s) && (id in s.hub.asks ==> !IsDecided(s.hub.asks[id]))
    ensures id !in s.byPerson
  {
    hide Traced, AskersGranted, AnswerersFit;
  }

  lemma StepKeepsBegun(env: Env, events: seq<Event>, n: nat, s: State)
    requires Good(s) && n < |events| && DecisionsBegun(events, n, s)
    ensures DecisionsBegun(events, n + 1, Effect(env, s, events[n]))
  {
    hide Good, Effect, Begins;
    var e, s', m := events[n], Effect(env, s, events[n]), n + 1;
    MovesInGood(env, s, e);
    forall t | t in s'.answerers && s'.answerers[t].Deciding?
      ensures s'.answerers[t].id in s'.hub.asks
      ensures BegunBefore(events, m, s'.answerers[t], s'.hub.asks[s'.answerers[t].id].facts)
    {
      NewDecider(env, s, e, t);
      if t in s.answerers && s.answerers[t] == s'.answerers[t] {
        assert BegunBefore(events, n, s.answerers[t], s.hub.asks[s.answerers[t].id].facts);
      }
    }
  }

  lemma StepKeepsExplained(env: Env, events: seq<Event>, n: nat, s: State, id: AskId)
    requires Good(s) && n < |events| && AllExplained(events, n, s) && id in Effect(env, s, events[n]).hub.asks
    ensures Explained(events, n + 1, Effect(env, s, events[n]).hub.asks[id], Effect(env, s, events[n]).byPerson)
  {
    hide Good, Effect, Answers, Begins, ForPrompts;
    var e, s', m := events[n], Effect(env, s, events[n]), n + 1;
    var a := s'.hub.asks[id];
    MovesInGood(env, s, e);
    GoodIsWired(s);
    if IsDecided(a) && id in s.hub.asks && IsDecided(s.hub.asks[id]) {
      OwnId(s, id);
      assert a == s.hub.asks[id] && Explained(events, n, a, s.byPerson);
      if AnsweredBefore(events, n, a) {
        assert AnsweredBefore(events, m, a);
      } else {
        OldStaysOutside(env, s, e, id);
      }
    } else if IsDecided(a) {
      NewDecision(env, s, e, id);
      NewOwnId(env, s, e, id);
      if !(IsRunAllow(a) && id !in s'.byPerson) {
        var d := s.answerers[e.t];
        var j :| 0 <= j < n && Begins(events[j], d, s.hub.asks[id].facts);
        DecidedAsBegun(events[j], d, s.hub.asks[id].facts, a);
      }
    }
  }

  lemma DecidedAsBegun(e: Event, d: Answerer, f: Facts, a: Ask)
    requires Begins(e, d, f) && a.facts == f && a.status == d.status && a.answer == d.answer
    requires a.decidedBy == Who(d.viewer)
    ensures Answers(e, a)
  {
  }

  /** An ask decided before is not now made a person's allow. */
  lemma OldStaysOutside(env: Env, s: State, e: Event, id: AskId)
    requires Good(s) && id in s.hub.asks && IsDecided(s.hub.asks[id]) && id !in s.byPerson
    requires s.hub.asks[id].status != Expired && IsRunAllow(s.hub.asks[id])
    ensures id !in Effect(env, s, e).byPerson
  {
    hide Good, ShapeAsk, HasRoom, AskTimeout, Sent, LookedUp, ReleaseList, AskerEffect, WiredAsker;
    hide ExpirerEffect, WaiterEffect, ExpireStale;
    GoodDeciders(s);
    if e.StepAnswerer? && e.t in s.answerers {
      assert DeciderFits(s.hub, s.answerers[e.t]);
    }
  }

  lemma GoodDeciders(s: State)
    requires Good(s)
    ensures DecidersFit(s.hub, s.answerers)
  {
    hide Wired, DecidersFit, OnceSettled, Provenance, NoGap, Capped, AllGenuine, NoneLost;
  }

  lemma NewOwnId(env: Env, s: State, e: Event, id: AskId)
    requires Good(s) && id in Effect(env, s, e).hub.asks
    ensures Effect(env, s, e).hub.asks[id].facts.id == id
  {
    hide Good, Effect, WiredAsker;
    GoodWired(env, s, e);
    var t := Effect(env, s, e);
    assert id in t.askers && WiredAsker(t.hub, id, t.askers[id]);
    WiredOwnId(t, id);
  }

  lemma WiredOwnId(t: State, id: AskId)
    requires id in t.askers && WiredAsker(t.hub, id, t.askers[id]) && id in t.hub.asks
    ensures t.hub.asks[id].facts.id == id
  {
  }

  lemma GoodWired(env: Env, s: State, e: Event)
    requires Good(s)
    ensures Wired(Effect(env, s, e).hub, Effect(env, s, e).askers)
  {
    hide Wired, DecidersFit, OnceSettled, Provenance, NoGap, Capped, AllGenuine, NoneLost, Effect;
    WiredKept(env, s, e);
  }

  // ---------------------------------------------------------------- over whole runs

  lemma {:induction false} AlwaysExplained(env: Env, states: seq<State>, events: seq<Event>, i: nat)
    requires Run(env, states, events) && i < |states|
    ensures AllExplained(events, i, states[i])
  {
    hide Good, Effect, Honest, DecisionsBegun, Explained, ForPrompts;
    if i == 0 {
      NothingExplained(events);
    } else {
      var s, n := states[i - 1], i - 1;
      AlwaysExplained(env, states, events, n);
      AlwaysGood(env, states, events, n);
      assert Step(env, states[n], events[n], states[n + 1]);
      StepKeepsBegun(env, events, n, s);
      var t := Effect(env, s, events[n]);
      forall id | id in t.askers ensures ForPrompts(t.askers[id]) { StepKeepsForPrompts(env, s, events[n], id); }
      forall id | id in t.hub.asks ensures Explained(events, i, t.hub.asks[id], t.byPerson) {
        StepKeepsExplained(env, events, n, s, id);
      }
      OnlyFirstExplained(events, i, t, states[i]);
    }
  }

  lemma NothingExplained(events: seq<Event>)
    ensures AllExplained(events, 0, Initial())
  {
  }

  lemma OnlyFirstExplained(events: seq<Event>, n: nat, t: State, t': State)
    requires AllExplained(events, n, t) && t' == t.(first := t'.first)
    ensures AllExplained(events, n, t')
  {
    hide BegunBefore, Explained, ForPrompts;
  }

  /** Every decision on an ask is what a person who may answer it, and is no agent, said, recorded under that
      person's name; or, for a permission prompt only, an allow for the run, which traces to a person's own. */
  lemma DecisionsArePersons(env: Env, states: seq<State>, events: seq<Event>, i: nat, id: AskId)
    requires Run(env, states, events) && i < |states| && id in states[i].hub.asks
    requires states[i].hub.asks[id].status in {Approved, Denied, Answered}
    ensures var a := states[i].hub.asks[id];
            || (exists j :: 0 <= j < i && j < |events| && Answers(events[j], a) && events[j].id == id)
            || (IsRunAllow(a) && id !in states[i].byPerson)
  {
    hide Good, Run, Answers, DecisionsBegun, ForPrompts;
    AlwaysExplained(env, states, events, i);
    AlwaysGood(env, states, events, i);
    var a := states[i].hub.asks[id];
    GoodIsWired(states[i]);
    OwnId(states[i], id);
    assert Explained(events, i, a, states[i].byPerson);
    if j :| 0 <= j < i && j < |events| && Answers(events[j], a) {
      AnswersOwn(events[j], a);
    }
  }

  lemma AnswersOwn(e: Event, a: Ask)
    requires Answers(e, a)
    ensures e.id == a.facts.id
  {
  }

  /** Behind every allow for a run stands an answer: a person entitled to said "allow for this run" of this very
      prompt, or of one whose allow covers it. */
  lemma AllowsTraceToAnswers(env: Env, states: seq<State>, events: seq<Event>, i: nat, id: AskId)
      returns (p: AskId, j: nat)
    requires Run(env, states, events) && i < |states| && id in states[i].hub.asks
    requires IsRunAllow(states[i].hub.asks[id])
    ensures p in states[i].hub.asks && j < i && j < |events| && Answers(events[j], states[i].hub.asks[p])
    ensures events[j].verdict == ApproveRun && Who(events[j].viewer) == states[i].hub.asks[id].decidedBy
    ensures p == id || CoversFacts(states[i].hub.asks[p].facts, states[i].hub.asks[id].facts)
  {
    hide Good, Run, Answers, DecisionsBegun, ForPrompts, Says;
    AlwaysExplained(env, states, events, i);
    AlwaysGood(env, states, events, i);
    p := PersonsAllow(states[i], id);
    var a := states[i].hub.asks[p];
    GoodIsWired(states[i]);
    OwnId(states[i], p);
    assert Explained(events, i, a, states[i].byPerson);
    j :| 0 <= j < i && j < |events| && Answers(events[j], a);
    AnswersAllow(events[j], a);
  }

  lemma PersonsAllow(s: State, id: AskId) returns (p: AskId)
    requires Good(s) && id in s.hub.asks && IsRunAllow(s.hub.asks[id])
    ensures p in s.byPerson && p in s.hub.asks && IsRunAllow(s.hub.asks[p])
    ensures s.hub.asks[p].decidedBy == s.hub.asks[id].decidedBy
    ensures p == id || CoversFacts(s.hub.asks[p].facts, s.hub.asks[id].facts)
  {
    hide Good, CoversFacts, AskersGranted, AnswerersFit;
    GoodParts(s);
    if id in s.byPerson {
      p := id;
    } else {
      p :| p in s.byPerson && p in s.hub.asks && s.hub.asks[p].decidedBy == s.hub.asks[id].decidedBy
           && CoversFacts(s.hub.asks[p].facts, s.hub.asks[id].facts);
    }
  }

  lemma AnswersAllow(e: Event, a: Ask)
    requires Answers(e, a) && IsRunAllow(a)
    ensures a.decidedBy == Who(e.viewer) && e.verdict == ApproveRun
  {
  }
}
