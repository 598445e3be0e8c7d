/** What the ask protocol's steps come to when a call takes them one after another: an ask that waits, an answer that
    reaches its asker, a wait that runs out, and the end of a run. */
module AskRuns {
  import opened Prelude
  import opened AskShape
  import opened AskStore
  import opened AskProtocol

  /** es leads from s to t. */
  ghost predicate Leads(env: Env, s: State, es: seq<Event>, t: State)
    decreases |es|
  {
    if es == [] then t == s else Honest(s, es[0]) && Leads(env, After(env, s, es[0]), es[1..], t)
  }

  lemma LeadsOn(env: Env, s: State, e: Event, next: State, es: seq<Event>, t: State)
    requires Honest(s, e) && After(env, s, e) == next && Leads(env, next, es, t)
    ensures Leads(env, s, [e] + es, t)
  {
    hide Honest, After;
    assert ([e] + es)[1..] == es;
  }

  lemma NoSteps(env: Env, s: State)
    ensures Leads(env, s, [], s)
  {
  }

  lemma {:induction false} LeadsJoin(env: Env, s: State, a: seq<Event>, mid: State, b: seq<Event>, t: State)
    requires Leads(env, s, a, mid) && Leads(env, mid, b, t)
    ensures Leads(env, s, a + b, t)
    decreases |a|
  {
    hide Honest, After;
    if a == [] {
      assert a + b == b;
    } else {
      assert (a + b)[1..] == a[1..] + b;
      LeadsJoin(env, After(env, s, a[0]), a[1..], mid, b, t);
    }
  }

  // ---------------------------------------------------------------- stored asks

  /** There is room for an ask while fewer than eight prompts, or no other ask, of its session wait, and fewer than
      160 of its account. */
  lemma RoomExactly(asks: Asks, ask: Ask)
    ensures var mine := set id | id in asks && asks[id].facts.project == ask.facts.project && asks[id].status == Pending
                                 && asks[id].facts.session == ask.facts.session
                                 && (asks[id].facts.kind == Permission <==> ask.facts.kind == Permission);
            var accounts := set id | id in asks && asks[id].facts.project == ask.facts.project
                                     && asks[id].status == Pending && SameFold(asks[id].facts.actor, ask.facts.actor);
            HasRoom(asks, ask)
            <==> |mine| < (if ask.facts.kind == Permission then 8 else 1) && |accounts| < 160
  {
    var mine := set id | id in asks && asks[id].facts.project == ask.facts.project && asks[id].status == Pending
                         && asks[id].facts.session == ask.facts.session
                         && (asks[id].facts.kind == Permission <==> ask.facts.kind == Permission);
    var accounts := set id | id in asks && asks[id].facts.project == ask.facts.project
                             && asks[id].status == Pending && SameFold(asks[id].facts.actor, ask.facts.actor);
    assert mine == SessionLoad(asks, ask.facts.project, ask.facts.session, ask.facts.kind == Permission);
    assert accounts == ActorLoad(asks, ask.facts.project, ask.facts.actor);
  }

  /** A decision is taken on a pending ask of the project, or on an expired one when it may come late; it changes
      that ask and no other, and on any other ask nothing. */
  lemma DecidedExactly(asks: Asks, project: nat, id: AskId, status: Status, answer: string, note: string, who: string,
                       late: bool, now: int)
    ensures var (asks', result) := Decide(asks, project, id, status, answer, note, who, late, now);
            var known := id in asks && asks[id].facts.project == project;
            && (result == NotFound <==> !known)
            && (result.Decided? <==> known && (asks[id].status == Pending || (asks[id].status == Expired && late)))
            && (result.AsItWas? ==> result.ask == asks[id]) && (!result.Decided? ==> asks' == asks)
            && (result.Decided? ==>
                  && asks' == asks[id := result.ask] && result.wasExpired == (asks[id].status == Expired)
                  && result.ask == Ask(asks[id].facts, status, answer, note, who, asks[id].createdAt,
                                       asks[id].expiresAt, now))
  {
  }

  /** Expiring an ask ends the wait of a pending one, and of no other, and returns what is stored then. */
  lemma ExpiredExactly(asks: Asks, project: nat, id: AskId, now: int)
    ensures var (asks', result) := ExpireOne(asks, project, id, now);
            var known := id in asks && asks[id].facts.project == project;
            && (result == None <==> !known) && (known ==> result == Some(asks'[id]))
            && asks' == if known && asks[id].status == Pending
                        then asks[id := asks[id].(status := Expired, decidedAt := now)] else asks
  {
  }

  /** The earlier allow a lookup finds is a person's "allow for this run" of a prompt of that project, run, tool and
      key, and no key made to match nothing finds one. */
  lemma LookedUpExactly(a: Ask, project: nat, runId: nat, tool: string, key: string)
    ensures Allows(a, project, runId, tool, key)
            <==> && a.facts.kind == Permission && a.status == Approved && a.answer == "approve_run"
                 && a.facts.project == project && a.facts.runId == Some(runId)
                 && a.facts.tool == tool && a.facts.runKey == key && !("once:" <= key)
  {
  }

  /** A lookup answers with the person behind one of the allows that match, and with nobody exactly when none does. */
  lemma AnswersExactly(asks: Asks, project: nat, runId: nat, tool: string, key: string, who: string)
    ensures var matching := set id | id in asks && Allows(asks[id], project, runId, tool, key);
            AllowedBy(asks, project, runId, tool, key, who)
            <==> if matching == {} then who == "" else who in set id | id in matching :: asks[id].decidedBy
  {
    var matching := set id | id in asks && Allows(asks[id], project, runId, tool, key);
    if id :| id in asks && Allows(asks[id], project, runId, tool, key) {
      assert id in matching;
    }
  }

  /** What an allow for the run releases: the waiting prompts of its run and tool whose key is its own, and those seen
      cut too when it is for every call of a tool that is no shell. What the end of a run expires: all that waits. */
  lemma ListedExactly(asks: Asks, project: nat, runId: nat, tool: string, runKey: string, id: AskId)
    ensures id in ReleaseList(asks, project, runId, tool, runKey)
            <==> && id in asks && asks[id].status == Pending && asks[id].facts.kind == Permission
                 && asks[id].facts.project == project && asks[id].facts.runId == Some(runId)
                 && asks[id].facts.tool == tool && !("once:" <= runKey)
                 && (asks[id].facts.runKey == runKey
                     || (runKey == "" && !IsShell(tool) && "once:" <= asks[id].facts.runKey))
    ensures id in RunPending(asks, project, runId)
            <==> && id in asks && asks[id].status == Pending
                 && asks[id].facts.project == project && asks[id].facts.runId == Some(runId)
  {
  }

  /** A prompt allowed without asking is recorded as approved for the run by the person who allowed it. */
  lemma AllowedExactly(ask: Ask, who: string, now: int)
    ensures AllowedForRun(ask, who, now)
            == Ask(ask.facts, Approved, "approve_run", "allowed for this run", who, now, 0, now)
  {
  }

  // ---------------------------------------------------------------- asking

  /** A call that finds no earlier allow, and room, comes to wait for its ask, stored as pending with its time, with
      an empty channel of its own registered. */
  lemma AskComesToWait(env: Env, s: State, e: Event, now: int, timeout: int) returns (es: seq<Event>, t: State)
    requires e.StartAsk? && e.id !in s.askers && ShapeAsk(env, e.input, e.nonce).Shaped?
    requires var shape := ShapeAsk(env, e.input, e.nonce).shape;
             var ask := NewAsk(shape, e.id, e.project, e.session, e.actor, e.runId);
             && HasRoom(s.hub.asks, ask.(createdAt := now, expiresAt := now + AskTimeout(shape.kind, timeout)))
             && (shape.kind == Permission && e.runId.Some? ==>
                   AllowedBy(s.hub.asks, e.project, e.runId.value, shape.tool, shape.lookupKey, "")
                   && AllowedBy(s.hub.asks[e.id := ask.(createdAt := now,
                                                        expiresAt := now + AskTimeout(shape.kind, timeout))],
                                e.project, e.runId.value, shape.tool, shape.lookupKey, ""))
    ensures Leads(env, s, es, t) && e.id in t.askers && t.askers[e.id].phase == Waiting
    ensures var shape := ShapeAsk(env, e.input, e.nonce).shape;
            var ask := NewAsk(shape, e.id, e.project, e.session, e.actor, e.runId)
                         .(createdAt := now, expiresAt := now + AskTimeout(shape.kind, timeout));
            && t.hub.asks == s.hub.asks[e.id := ask]
            && t.hub.registered == s.hub.registered + {e.id} && t.hub.chans == s.hub.chans[e.id := None]
            && ask.status == Pending && ask.answer == ask.note == ask.decidedBy == "" && ask.decidedAt == 0
            && ask.facts == Facts(e.id, e.project, e.session, e.actor, shape.kind, shape.options, e.runId, shape.tool,
                                  shape.inputTruncated, shape.runKey)
  {
    hide ShapeAsk, AskTimeout, HasRoom, AllowedBy, Noted, Leads, AnswererEffect, ExpirerEffect, WaiterEffect;
    var step := StepAsker(e.id, "", now, timeout);
    var s1 := After(env, s, e);
    var s2 := After(env, s1, step);
    var s3 := After(env, s2, step);
    var s4 := After(env, s3, step);
    t := After(env, s4, step);
    NoSteps(env, t);
    LeadsOn(env, s4, step, t, [], t);
    LeadsOn(env, s3, step, s4, [step] + [], t);
    LeadsOn(env, s2, step, s3, [step] + ([step] + []), t);
    LeadsOn(env, s1, step, s2, [step] + ([step] + ([step] + [])), t);
    LeadsOn(env, s, e, s1, [step] + ([step] + ([step] + ([step] + []))), t);
    es := [e] + ([step] + ([step] + ([step] + ([step] + []))));
  }

  /** A prompt of a run that finds an earlier allow returns allowed, recorded so, and asks nobody. */
  lemma AllowedWithoutAsking(env: Env, s: State, id: AskId, who: string, now: int)
      returns (es: seq<Event>, t: State)
    requires id in s.askers && s.askers[id].phase == Checking && s.askers[id].ask.facts.id == id
    requires var f := s.askers[id].ask.facts;
             && f.kind == Permission && f.runId.Some? && who != ""
             && AllowedBy(s.hub.asks, f.project, f.runId.value, f.tool, s.askers[id].lookupKey, who)
    ensures Leads(env, s, es, t) && id in t.askers
    ensures var a := AllowedForRun(s.askers[id].ask, who, now);
            && t.askers[id].phase == Done(Some(a)) && t.hub == s.hub.(asks := s.hub.asks[id := a])
            && a.status == Approved && a.answer == "approve_run" && a.decidedBy == who
  {
    hide AllowedBy, Noted, Leads;
    var step := StepAsker(id, who, now, 0);
    var s1 := After(env, s, step);
    t := After(env, s1, step);
    NoSteps(env, t);
    LeadsOn(env, s1, step, t, [], t);
    LeadsOn(env, s, step, s1, [step] + [], t);
    es := [step] + ([step] + []);
  }

  /** One that finds an allow only when it looks again, its ask stored by then, allows its own ask and returns it. */
  lemma AllowedOnLookingAgain(env: Env, s: State, id: AskId, who: string, now: int)
      returns (es: seq<Event>, t: State, allowed: Ask)
    requires id in s.askers && s.askers[id].phase == Rechecking && s.askers[id].ask.facts.id == id
    requires id in s.hub.asks && s.hub.asks[id].facts == s.askers[id].ask.facts && s.hub.asks[id].status == Pending
    requires id in s.hub.registered && id in s.hub.chans && s.hub.chans[id] == None
    requires var f := s.askers[id].ask.facts;
             && f.kind == Permission && f.runId.Some? && who != ""
             && AllowedBy(s.hub.asks, f.project, f.runId.value, f.tool, s.askers[id].lookupKey, who)
    ensures Leads(env, s, es, t) && id in t.askers && t.askers[id].phase == Done(Some(allowed))
    ensures allowed == s.hub.asks[id].(status := Approved, answer := "approve_run", note := "allowed for this run",
                                       decidedBy := who, decidedAt := now)
    ensures t.hub.asks == s.hub.asks[id := allowed] && t.hub.registered == s.hub.registered - {id}
  {
    hide AllowedBy, Noted, Leads, AnswererEffect, ExpirerEffect, WaiterEffect;
    var step := StepAsker(id, who, now, 0);
    var s1 := After(env, s, step);
    var s2 := After(env, s1, step);
    var s3 := After(env, s2, step);
    var s4 := After(env, s3, step);
    allowed := s2.hub.asks[id];
    var rest;
    rest, t := SentIsHeard(env, s4, id, now);
    LeadsOn(env, s3, step, s4, rest, t);
    LeadsOn(env, s2, step, s3, [step] + rest, t);
    LeadsOn(env, s1, step, s2, [step] + ([step] + rest), t);
    LeadsOn(env, s, step, s1, [step] + ([step] + ([step] + rest)), t);
    es := [step] + ([step] + ([step] + ([step] + rest)));
  }

  /** One that finds none when it looks again waits. */
  lemma NotAllowedWaits(env: Env, s: State, id: AskId, now: int)
    requires id in s.askers && s.askers[id].phase in {Rechecking, Checking}
    requires var f := s.askers[id].ask.facts;
             f.kind == Permission && f.runId.Some? ==>
               AllowedBy(s.hub.asks, f.project, f.runId.value, f.tool, s.askers[id].lookupKey, "")
    ensures var e := StepAsker(id, "", now, 0);
            var t := After(env, s, e);
            && Honest(s, e) && id in t.askers && t.hub == s.hub
            && t.askers[id].phase == if s.askers[id].phase == Checking then Registering else Waiting
  {
    hide AllowedBy, Noted;
  }

  /** A channel that holds something keeps it. */
  lemma SentExactly(chans: Chans, value: Ask, id: AskId)
    ensures var sent := Sent(chans, value);
            && (id in sent <==> id in chans || id == value.facts.id)
            && (id in sent ==> sent[id] == if id in chans && (chans[id] != None || id != value.facts.id) then chans[id]
                                           else Some(value))
  {
  }

  // ---------------------------------------------------------------- answering

  /** A person's decision that fits reaches the call that waits: the ask is stored as decided, and the call returns
      it, its waiter gone. */
  lemma AnswerReachesAsker(env: Env, s: State, e: Event, now: int) returns (es: seq<Event>, t: State, decided: Ask)
    requires e.StartAnswer? && e.t !in s.answerers && !e.viewer.agent && e.id in s.hub.asks && e.id in s.askers
    requires s.askers[e.id].phase == Waiting && s.askers[e.id].ask.facts.id == e.id == s.hub.asks[e.id].facts.id
    requires e.id in s.hub.registered && e.id in s.hub.chans && s.hub.chans[e.id] == None
    requires s.hub.asks[e.id].status == Pending && s.hub.asks[e.id].facts.project == e.project
    requires MayAnswer(e.viewer, s.hub.asks[e.id]) && Resolve(s.hub.asks[e.id], e.verdict, e.answer).Resolved?
    ensures Leads(env, s, es, t) && e.id in t.askers && t.askers[e.id].phase == Done(Some(decided))
    ensures var r := Resolve(s.hub.asks[e.id], e.verdict, e.answer);
            && decided == s.hub.asks[e.id].(status := r.status, answer := r.answer, note := e.note,
                                            decidedBy := ViewerId(e.viewer), decidedAt := now)
            && t.hub.asks == s.hub.asks[e.id := decided] && t.hub.registered == s.hub.registered - {e.id}
            && e.t in t.answerers
            && t.answerers[e.t] == (if decided.answer == APPROVE_RUN && decided.facts.runId.Some?
                                    then Listing(decided, ViewerId(e.viewer)) else Finished)
  {
    hide Noted, Leads, AskerEffect, AnswererEffect, WaiterEffect, ExpirerEffect, Resolve, MayAnswer, ViewerId;
    var first, mid;
    first, mid, decided := DecisionIsSent(env, s, e, now);
    var rest;
    rest, t := SentIsHeard(env, mid, e.id, now);
    LeadsJoin(env, s, first, mid, rest, t);
    es := first + rest;
  }

  /** What the answering call leaves to be heard. */
  lemma DecisionIsSent(env: Env, s: State, e: Event, now: int) returns (es: seq<Event>, t: State, decided: Ask)
    requires e.StartAnswer? && e.t !in s.answerers && !e.viewer.agent && e.id in s.hub.asks && e.id in s.askers
    requires s.hub.asks[e.id].facts.id == e.id && e.id in s.hub.registered
    requires e.id in s.hub.chans && s.hub.chans[e.id] == None
    requires s.hub.asks[e.id].status == Pending && s.hub.asks[e.id].facts.project == e.project
    requires MayAnswer(e.viewer, s.hub.asks[e.id]) && Resolve(s.hub.asks[e.id], e.verdict, e.answer).Resolved?
    ensures Leads(env, s, es, t)
    ensures var r := Resolve(s.hub.asks[e.id], e.verdict, e.answer);
            && decided == s.hub.asks[e.id].(status := r.status, answer := r.answer, note := e.note,
                                            decidedBy := ViewerId(e.viewer), decidedAt := now)
            && t.hub == s.hub.(asks := s.hub.asks[e.id := decided], chans := s.hub.chans[e.id := Some(decided)])
            && t.askers == s.askers && e.t in t.answerers
            && t.answerers[e.t] == (if decided.answer == APPROVE_RUN && decided.facts.runId.Some?
                                    then Listing(decided, ViewerId(e.viewer)) else Finished)
  {
    hide Noted, AskerEffect, WaiterEffect, ExpirerEffect, Leads, LookedUp, Resolve, MayAnswer, ViewerId;
    var answer := StepAnswerer(e.t, e.id, now);
    var s1 := After(env, s, e);
    DecisionBegins(s.hub, e);
    var s2 := After(env, s1, answer);
    var s3 := After(env, s2, answer);
    t := After(env, s3, answer);
    decided := s2.hub.asks[e.id];
    NoSteps(env, t);
    LeadsOn(env, s3, answer, t, [], t);
    LeadsOn(env, s2, answer, s3, [answer] + [], t);
    LeadsOn(env, s1, answer, s2, [answer] + ([answer] + []), t);
    LeadsOn(env, s, e, s1, [answer] + ([answer] + ([answer] + [])), t);
    es := [e] + ([answer] + ([answer] + ([answer] + [])));
  }

  lemma DecisionBegins(h: Hub, e: Event)
    requires e.StartAnswer? && !e.viewer.agent && e.id in h.asks
    requires h.asks[e.id].status == Pending && h.asks[e.id].facts.project == e.project
    requires MayAnswer(e.viewer, h.asks[e.id]) && Resolve(h.asks[e.id], e.verdict, e.answer).Resolved?
    ensures var r := Resolve(h.asks[e.id], e.verdict, e.answer);
            LookedUp(h, e) == Some(Deciding(e.project, e.id, e.viewer, r.status, r.answer, e.note,
                                            h.asks[e.id].facts.kind != Permission))
  {
    hide Resolve, MayAnswer;
  }

  lemma SentIsHeard(env: Env, s: State, id: AskId, now: int) returns (es: seq<Event>, t: State)
    requires id in s.askers && s.askers[id].phase == Waiting && s.askers[id].ask.facts.id == id
    requires id in s.hub.chans && s.hub.chans[id].Some?
    ensures Leads(env, s, es, t) && id in t.askers && t.askers[id].phase == Done(s.hub.chans[id])
    ensures t.hub.asks == s.hub.asks && t.hub.registered == s.hub.registered - {id} && t.answerers == s.answerers
  {
    hide Noted, AnswererEffect, ExpirerEffect, Leads;
    var hear, leave := Receive(id), StepAsker(id, "", now, 0);
    var s1 := After(env, s, hear);
    t := After(env, s1, leave);
    NoSteps(env, t);
    LeadsOn(env, s1, leave, t, [], t);
    LeadsOn(env, s, hear, s1, [leave] + [], t);
    es := [hear] + ([leave] + []);
  }

  /** A wait that runs out ends the ask, and the call returns what is stored then: the expired ask, or a decision
      that came first. A call given up ends it too, and returns nothing. */
  lemma WaitRunsOut(env: Env, s: State, id: AskId, now: int, cancelled: bool) returns (es: seq<Event>, t: State)
    requires id in s.askers && s.askers[id].phase == Waiting && s.askers[id].ask.facts.id == id
    requires id in s.hub.asks && s.hub.asks[id].facts.project == s.askers[id].ask.facts.project
    ensures Leads(env, s, es, t) && id in t.askers && id !in t.hub.registered
    ensures var a := s.hub.asks[id];
            var last := if a.status == Pending then a.(status := Expired, decidedAt := now) else a;
            && t.hub.asks == s.hub.asks[id := last]
            && t.askers[id].phase == Done(if cancelled then None else Some(last))
  {
    hide Noted;
    var end, leave := if cancelled then Cancel(id, now) else TimeOut(id, now), StepAsker(id, "", now, 0);
    var s1 := After(env, s, end);
    t := After(env, s1, leave);
    NoSteps(env, t);
    LeadsOn(env, s1, leave, t, [], t);
    LeadsOn(env, s, end, s1, [leave] + [], t);
    es := [end] + ([leave] + []);
    assert s.hub.asks[id := s.hub.asks[id]] == s.hub.asks;
  }

  // ---------------------------------------------------------------- allowing for the run

  /** id is one of those in todo that still wait in the project, and its call is there to hear of it. */
  predicate Hears(h: Hub, project: nat, todo: set<AskId>, id: AskId) {
    && id in todo && id in h.asks && h.asks[id].facts.project == project && h.asks[id].status == Pending
    && id in h.registered && id in h.chans && h.chans[id] == None
  }

  /** Each of those has been sent what its ask has become, and no other channel has changed. */
  ghost predicate Told(h: Hub, h': Hub, project: nat, todo: set<AskId>) {
    && h'.registered == h.registered && h'.asks.Keys == h.asks.Keys
    && forall id :: id in h.chans ==>
         && id in h'.chans
         && h'.chans[id] == if Hears(h, project, todo, id) then Some(h'.asks[id]) else h.chans[id]
  }

  lemma ToldNext(h: Hub, m: Hub, t: Hub, project: nat, todo: set<AskId>, pick: AskId)
    requires pick in todo && Told(h, m, project, {pick}) && Told(m, t, project, todo - {pick})
    requires forall id :: id in h.asks && id != pick ==> m.asks[id] == h.asks[id]
    requires pick in m.asks ==> t.asks[pick] == m.asks[pick]
    ensures Told(h, t, project, todo)
  {
    forall id | id in h.chans
      ensures id in t.chans
              && t.chans[id] == if Hears(h, project, todo, id) then Some(t.asks[id]) else h.chans[id]
    {
      assert Hears(h, project, {pick}, id) <==> id == pick && Hears(h, project, todo, id);
      assert Hears(m, project, todo - {pick}, id) <==> id != pick && Hears(h, project, todo, id);
    }
  }

  lemma SentTells(h: Hub, h': Hub, project: nat, pick: AskId, value: Ask)
    requires pick in h.asks && h.asks[pick].facts.project == project && h.asks[pick].status == Pending
    requires h'.asks.Keys == h.asks.Keys && h'.asks[pick] == value && value.facts.id == pick
    requires h'.registered == h.registered
    requires h'.chans == if pick in h.registered then Sent(h.chans, value) else h.chans
    ensures Told(h, h', project, {pick})
  {
  }

  lemma NobodyTold(h: Hub, h': Hub, project: nat, todo: set<AskId>)
    requires h'.asks.Keys == h.asks.Keys && h'.registered == h.registered && h'.chans == h.chans
    requires forall id :: id in todo ==> !Hears(h, project, todo, id)
    ensures Told(h, h', project, todo)
  {
  }

  /** The asks of todo that still wait in the project, allowed. */
  function Freed(asks: Asks, project: nat, todo: set<AskId>, who: string, now: int): Asks {
    map id | id in asks ::
      if id in todo && asks[id].facts.project == project && asks[id].status == Pending
      then asks[id].(status := Approved, answer := "approve_run", note := "allowed for this run", decidedBy := who,
                     decidedAt := now)
      else asks[id]
  }

  /** An answerer that frees a list of prompts allows every one that still waits, and no other ask, and is done. */
  lemma {:induction false} FreeingFrees(env: Env, s: State, n: nat, now: int) returns (es: seq<Event>, t: State)
    requires n in s.answerers && s.answerers[n].Freeing?
    requires forall id :: id in s.hub.asks ==> s.hub.asks[id].facts.id == id
    ensures Leads(env, s, es, t) && n in t.answerers && t.answerers[n] == Finished
    ensures var a := s.answerers[n];
            t.hub.asks == Freed(s.hub.asks, a.project, a.todo, a.who, now) && Told(s.hub, t.hub, a.project, a.todo)
    decreases |s.answerers[n].todo|
  {
    hide Noted, Sent, Leads, PersonAllows, Told, Hears;
    var a := s.answerers[n];
    if a.todo == {} {
      t := After(env, s, StepAnswerer(n, 0, now));
      NoSteps(env, t);
      LeadsOn(env, s, StepAnswerer(n, 0, now), t, [], t);
      es := [StepAnswerer(n, 0, now)] + [];
      assert Freed(s.hub.asks, a.project, {}, a.who, now) == s.hub.asks;
      NobodyTold(s.hub, t.hub, a.project, {});
    } else {
      var pick :| pick in a.todo;
      var first, next := FreeOne(env, s, n, pick, now);
      var rest;
      rest, t := FreeingFrees(env, next, n, now);
      LeadsJoin(env, s, first, next, rest, t);
      es := first + rest;
      FreedNext(s.hub.asks, a.project, a.todo, pick, a.who, now);
      ToldNext(s.hub, next.hub, t.hub, a.project, a.todo, pick);
    }
  }

  lemma FreedNext(asks: Asks, project: nat, todo: set<AskId>, pick: AskId, who: string, now: int)
    requires pick in todo
    ensures Freed(Freed(asks, project, {pick}, who, now), project, todo - {pick}, who, now)
            == Freed(asks, project, todo, who, now)
  {
  }

  lemma FreeOne(env: Env, s: State, n: nat, pick: AskId, now: int) returns (es: seq<Event>, t: State)
    requires n in s.answerers && s.answerers[n].Freeing? && pick in s.answerers[n].todo
    requires forall id :: id in s.hub.asks ==> s.hub.asks[id].facts.id == id
    ensures var a := s.answerers[n];
            && Leads(env, s, es, t) && n in t.answerers && t.answerers[n] == Freeing(a.project, a.who, a.todo - {pick})
            && t.hub.asks == Freed(s.hub.asks, a.project, {pick}, a.who, now)
            && Told(s.hub, t.hub, a.project, {pick})
            && forall id :: id in t.hub.asks ==> t.hub.asks[id].facts.id == id
  {
    hide Noted, Sent, Leads, PersonAllows, Decide, Freed, AskerEffect, ExpirerEffect, WaiterEffect, LookedUp;
    hide Told;
    var a, step := s.answerers[n], StepAnswerer(n, pick, now);
    DecideFrees(s.hub.asks, a.project, pick, a.who, now);
    var s1 := After(env, s, step);
    if s1.answerers[n].Passing? {
      var rest;
      rest, t := JobDone(env, s1, n, now);
      LeadsOn(env, s, step, s1, rest, t);
      es := [step] + rest;
      SentTells(s.hub, t.hub, a.project, pick, s1.hub.asks[pick]);
    } else {
      t := s1;
      NobodyTold(s.hub, t.hub, a.project, {pick});
      NoSteps(env, t);
      LeadsOn(env, s, step, t, [], t);
      es := [step] + [];
    }
  }

  lemma DecideFrees(asks: Asks, project: nat, pick: AskId, who: string, now: int)
    requires forall id :: id in asks ==> asks[id].facts.id == id
    ensures var (asks', result) :=
              Decide(asks, project, pick, Approved, APPROVE_RUN, ALLOWED_FOR_RUN_NOTE, who, false, now);
            && asks' == Freed(asks, project, {pick}, who, now)
            && asks'.Keys == asks.Keys
            && (result.Decided?
                <==> pick in asks && asks[pick].facts.project == project && asks[pick].status == Pending)
            && (result.Decided? ==> result.ask == asks'[pick] && result.ask.facts.project == project)
            && forall id :: id in asks' ==> asks'[id].facts.id == id
  {
  }

  /** A decision handed to its waiter, if it has one, before the next of the list. */
  lemma JobDone(env: Env, s: State, n: nat, now: int) returns (es: seq<Event>, t: State)
    requires n in s.answerers && s.answerers[n].Passing? && s.answerers[n].job.rest.AfterEach?
    ensures Leads(env, s, es, t) && n in t.answerers
    ensures var u := s.answerers[n].job.updated;
            t.hub == s.hub.(chans := if u.facts.id in s.hub.registered then Sent(s.hub.chans, u) else s.hub.chans)
    ensures var job := s.answerers[n].job;
            t.answerers[n] == Freeing(job.updated.facts.project, job.who, job.rest.todo)
  {
    hide Noted, Sent, Leads, PersonAllows, AskerEffect, ExpirerEffect, WaiterEffect, LookedUp;
    var step := StepAnswerer(n, 0, now);
    var s1 := After(env, s, step);
    if s1.answerers[n].Posting? {
      t := After(env, s1, step);
      NoSteps(env, t);
      LeadsOn(env, s1, step, t, [], t);
      LeadsOn(env, s, step, s1, [step] + [], t);
      es := [step] + ([step] + []);
    } else {
      t := s1;
      NoSteps(env, t);
      LeadsOn(env, s, step, t, [], t);
      es := [step] + [];
    }
  }

  /** An allow for the run, carried through alone, allows every prompt of the run that waits and that it covers, and
      changes no other ask; and whoever waits for one of them is sent it. */
  lemma AllowFreesTheRun(env: Env, s: State, n: nat, now: int) returns (es: seq<Event>, t: State)
    requires n in s.answerers && s.answerers[n].Listing? && s.answerers[n].allow.facts.runId.Some?
    requires forall id :: id in s.hub.asks ==> s.hub.asks[id].facts.id == id
    ensures Leads(env, s, es, t) && t.hub.asks.Keys == s.hub.asks.Keys
    ensures var f := s.answerers[n].allow.facts;
            forall id :: id in s.hub.asks ==>
              var a := s.hub.asks[id];
              t.hub.asks[id] == if a.facts.project == f.project && a.facts.runId == f.runId
                                   && a.facts.kind == Permission && a.status == Pending
                                   && ReleaseCovers(f.tool, f.runKey, a.facts.tool, a.facts.runKey)
                                then a.(status := Approved, answer := "approve_run", note := "allowed for this run",
                                        decidedBy := s.answerers[n].who, decidedAt := now)
                                else a
    ensures forall id :: id in s.hub.asks && id in s.hub.registered && id in s.hub.chans ==>
              && id in t.hub.chans
              && t.hub.chans[id] == if s.hub.chans[id] == None && t.hub.asks[id] != s.hub.asks[id]
                                    then Some(t.hub.asks[id]) else s.hub.chans[id]
  {
    hide Noted, Sent, Leads, PersonAllows, ReleaseCovers;
    var step := StepAnswerer(n, 0, now);
    var s1 := After(env, s, step);
    var rest;
    rest, t := FreeingFrees(env, s1, n, now);
    LeadsOn(env, s, step, s1, rest, t);
    es := [step] + rest;
  }

  // ---------------------------------------------------------------- the end of a run

  function Ended(asks: Asks, project: nat, todo: set<AskId>, now: int): Asks {
    map id | id in asks ::
      if id in todo && asks[id].facts.project == project && asks[id].status == Pending
      then asks[id].(status := Expired, decidedAt := now) else asks[id]
  }

  lemma EndedNext(asks: Asks, project: nat, todo: set<AskId>, pick: AskId, now: int)
    requires pick in todo
    ensures Ended(Ended(asks, project, {pick}, now), project, todo - {pick}, now) == Ended(asks, project, todo, now)
  {
  }

  lemma EndOne(env: Env, s: State, n: nat, pick: AskId, now: int) returns (es: seq<Event>, t: State)
    requires n in s.expirers && s.expirers[n].Expiring? && pick in s.expirers[n].todo
    requires pick in s.hub.asks ==> s.hub.asks[pick].status != Expired
    requires forall id :: id in s.hub.asks ==> s.hub.asks[id].facts.id == id
    ensures var x := s.expirers[n];
            && Leads(env, s, es, t) && n in t.expirers && t.expirers[n] == Expiring(x.project, x.todo - {pick})
            && t.hub.asks == Ended(s.hub.asks, x.project, {pick}, now)
            && Told(s.hub, t.hub, x.project, {pick})
            && forall id :: id in t.hub.asks ==> t.hub.asks[id].facts.id == id
  {
    hide Noted, Sent, Leads, AskerEffect, WaiterEffect, AnswererEffect, ExpireOne, Ended, Told;
    var x, step := s.expirers[n], StepExpirer(n, pick, now);
    ExpireEnds(s.hub.asks, x.project, pick, now);
    var s1 := After(env, s, step);
    if s1.expirers[n].Looking? {
      var rest;
      rest, t := ExpiryDone(env, s1, n, now);
      LeadsOn(env, s, step, s1, rest, t);
      es := [step] + rest;
      SentTells(s.hub, t.hub, x.project, pick, s1.hub.asks[pick]);
    } else {
      t := s1;
      NobodyTold(s.hub, t.hub, x.project, {pick});
      NoSteps(env, t);
      LeadsOn(env, s, step, t, [], t);
      es := [step] + [];
    }
  }

  /** However its steps fall among others', it ends only asks it listed, that still wait in its project. */
  lemma ExpirerEndsListed(h: Hub, x: Expirer, pick: AskId, now: int, id: AskId)
    requires id in h.asks
    ensures var (h', x') := ExpirerEffect(h, x, pick, now);
            && h'.asks.Keys == h.asks.Keys && h'.registered == h.registered
            && (h'.asks[id] != h.asks[id] ==>
                  && x.Expiring? && id == pick && id in x.todo && id !in x'.todo
                  && h.asks[id].facts.project == x.project && h.asks[id].status == Pending
                  && h'.asks[id] == h.asks[id].(status := Expired, decidedAt := now))
  {
    hide Sent;
  }

  /** An expired ask handed to its waiter, if it has one, before the next of the list. */
  lemma ExpiryDone(env: Env, s: State, n: nat, now: int) returns (es: seq<Event>, t: State)
    requires n in s.expirers && s.expirers[n].Looking?
    ensures Leads(env, s, es, t) && n in t.expirers
    ensures var x := s.expirers[n];
            && t.expirers[n] == Expiring(x.project, x.todo)
            && t.hub == s.hub.(chans := if x.expired.facts.id in s.hub.registered then Sent(s.hub.chans, x.expired)
                                        else s.hub.chans)
  {
    hide Noted, Sent, Leads, AskerEffect, WaiterEffect, AnswererEffect, ExpireOne;
    var step := StepExpirer(n, 0, now);
    var s1 := After(env, s, step);
    if s1.expirers[n].Signalling? {
      t := After(env, s1, step);
      NoSteps(env, t);
      LeadsOn(env, s1, step, t, [], t);
      LeadsOn(env, s, step, s1, [step] + [], t);
      es := [step] + ([step] + []);
    } else {
      t := s1;
      NoSteps(env, t);
      LeadsOn(env, s, step, t, [], t);
      es := [step] + [];
    }
  }

  lemma ExpireEnds(asks: Asks, project: nat, pick: AskId, now: int)
    requires forall id :: id in asks ==> asks[id].facts.id == id
    requires pick in asks ==> asks[pick].status != Expired
    ensures var (asks', result) := ExpireOne(asks, project, pick, now);
            && asks' == Ended(asks, project, {pick}, now) && asks'.Keys == asks.Keys
            && (result.Some? && result.value.status == Expired
                <==> pick in asks && asks[pick].facts.project == project && asks[pick].status == Pending)
            && (result.Some? ==> result.value == asks'[pick])
            && forall id :: id in asks' ==> asks'[id].facts.id == id
  {
  }

  lemma {:induction false} ExpiringEnds(env: Env, s: State, n: nat, now: int) returns (es: seq<Event>, t: State)
    requires n in s.expirers && s.expirers[n].Expiring?
    requires forall id :: id in s.hub.asks ==> s.hub.asks[id].facts.id == id
    requires forall id :: id in s.expirers[n].todo && id in s.hub.asks ==> s.hub.asks[id].status != Expired
    ensures Leads(env, s, es, t) && n in t.expirers && t.expirers[n] == Expirer.Ended
    ensures var x := s.expirers[n];
            t.hub.asks == Ended(s.hub.asks, x.project, x.todo, now) && Told(s.hub, t.hub, x.project, x.todo)
    decreases |s.expirers[n].todo|
  {
    hide Noted, Sent, Leads, Told, Hears;
    var x := s.expirers[n];
    if x.todo == {} {
      t := After(env, s, StepExpirer(n, 0, now));
      NoSteps(env, t);
      LeadsOn(env, s, StepExpirer(n, 0, now), t, [], t);
      es := [StepExpirer(n, 0, now)] + [];
      assert Ended(s.hub.asks, x.project, {}, now) == s.hub.asks;
      NobodyTold(s.hub, t.hub, x.project, {});
    } else {
      var pick :| pick in x.todo;
      var first, next := EndOne(env, s, n, pick, now);
      var rest;
      rest, t := ExpiringEnds(env, next, n, now);
      LeadsJoin(env, s, first, next, rest, t);
      es := first + rest;
      EndedNext(s.hub.asks, x.project, x.todo, pick, now);
      ToldNext(s.hub, next.hub, t.hub, x.project, x.todo, pick);
    }
  }

  /** The expiry of a run, taken alone, ends every ask of the run that waits, and no other; and whoever waits for one
      of them is sent it. */
  lemma RunEndExpires(env: Env, s: State, n: nat, project: nat, runId: nat, now: int) returns (es: seq<Event>, t: State)
    requires n !in s.expirers
    requires forall id :: id in s.hub.asks ==> s.hub.asks[id].facts.id == id
    ensures Leads(env, s, es, t) && t.hub.asks.Keys == s.hub.asks.Keys
    ensures forall id :: id in s.hub.asks ==>
              var a := s.hub.asks[id];
              t.hub.asks[id] == if a.facts.project == project && a.facts.runId == Some(runId) && a.status == Pending
                                then a.(status := Expired, decidedAt := now) else a
    ensures forall id :: id in s.hub.asks && id in s.hub.registered && id in s.hub.chans ==>
              && id in t.hub.chans
              && t.hub.chans[id] == if s.hub.chans[id] == None && t.hub.asks[id] != s.hub.asks[id]
                                    then Some(t.hub.asks[id]) else s.hub.chans[id]
  {
    hide Noted, Sent, Leads, Ended;
    var begin, step := StartExpiry(n, project, Some(runId)), StepExpirer(n, 0, now);
    var s1 := After(env, s, begin);
    var s2 := After(env, s1, step);
    var rest;
    rest, t := ExpiringEnds(env, s2, n, now);
    LeadsOn(env, s1, step, s2, rest, t);
    LeadsOn(env, s, begin, s1, [step] + rest, t);
    es := [begin] + ([step] + rest);
    EndsRun(s.hub.asks, project, runId, now);
  }

  lemma EndsRun(asks: Asks, project: nat, runId: nat, now: int)
    ensures var ended := Ended(asks, project, RunPending(asks, project, runId), now);
            && ended.Keys == asks.Keys
            && forall id :: id in asks ==>
                 ended[id] == if asks[id].facts.project == project && asks[id].facts.runId == Some(runId)
                                 && asks[id].status == Pending
                              then asks[id].(status := Expired, decidedAt := now) else asks[id]
  {
  }
}
