/** Every prompt allowed for its run traces back to a person who may answer it. */
module AskProvenance {
  import opened Prelude
  import opened AskShape
  import opened AskStore
  import opened AskProtocol
  import opened AskWiring

  /** A prompt its own person allowed for the run. */
  ghost predicate PersonAllowed(a: Ask) {
    IsRunAllow(a) && a.decidedBy != "" && (SameFold(a.facts.actor, a.decidedBy) || a.decidedBy == LOCAL)
  }

  ghost predicate ByPersonHolds(asks: Asks, byPerson: set<AskId>) {
    forall p :: p in byPerson ==> p in asks && PersonAllowed(asks[p])
  }

  /** p covers a prompt with facts f: the same project and run, and a key that covers its key. */
  predicate CoversFacts(p: Facts, f: Facts) {
    p.project == f.project && p.runId == f.runId && f.runId.Some? && ReleaseCovers(p.tool, p.runKey, f.tool, f.runKey)
  }

  /** who, a person, allowed for the run a prompt that covers one with facts f. */
  ghost predicate Granted(asks: Asks, byPerson: set<AskId>, f: Facts, who: string) {
    exists p :: p in byPerson && p in asks && asks[p].decidedBy == who && CoversFacts(asks[p].facts, f)
  }

  ghost predicate Traced(asks: Asks, byPerson: set<AskId>) {
    forall id :: id in asks && IsRunAllow(asks[id]) ==>
      asks[id].decidedBy != "" && (id in byPerson || Granted(asks, byPerson, asks[id].facts, asks[id].decidedBy))
  }

  /** An asker acting on an earlier allow has one. */
  ghost predicate AskerGranted(asks: Asks, byPerson: set<AskId>, k: Asker) {
    && (k.phase.Allowing? ==> k.phase.who != "" && Granted(asks, byPerson, k.ask.facts, k.phase.who))
    && (k.phase.Releasing? ==> k.phase.who != "" && Granted(asks, byPerson, k.ask.facts, k.phase.who))
  }

  ghost predicate AskersGranted(asks: Asks, byPerson: set<AskId>, askers: map<AskId, Asker>) {
    forall id :: id in askers ==> AskerGranted(asks, byPerson, askers[id])
  }

  /** A decision its answerer may be about to apply to the rest of the run. */
  ghost predicate OwnFits(asks: Asks, byPerson: set<AskId>, a: Ask, who: string) {
    && a.facts.id in asks && asks[a.facts.id].facts == a.facts
    && (a.facts.kind == Permission ==> asks[a.facts.id] == a && Settled(a))
    && (IsRunAllow(a) ==> a.facts.id in byPerson && a.decidedBy == who && who != "")
    && (a.facts.kind == Permission && a.answer == APPROVE_RUN ==> IsRunAllow(a))
    && (a.facts.kind != Permission ==> a.facts.tool == "")
  }

  ghost predicate TodoFits(asks: Asks, byPerson: set<AskId>, project: nat, who: string, todo: set<AskId>) {
    && (todo != {} ==> who != "")
    && forall id :: id in todo ==> id in asks && asks[id].facts.project == project && asks[id].facts.kind == Permission
                                   && Granted(asks, byPerson, asks[id].facts, who)
  }

  ghost predicate JobFits(asks: Asks, byPerson: set<AskId>, job: Job) {
    match job.rest
    case AfterOwn => OwnFits(asks, byPerson, job.updated, job.who)
    case AfterEach(todo) => TodoFits(asks, byPerson, job.updated.facts.project, job.who, todo)
  }

  ghost predicate AnswererFits(asks: Asks, byPerson: set<AskId>, a: Answerer) {
    match a
    case Passing(job) => JobFits(asks, byPerson, job)
    case Posting(job) => JobFits(asks, byPerson, job)
    case Listing(allow, who) => OwnFits(asks, byPerson, allow, who) && allow.answer == APPROVE_RUN
    case Freeing(project, who, todo) => TodoFits(asks, byPerson, project, who, todo)
    case _ => true
  }

  ghost predicate AnswerersFit(asks: Asks, byPerson: set<AskId>, answerers: map<nat, Answerer>) {
    forall t :: t in answerers ==> AnswererFits(asks, byPerson, answerers[t])
  }

  ghost predicate Provenance(s: State) {
    && ByPersonHolds(s.hub.asks, s.byPerson)
    && Traced(s.hub.asks, s.byPerson)
    && AskersGranted(s.hub.asks, s.byPerson, s.askers)
    && AnswerersFit(s.hub.asks, s.byPerson, s.answerers)
  }

  // What was granted stays granted as the asks move on and persons allow more.

  lemma GrantedStays(asks: Asks, asks': Asks, byPerson: set<AskId>, byPerson': set<AskId>, f: Facts, who: string)
    requires AsksMove(asks, asks') && byPerson <= byPerson' && ByPersonHolds(asks, byPerson)
    requires Granted(asks, byPerson, f, who)
    ensures Granted(asks', byPerson', f, who)
  {
    hide CoversFacts;
    var p :| p in byPerson && p in asks && asks[p].decidedBy == who && CoversFacts(asks[p].facts, f);
    assert p in byPerson' && p in asks' && asks'[p] == asks[p];
  }

  lemma ByPersonStays(asks: Asks, asks': Asks, byPerson: set<AskId>)
    requires AsksMove(asks, asks') && ByPersonHolds(asks, byPerson)
    ensures ByPersonHolds(asks', byPerson)
  {
    hide SameFold;
  }

  lemma AskersGrantedStay(asks: Asks, asks': Asks, byPerson: set<AskId>, byPerson': set<AskId>,
                          askers: map<AskId, Asker>)
    requires AsksMove(asks, asks') && byPerson <= byPerson' && ByPersonHolds(asks, byPerson)
    requires AskersGranted(asks, byPerson, askers)
    ensures AskersGranted(asks', byPerson', askers)
  {
    hide Granted, AsksMove, ByPersonHolds;
    forall id | id in askers ensures AskerGranted(asks', byPerson', askers[id]) {
      var k := askers[id];
      assert AskerGranted(asks, byPerson, k);
      if k.phase.Allowing? || k.phase.Releasing? {
        GrantedStays(asks, asks', byPerson, byPerson', k.ask.facts, k.phase.who);
      }
    }
  }

  lemma TodoStays(asks: Asks, asks': Asks, byPerson: set<AskId>, byPerson': set<AskId>, project: nat, who: string,
                  todo: set<AskId>)
    requires AsksMove(asks, asks') && byPerson <= byPerson' && ByPersonHolds(asks, byPerson)
    requires TodoFits(asks, byPerson, project, who, todo)
    ensures TodoFits(asks', byPerson', project, who, todo)
  {
    hide Granted, ByPersonHolds;
    forall id | id in todo ensures Granted(asks', byPerson', asks[id].facts, who) {
      GrantedStays(asks, asks', byPerson, byPerson', asks[id].facts, who);
    }
  }

  lemma OwnStays(asks: Asks, asks': Asks, byPerson: set<AskId>, byPerson': set<AskId>, a: Ask, who: string)
    requires AsksMove(asks, asks') && byPerson <= byPerson' && OwnFits(asks, byPerson, a, who)
    ensures OwnFits(asks', byPerson', a, who)
  {
  }

  lemma AnswererFitsStays(asks: Asks, asks': Asks, byPerson: set<AskId>, byPerson': set<AskId>, a: Answerer)
    requires AsksMove(asks, asks') && byPerson <= byPerson' && ByPersonHolds(asks, byPerson)
    requires AnswererFits(asks, byPerson, a)
    ensures AnswererFits(asks', byPerson', a)
  {
    hide TodoFits, OwnFits, AsksMove, ByPersonHolds;
    match a
    case Passing(job) => JobStays(asks, asks', byPerson, byPerson', job);
    case Posting(job) => JobStays(asks, asks', byPerson, byPerson', job);
    case Listing(allow, who) => OwnStays(asks, asks', byPerson, byPerson', allow, who);
    case Freeing(project, who, todo) => TodoStays(asks, asks', byPerson, byPerson', project, who, todo);
    case _ =>
  }

  lemma JobStays(asks: Asks, asks': Asks, byPerson: set<AskId>, byPerson': set<AskId>, job: Job)
    requires AsksMove(asks, asks') && byPerson <= byPerson' && ByPersonHolds(asks, byPerson)
    requires JobFits(asks, byPerson, job)
    ensures JobFits(asks', byPerson', job)
  {
    hide TodoFits, OwnFits, AsksMove, ByPersonHolds;
    match job.rest
    case AfterOwn => OwnStays(asks, asks', byPerson, byPerson', job.updated, job.who);
    case AfterEach(todo) => TodoStays(asks, asks', byPerson, byPerson', job.updated.facts.project, job.who, todo);
  }

  lemma AnswerersFitStay(asks: Asks, asks': Asks, byPerson: set<AskId>, byPerson': set<AskId>,
                         answerers: map<nat, Answerer>)
    requires AsksMove(asks, asks') && byPerson <= byPerson' && ByPersonHolds(asks, byPerson)
    requires AnswerersFit(asks, byPerson, answerers)
    ensures AnswerersFit(asks', byPerson', answerers)
  {
    hide AnswererFits, AsksMove, ByPersonHolds;
    forall t | t in answerers ensures AnswererFits(asks', byPerson', answerers[t]) {
      AnswererFitsStays(asks, asks', byPerson, byPerson', answerers[t]);
    }
  }

  /** New allows appear only where the step says; the old ones stay traced. */
  lemma TracedStays(asks: Asks, asks': Asks, byPerson: set<AskId>, byPerson': set<AskId>, changed: set<AskId>)
    requires AsksMove(asks, asks') && byPerson <= byPerson' && ByPersonHolds(asks, byPerson) && Traced(asks, byPerson)
    requires forall id :: id in asks' && IsRunAllow(asks'[id]) && id !in changed ==> id in asks && asks'[id] == asks[id]
    requires forall id :: id in changed && id in asks' && IsRunAllow(asks'[id]) ==>
               asks'[id].decidedBy != ""
                 && (id in byPerson' || Granted(asks', byPerson', asks'[id].facts, asks'[id].decidedBy))
    ensures Traced(asks', byPerson')
  {
    hide Granted, ByPersonHolds;
    forall id | id in asks' && IsRunAllow(asks'[id])
      ensures asks'[id].decidedBy != ""
      ensures (id in byPerson' || Granted(asks', byPerson', asks'[id].facts, asks'[id].decidedBy))
    {
      if id !in changed && id !in byPerson' {
        GrantedStays(asks, asks', byPerson, byPerson', asks[id].facts, asks[id].decidedBy);
      }
    }
  }

  /** A lookup that finds an allow finds one a person stands behind. */
  lemma LookupGranted(s: State, id: AskId, who: string)
    requires Wired(s.hub, s.askers) && Provenance(s) && id in s.askers && AsksForRun(s.askers[id].ask) && who != ""
    requires var k := s.askers[id];
             AllowedBy(s.hub.asks, k.ask.facts.project, k.ask.facts.runId.value, k.ask.facts.tool, k.lookupKey, who)
    ensures Granted(s.hub.asks, s.byPerson, s.askers[id].ask.facts, who)
  {
    hide KeysFit, IsShell, SameFold;
    var k := s.askers[id];
    var f := k.ask.facts;
    var asks := s.hub.asks;
    assert WiredAsker(s.hub, id, k);
    var m :| m in asks && Allows(asks[m], f.project, f.runId.value, f.tool, k.lookupKey) && asks[m].decidedBy == who;
    if m in s.byPerson {
      AllowCovers(s, m, id);
    } else {
      var p :| p in s.byPerson && p in asks && asks[p].decidedBy == who && CoversFacts(asks[p].facts, asks[m].facts);
      AllowCovers(s, p, id);
    }
  }

  /** A stored allow whose key is the key looked up covers the prompt. */
  lemma AllowCovers(s: State, p: AskId, id: AskId)
    requires Wired(s.hub, s.askers) && id in s.askers && AsksForRun(s.askers[id].ask)
    requires p in s.hub.asks && IsRunAllow(s.hub.asks[p])
    requires var pf, k := s.hub.asks[p].facts, s.askers[id];
             pf.project == k.ask.facts.project && pf.runId == k.ask.facts.runId
    ensures var pf, k := s.hub.asks[p].facts, s.askers[id];
            LookupCovers(pf.tool, pf.runKey, k.ask.facts.tool, k.lookupKey) <==> CoversFacts(pf, k.ask.facts)
  {
    hide IsShell;
    var pf, k := s.hub.asks[p].facts, s.askers[id];
    assert WiredAsker(s.hub, id, k);
    assert p in s.askers && WiredAsker(s.hub, p, s.askers[p]);
    LookupIsRelease(pf.tool, pf.runKey, k.ask.facts.tool, k.ask.facts.runKey, k.lookupKey);
  }

  lemma AskerProvenance(s: State, e: Event, env: Env)
    requires Wired(s.hub, s.askers) && Provenance(s) && e.StepAsker? && e.id in s.askers && Honest(s, e)
    ensures Provenance(Effect(env, s, e))
  {
    hide WiredAsker, Granted, AsksMove, AskerEffect, AllowedBy, IsRunAllow, Traced, ByPersonHolds, PersonAllowed;
    hide AnswererFits;
    var k := s.askers[e.id];
    var (h, k') := AskerEffect(s.hub, k, e.who, e.now, e.timeout);
    assert WiredAsker(s.hub, e.id, k);
    AskerStays(s.hub, e.id, k, e.who, e.now, e.timeout);
    ByPersonStays(s.hub.asks, h.asks, s.byPerson);
    AskersGrantedStay(s.hub.asks, h.asks, s.byPerson, s.byPerson, s.askers);
    AnswerersFitStay(s.hub.asks, h.asks, s.byPerson, s.byPerson, s.answerers);
    AskerTraced(s, e);
    AskerStaysGranted(s, e);
  }

  /** An asker's step changes no ask but its own, and makes that an allow only in the name it was given. */
  lemma AskerChanges(h: Hub, id: AskId, k: Asker, who: string, now: int, timeout: int)
    requires WiredAsker(h, id, k)
    ensures var h' := AskerEffect(h, k, who, now, timeout).0;
            && (forall x :: x in h'.asks && x != id ==> x in h.asks && h'.asks[x] == h.asks[x])
            && (id in h'.asks && IsRunAllow(h'.asks[id]) ==>
                  || (id in h.asks && h'.asks[id] == h.asks[id])
                  || ((k.phase.Allowing? || k.phase.Releasing?) && h'.asks[id].decidedBy == k.phase.who
                      && h'.asks[id].facts == k.ask.facts))
  {
    hide KeysFit, HasRoom, AskTimeout;
  }

  lemma AskerTraced(s: State, e: Event)
    requires Wired(s.hub, s.askers) && Provenance(s) && e.StepAsker? && e.id in s.askers
    ensures Traced(AskerEffect(s.hub, s.askers[e.id], e.who, e.now, e.timeout).0.asks, s.byPerson)
  {
    hide Granted, AsksMove, WiredAsker, ByPersonHolds, AskerEffect, IsRunAllow;
    var k := s.askers[e.id];
    var h := AskerEffect(s.hub, k, e.who, e.now, e.timeout).0;
    assert WiredAsker(s.hub, e.id, k) && AskerGranted(s.hub.asks, s.byPerson, k);
    AskerStays(s.hub, e.id, k, e.who, e.now, e.timeout);
    AskerChanges(s.hub, e.id, k, e.who, e.now, e.timeout);
    if k.phase.Allowing? || k.phase.Releasing? {
      GrantedStays(s.hub.asks, h.asks, s.byPerson, s.byPerson, k.ask.facts, k.phase.who);
    }
    TracedStays(s.hub.asks, h.asks, s.byPerson, s.byPerson,
                if e.id in h.asks && !(e.id in s.hub.asks && h.asks[e.id] == s.hub.asks[e.id]) then {e.id} else {});
  }

  lemma AskerStaysGranted(s: State, e: Event)
    requires Wired(s.hub, s.askers) && Provenance(s) && e.StepAsker? && e.id in s.askers && Honest(s, e)
    ensures var (h, k') := AskerEffect(s.hub, s.askers[e.id], e.who, e.now, e.timeout);
            AskerGranted(h.asks, s.byPerson, k')
  {
    hide Granted, AsksMove, KeysFit, HasRoom, ByPersonHolds, AllowedBy, Traced, AskTimeout;
    var k := s.askers[e.id];
    assert WiredAsker(s.hub, e.id, k);
    if (k.phase.Checking? || k.phase.Rechecking?) && AsksForRun(k.ask) && e.who != "" {
      LookupGranted(s, e.id, e.who);
    }
  }

  /** The decision of a person is traced to that person. */
  lemma DecidingTraced(s: State, a: Answerer, pick: AskId, now: int)
    requires Wired(s.hub, s.askers) && DeciderFits(s.hub, a) && Provenance(s) && a.Deciding?
    ensures var (h, a') := AnswererEffect(s.hub, a, pick, now);
            var byPerson := PersonAllows(s.byPerson, a, a');
            && ByPersonHolds(h.asks, byPerson) && Traced(h.asks, byPerson) && AnswererFits(h.asks, byPerson, a')
  {
    hide Granted, AsksMove, KeysFit, SameFold, ReleaseList, Traced;
    var (h, a') := AnswererEffect(s.hub, a, pick, now);
    var byPerson := PersonAllows(s.byPerson, a, a');
    AnswererStays(s.hub, a, pick, now);
    ByPersonStays(s.hub.asks, h.asks, s.byPerson);
    assert a.id in s.askers && WiredAsker(s.hub, a.id, s.askers[a.id]);
    TracedStays(s.hub.asks, h.asks, s.byPerson, byPerson, if a'.Passing? then {a.id} else {});
  }

  /** Releasing one waiting prompt is traced to the allow that covers it. */
  lemma FreeingTraced(s: State, a: Answerer, pick: AskId, now: int)
    requires Wired(s.hub, s.askers) && Provenance(s) && a.Freeing? && AnswererFits(s.hub.asks, s.byPerson, a)
    ensures var (h, a') := AnswererEffect(s.hub, a, pick, now);
            Traced(h.asks, s.byPerson) && AnswererFits(h.asks, s.byPerson, a')
  {
    hide Granted, AsksMove, KeysFit, ByPersonHolds, Traced;
    var (h, a') := AnswererEffect(s.hub, a, pick, now);
    AnswererStays(s.hub, a, pick, now);
    TodoStays(s.hub.asks, h.asks, s.byPerson, s.byPerson, a.project, a.who, a.todo);
    TracedStays(s.hub.asks, h.asks, s.byPerson, s.byPerson, if a'.Passing? then {pick} else {});
  }

  /** What an answerer lists to release is covered by what its person allowed. */
  lemma ListingFits(s: State, a: Answerer, pick: AskId, now: int)
    requires Wired(s.hub, s.askers) && Provenance(s) && a.Listing? && AnswererFits(s.hub.asks, s.byPerson, a)
    ensures AnswererFits(s.hub.asks, s.byPerson, AnswererEffect(s.hub, a, pick, now).1)
  {
    hide KeysFit, IsShell, ByPersonHolds, Traced;
    var a' := AnswererEffect(s.hub, a, pick, now).1;
    forall id | id in a'.todo
      ensures a.who != "" && Granted(s.hub.asks, s.byPerson, s.hub.asks[id].facts, a.who)
    {
      assert id in s.askers && WiredAsker(s.hub, id, s.askers[id]);
      assert IsRunAllow(a.allow);
      assert CoversFacts(s.hub.asks[a.allow.facts.id].facts, s.hub.asks[id].facts);
    }
  }

  lemma AnswererTraced(s: State, a: Answerer, pick: AskId, now: int)
    requires Wired(s.hub, s.askers) && DeciderFits(s.hub, a) && Provenance(s) && AnswererFits(s.hub.asks, s.byPerson, a)
    ensures var (h, a') := AnswererEffect(s.hub, a, pick, now);
            var byPerson := PersonAllows(s.byPerson, a, a');
            && s.byPerson <= byPerson
            && ByPersonHolds(h.asks, byPerson) && Traced(h.asks, byPerson) && AnswererFits(h.asks, byPerson, a')
  {
    hide Granted, AsksMove, KeysFit, ByPersonHolds, Traced, TodoFits, OwnFits, ReleaseList;
    AnswererStays(s.hub, a, pick, now);
    ByPersonStays(s.hub.asks, AnswererEffect(s.hub, a, pick, now).0.asks, s.byPerson);
    match a
    case Deciding(_, _, _, _, _, _, _) => DecidingTraced(s, a, pick, now);
    case Freeing(_, _, _) => FreeingTraced(s, a, pick, now);
    case Listing(_, _) => ListingFits(s, a, pick, now);
    case _ =>
  }

  lemma AnswererProvenance(s: State, e: Event, env: Env)
    requires Wired(s.hub, s.askers) && DecidersFit(s.hub, s.answerers) && Provenance(s) && e.StepAnswerer?
    requires e.t in s.answerers
    ensures Provenance(Effect(env, s, e))
  {
    hide WiredAsker, Granted, AsksMove, AnswererEffect, Traced, ByPersonHolds, AnswererFits, PersonAllows,
         DeciderFits, AskerGranted;
    var a := s.answerers[e.t];
    var (h, a') := AnswererEffect(s.hub, a, e.pick, e.now);
    var byPerson := PersonAllows(s.byPerson, a, a');
    AnswererStays(s.hub, a, e.pick, e.now);
    AnswererTraced(s, a, e.pick, e.now);
    AskersGrantedStay(s.hub.asks, h.asks, s.byPerson, byPerson, s.askers);
    AnswerersFitStay(s.hub.asks, h.asks, s.byPerson, byPerson, s.answerers);
  }

  /** A step that only expires asks, or only adds a thread that has done nothing yet. */
  lemma QuietProvenance(s: State, asks: Asks)
    requires Provenance(s) && AsksMove(s.hub.asks, asks)
    requires forall id :: id in asks && IsRunAllow(asks[id]) ==> id in s.hub.asks && asks[id] == s.hub.asks[id]
    ensures ByPersonHolds(asks, s.byPerson) && Traced(asks, s.byPerson)
    ensures AskersGranted(asks, s.byPerson, s.askers) && AnswerersFit(asks, s.byPerson, s.answerers)
  {
    hide AsksMove, AnswererFits, AskerGranted, Granted;
    ByPersonStays(s.hub.asks, asks, s.byPerson);
    TracedStays(s.hub.asks, asks, s.byPerson, s.byPerson, {});
    AskersGrantedStay(s.hub.asks, asks, s.byPerson, s.byPerson, s.askers);
    AnswerersFitStay(s.hub.asks, asks, s.byPerson, s.byPerson, s.answerers);
  }

  lemma ExpiryAllowsNothing(h: Hub, x: Expirer, pick: AskId, now: int, projects: set<nat>)
    ensures var asks := ExpirerEffect(h, x, pick, now).0.asks;
            forall id :: id in asks && IsRunAllow(asks[id]) ==> id in h.asks && asks[id] == h.asks[id]
    ensures var asks := ExpireStale(h.asks, projects, now);
            forall id :: id in asks && IsRunAllow(asks[id]) ==> id in h.asks && asks[id] == h.asks[id]
  {
    hide RunPending;
  }

  lemma WaitingAllowsNothing(h: Hub, k: Asker, e: Event)
    ensures var (h', k') := WaiterEffect(h, k, e);
            && (forall id :: id in h'.asks && IsRunAllow(h'.asks[id]) ==> id in h.asks && h'.asks[id] == h.asks[id])
            && (k'.phase == k.phase || k'.phase.Leaving?)
  {
  }

  lemma ProvenanceKept(env: Env, s: State, e: Event)
    requires Wired(s.hub, s.askers) && DecidersFit(s.hub, s.answerers) && Provenance(s) && Honest(s, e)
    ensures Provenance(Effect(env, s, e))
  {
    hide WiredAsker, Granted, AsksMove, AskerEffect, AnswererEffect, ExpirerEffect, WaiterEffect, LookedUp, Traced,
         ByPersonHolds, AnswererFits, DeciderFits, AskerGranted, IsRunAllow, ShapeAsk, ExpireStale, AllowedBy,
         OnlyAt, OnlyContents;
    match e
    case StepAsker(id, who, now, timeout) => if id in s.askers { AskerProvenance(s, e, env); }
    case StepAnswerer(t, pick, now) => if t in s.answerers { AnswererProvenance(s, e, env); }
    case StepExpirer(t, pick, now) =>
      if t in s.expirers {
        ExpirerStays(s.hub, s.expirers[t], pick, now);
        ExpiryAllowsNothing(s.hub, s.expirers[t], pick, now, {});
        QuietProvenance(s, ExpirerEffect(s.hub, s.expirers[t], pick, now).0.asks);
      }
    case SweepStale(projects, now) =>
      ExpireStaleMoves(s.hub.asks, projects, now);
      ExpiryAllowsNothing(s.hub, Ended, 0, now, projects);
      QuietProvenance(s, ExpireStale(s.hub.asks, projects, now));
    case StartAsk(_, _, _, _, _, _, _) => NewThreadsGranted(env, s, e);
    case StartAnswer(_, _, _, _, _, _, _) => NewThreadsGranted(env, s, e);
    case StartExpiry(_, _, _) =>
    case _ => if e.id in s.askers { WaitingProvenance(env, s, e); }
  }

  lemma NewThreadsGranted(env: Env, s: State, e: Event)
    requires Provenance(s) && (e.StartAsk? || e.StartAnswer?)
    ensures Provenance(Effect(env, s, e))
  {
    hide Granted, ShapeAsk, MayAnswer, Resolve, Traced, ByPersonHolds;
  }

  lemma WaitingProvenance(env: Env, s: State, e: Event)
    requires Wired(s.hub, s.askers) && Provenance(s) && (e.Receive? || e.TimeOut? || e.Cancel?) && e.id in s.askers
    ensures Provenance(Effect(env, s, e))
  {
    hide WiredAsker, Granted, AsksMove, WaiterEffect, Traced, ByPersonHolds, AnswererFits, IsRunAllow, OnlyAt;
    var (h, k) := WaiterEffect(s.hub, s.askers[e.id], e);
    assert WiredAsker(s.hub, e.id, s.askers[e.id]);
    WaiterStays(s.hub, e.id, s.askers[e.id], e);
    WaitingAllowsNothing(s.hub, s.askers[e.id], e);
    QuietProvenance(s, h.asks);
    assert AskerGranted(h.asks, s.byPerson, s.askers[e.id]);
    WaitingFacts(s.hub, s.askers[e.id], e);
  }

  lemma WaitingFacts(h: Hub, k: Asker, e: Event)
    ensures var k' := WaiterEffect(h, k, e).1; k'.phase == k.phase ==> k' == k
  {
  }
}
