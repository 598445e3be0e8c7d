/** Askers, answerers and run expiry running side by side, one critical section a step. */
module AskProtocol {
  import opened Prelude
  import opened AskShape
  import opened AskStore

  /** Where one call that asks has got to. A result of None is an error or an ended context. */
  datatype Phase =
    | Checking                     // about to look for an earlier allow
    | Allowing(who: string)        // found one: about to record the prompt as allowed
    | Registering                  // found none: about to register its waiter
    | Inserting                    // about to store the pending ask
    | Rechecking                   // stored: about to look again
    | Releasing(who: string)       // found one now: about to decide its own ask
    | Handing(updated: Ask)        // decided it: about to look up the waiter
    | Sending(updated: Ask)        // about to send to the waiter's channel
    | Waiting
    | Leaving(result: Option<Ask>) // about to drop its waiter
    | Done(result: Option<Ask>)

  datatype Asker = Asker(ask: Ask, lookupKey: string, phase: Phase)

  datatype Rest = AfterOwn | AfterEach(todo: set<AskId>)

  /** A decision on its way to the waiter, and what its answerer does next. */
  datatype Job = Job(updated: Ask, wasExpired: bool, who: string, rest: Rest)

  datatype Answerer =
    | Deciding(project: nat, id: AskId, viewer: Viewer, status: Status, answer: string, note: string,
               lateAllowed: bool)
    | Passing(job: Job)            // about to look up the waiter
    | Posting(job: Job)            // about to send to the waiter's channel
    | Listing(allow: Ask, who: string)
    | Freeing(project: nat, who: string, todo: set<AskId>)
    | Finished

  /** The expiry of an ended run's asks. */
  datatype Expirer =
    | Ending(project: nat, runId: Option<nat>)
    | Expiring(project: nat, todo: set<AskId>)
    | Looking(project: nat, expired: Ask, todo: set<AskId>)
    | Signalling(project: nat, expired: Ask, todo: set<AskId>)
    | Ended

  type Chans = map<AskId, Option<Ask>>

  /** What the hub's lock guards: the asks, who is registered to hear, and the waiters' channels, each
      of capacity one. A channel outlives its registration for whoever still holds it. */
  datatype Hub = Hub(asks: Asks, registered: set<AskId>, chans: Chans)

  /** The hub, its threads, and two records of the past: the first settled form of every ask, and the
      prompts a person allowed for their run. */
  datatype State = State(hub: Hub, askers: map<AskId, Asker>, answerers: map<nat, Answerer>,
                         expirers: map<nat, Expirer>, first: map<AskId, Ask>, byPerson: set<AskId>)

  datatype Event =
    | StartAsk(id: AskId, input: AskInput, nonce: string, project: nat, session: nat, actor: string,
               runId: Option<nat>)
    | StepAsker(id: AskId, who: string, now: int, timeout: int)
    | Receive(id: AskId)
    | TimeOut(id: AskId, now: int)
    | Cancel(id: AskId, now: int)
    | StartAnswer(t: nat, project: nat, id: AskId, viewer: Viewer, verdict: Verdict, answer: string,
                  note: string)
    | StepAnswerer(t: nat, pick: AskId, now: int)
    | StartExpiry(t: nat, project: nat, runId: Option<nat>)
    | StepExpirer(t: nat, pick: AskId, now: int)
    | SweepStale(projects: set<nat>, now: int)

  function Initial(): State {
    State(Hub(map[], {}, map[]), map[], map[], map[], map[], {})
  }

  function NewAsk(shape: Shape, id: AskId, project: nat, session: nat, actor: string, runId: Option<nat>): Ask {
    Ask(Facts(id, project, session, actor, shape.kind, shape.options, runId, shape.tool, shape.inputTruncated,
              shape.runKey),
        Pending, "", "", "", 0, 0, 0)
  }

  /** A send to a channel of capacity one that does not block. */
  function Sent(chans: Chans, value: Ask): Chans {
    if value.facts.id in chans && chans[value.facts.id].Some? then chans else chans[value.facts.id := Some(value)]
  }

  predicate AsksForRun(ask: Ask) {
    ask.facts.kind == Permission && ask.facts.runId.Some?
  }

  /** One step of the call that asks k.ask. who is the answer of a lookup, when the step is one. */
  function AskerEffect(h: Hub, k: Asker, who: string, now: int, timeout: int): (Hub, Asker) {
    var id := k.ask.facts.id;
    var found := AsksForRun(k.ask) && who != "";
    match k.phase
    case Checking => (h, k.(phase := if found then Allowing(who) else Registering))
    case Allowing(granter) =>
      var a := AllowedForRun(k.ask, granter, now);
      (h.(asks := h.asks[id := a]), k.(phase := Done(Some(a))))
    case Registering =>
      var ask := k.ask.(createdAt := now, expiresAt := now + AskTimeout(k.ask.facts.kind, timeout));
      (h.(registered := h.registered + {id}, chans := h.chans[id := None]), k.(ask := ask, phase := Inserting))
    case Inserting =>
      if HasRoom(h.asks, k.ask) then (h.(asks := h.asks[id := k.ask]), k.(phase := Rechecking))
      else (h, k.(phase := Leaving(None)))
    case Rechecking => (h, k.(phase := if found then Releasing(who) else Waiting))
    case Releasing(granter) =>
      var (asks, result) :=
        Decide(h.asks, k.ask.facts.project, id, Approved, APPROVE_RUN, ALLOWED_FOR_RUN_NOTE, granter, false, now);
      (h.(asks := asks), k.(phase := if result.Decided? then Handing(result.ask) else Waiting))
    case Handing(updated) => (h, k.(phase := if id in h.registered then Sending(updated) else Waiting))
    case Sending(updated) => (h.(chans := Sent(h.chans, updated)), k.(phase := Waiting))
    case Waiting => (h, k)
    case Leaving(result) => (h.(registered := h.registered - {id}), k.(phase := Done(result)))
    case Done(_) => (h, k)
  }

  function AfterJob(job: Job): Answerer {
    match job.rest
    case AfterOwn =>
      if job.updated.answer == APPROVE_RUN && job.updated.facts.runId.Some? then Listing(job.updated, job.who)
      else Finished
    case AfterEach(todo) => Freeing(job.updated.facts.project, job.who, todo)
  }

  function AnswererEffect(h: Hub, a: Answerer, pick: AskId, now: int): (Hub, Answerer) {
    match a
    case Deciding(project, id, viewer, status, answer, note, late) =>
      var (asks, result) := Decide(h.asks, project, id, status, answer, note, ViewerId(viewer), late, now);
      (h.(asks := asks),
       if result.Decided? then Passing(Job(result.ask, result.wasExpired, ViewerId(viewer), AfterOwn)) else Finished)
    case Passing(job) =>
      // With no waiter a late answer goes out as mail instead.
      (h, if job.updated.facts.id in h.registered then Posting(job) else AfterJob(job))
    case Posting(job) => (h.(chans := Sent(h.chans, job.updated)), AfterJob(job))
    case Listing(allow, who) =>
      (h, Freeing(allow.facts.project, who,
                  if allow.facts.runId.None? then {}
                  else ReleaseList(h.asks, allow.facts.project, allow.facts.runId.value, allow.facts.tool,
                                   allow.facts.runKey)))
    case Freeing(project, who, todo) =>
      if todo == {} then (h, Finished)
      else if pick !in todo then (h, a)
      else
        var (asks, result) :=
          Decide(h.asks, project, pick, Approved, APPROVE_RUN, ALLOWED_FOR_RUN_NOTE, who, false, now);
        (h.(asks := asks),
         if result.Decided? then Passing(Job(result.ask, result.wasExpired, who, AfterEach(todo - {pick})))
         else Freeing(project, who, todo - {pick}))
    case Finished => (h, a)
  }

  function ExpirerEffect(h: Hub, x: Expirer, pick: AskId, now: int): (Hub, Expirer) {
    match x
    case Ending(project, runId) =>
      (h, if runId.None? then Ended else Expiring(project, RunPending(h.asks, project, runId.value)))
    case Expiring(project, todo) =>
      if todo == {} then (h, Ended)
      else if pick !in todo then (h, x)
      else
        var (asks, result) := ExpireOne(h.asks, project, pick, now);
        (h.(asks := asks),
         if result.Some? && result.value.status == Expired then Looking(project, result.value, todo - {pick})
         else Expiring(project, todo - {pick}))
    case Looking(project, expired, todo) =>
      (h, if expired.facts.id in h.registered then Signalling(project, expired, todo) else Expiring(project, todo))
    case Signalling(project, expired, todo) => (h.(chans := Sent(h.chans, expired)), Expiring(project, todo))
    case Ended => (h, x)
  }

  /** A waiting asker hears from its channel, runs out of time, or is cancelled. */
  function WaiterEffect(h: Hub, k: Asker, e: Event): (Hub, Asker) {
    var id := k.ask.facts.id;
    if k.phase != Waiting then (h, k)
    else if e.Receive? then
      if id in h.chans && h.chans[id].Some?
      then (h.(chans := h.chans[id := None]), k.(phase := Leaving(h.chans[id])))
      else (h, k)
    else if e.TimeOut? then
      var (asks, result) := ExpireOne(h.asks, k.ask.facts.project, id, e.now);
      (h.(asks := asks), k.(phase := Leaving(result)))
    else if e.Cancel? then
      (h.(asks := ExpireOne(h.asks, k.ask.facts.project, id, e.now).0), k.(phase := Leaving(None)))
    else (h, k)
  }

  /** What a person's call to answer finds when it looks the ask up: a decision to make, or nothing. */
  function LookedUp(h: Hub, e: Event): Option<Answerer>
    requires e.StartAnswer?
  {
    if e.viewer.agent || e.id !in h.asks || h.asks[e.id].facts.project != e.project
       || !MayAnswer(e.viewer, h.asks[e.id]) || !Decidable(h.asks[e.id], h.asks[e.id].facts.kind != Permission)
    then None
    else
      var late := h.asks[e.id].facts.kind != Permission;
      match Resolve(h.asks[e.id], e.verdict, e.answer)
      case Unfit => None
      case Resolved(status, answer) => Some(Deciding(e.project, e.id, e.viewer, status, answer, e.note, late))
  }

  /** The prompts persons allowed for their run, after an answerer's step. */
  function PersonAllows(byPerson: set<AskId>, a: Answerer, b: Answerer): set<AskId> {
    if a.Deciding? && b.Passing? && IsRunAllow(b.job.updated) then byPerson + {a.id} else byPerson
  }

  /** What one event does; an event that cannot happen now does nothing. */
  function Effect(env: Env, s: State, e: Event): State {
    match e
    case StartAsk(id, input, nonce, project, session, actor, runId) =>
      var r := ShapeAsk(env, input, nonce);
      if id in s.askers || r.Refused? then s
      else
        var ask := NewAsk(r.shape, id, project, session, actor, runId);
        s.(askers := s.askers[id := Asker(ask, r.shape.lookupKey, Checking)])
    case StepAsker(id, who, now, timeout) =>
      if id !in s.askers then s
      else
        var (h, k) := AskerEffect(s.hub, s.askers[id], who, now, timeout);
        s.(hub := h, askers := s.askers[id := k])
    case StartAnswer(t, _, _, _, _, _, _) =>
      if t in s.answerers || LookedUp(s.hub, e).None? then s
      else s.(answerers := s.answerers[t := LookedUp(s.hub, e).value])
    case StepAnswerer(t, pick, now) =>
      if t !in s.answerers then s
      else
        var (h, a) := AnswererEffect(s.hub, s.answerers[t], pick, now);
        s.(hub := h, answerers := s.answerers[t := a], byPerson := PersonAllows(s.byPerson, s.answerers[t], a))
    case StartExpiry(t, project, runId) =>
      if t in s.expirers then s else s.(expirers := s.expirers[t := Ending(project, runId)])
    case StepExpirer(t, pick, now) =>
      if t !in s.expirers then s
      else
        var (h, x) := ExpirerEffect(s.hub, s.expirers[t], pick, now);
        s.(hub := h, expirers := s.expirers[t := x])
    case SweepStale(projects, now) => s.(hub := s.hub.(asks := ExpireStale(s.hub.asks, projects, now)))
    case _ =>
      if e.id !in s.askers then s
      else
        var (h, k) := WaiterEffect(s.hub, s.askers[e.id], e);
        s.(hub := h, askers := s.askers[e.id := k])
  }

  /** The first settled form of each ask, kept when it settles. */
  function Noted(first: map<AskId, Ask>, asks: Asks): map<AskId, Ask> {
    map id | id in asks && (id in first || Settled(asks[id])) :: if id in first then first[id] else asks[id]
  }

  function After(env: Env, s: State, e: Event): State {
    var t := Effect(env, s, e);
    t.(first := Noted(s.first, t.hub.asks))
  }

  /** A lookup answers as the stored asks allow. */
  ghost predicate Honest(s: State, e: Event) {
    e.StepAsker? && e.id in s.askers ==>
      var k := s.askers[e.id];
      (k.phase == Checking || k.phase == Rechecking) && AsksForRun(k.ask) ==>
        AllowedBy(s.hub.asks, k.ask.facts.project, k.ask.facts.runId.value, k.ask.facts.tool, k.lookupKey, e.who)
  }

  ghost predicate Step(env: Env, s: State, e: Event, s': State) {
    Honest(s, e) && s' == After(env, s, e)
  }

  /** A run of the hub: states joined by events. */
  ghost predicate Run(env: Env, states: seq<State>, events: seq<Event>) {
    && |states| == |events| + 1
    && states[0] == Initial()
    && forall i :: 0 <= i < |events| ==> Step(env, states[i], events[i], states[i + 1])
  }
}
