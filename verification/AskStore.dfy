/** The stored asks, and what each critical section of the hub does to them. */
module AskStore {
  import opened Prelude
  import opened AskShape

  datatype Status = Pending | Approved | Denied | Answered | Expired

  /** Ids, projects, sessions and runs are only ever compared, so numbers stand for them. */
  type AskId = nat

  /** The parts of an ask nothing ever changes; runId is None when it belongs to no run. */
  datatype Facts = Facts(id: AskId, project: nat, session: nat, actor: string, kind: Kind,
                         options: seq<string>, runId: Option<nat>, tool: string, truncated: bool, runKey: string)

  datatype Ask = Ask(facts: Facts, status: Status, answer: string, note: string, decidedBy: string,
                     createdAt: int, expiresAt: int, decidedAt: int)

  type Asks = map<AskId, Ask>

  const APPROVE_RUN := "approve_run"
  const ALLOWED_FOR_RUN_NOTE := "allowed for this run"
  const LOCAL := "local"
  const MAX_PENDING_PERMISSIONS := 8
  const MAX_PENDING_PER_ACTOR := 160
  const MAX_ANSWER_RUNES := 4000
  const MAX_ASK_TIMEOUT := 600_000
  const PERMISSION_ASK_TIMEOUT := 300_000

  predicate Settled(a: Ask) {
    a.status != Pending
  }

  /** How long an ask of a kind waits. */
  function AskTimeout(kind: Kind, timeout: int): (t: int)
    ensures 0 < t <= MAX_ASK_TIMEOUT && (kind == Permission ==> t <= PERMISSION_ASK_TIMEOUT)
    ensures timeout > 0 ==> t <= timeout
    ensures 0 < timeout <= PERMISSION_ASK_TIMEOUT || (kind != Permission && 0 < timeout <= MAX_ASK_TIMEOUT)
            ==> t == timeout
  {
    var limit := if kind == Permission then PERMISSION_ASK_TIMEOUT else MAX_ASK_TIMEOUT;
    if timeout <= 0 || timeout > limit then limit else timeout
  }

  /** A stored "allow for this run" of a permission prompt. */
  predicate IsRunAllow(a: Ask) {
    a.facts.kind == Permission && a.status == Approved && a.answer == APPROVE_RUN
  }

  /** a is an earlier allow the lookup finds for a prompt of run, tool and key. */
  predicate Allows(a: Ask, project: nat, runId: nat, tool: string, key: string) {
    && a.facts.project == project && a.facts.runId == Some(runId)
    && LookupCovers(a.facts.tool, a.facts.runKey, tool, key) && IsRunAllow(a)
  }

  /** What the lookup may answer: who gave one of the allows that match, or nobody. */
  predicate AllowedBy(asks: Asks, project: nat, runId: nat, tool: string, key: string, who: string) {
    if exists id :: id in asks && Allows(asks[id], project, runId, tool, key)
    then exists id :: id in asks && Allows(asks[id], project, runId, tool, key) && asks[id].decidedBy == who
    else who == ""
  }

  /** A prompt allowed without asking, as it is recorded. */
  function AllowedForRun(ask: Ask, who: string, now: int): Ask {
    ask.(status := Approved, answer := APPROVE_RUN, note := ALLOWED_FOR_RUN_NOTE, decidedBy := who,
         createdAt := now, expiresAt := 0, decidedAt := now)
  }

  /** The prompts of run waiting that an allow of tool and runKey releases. */
  function ReleaseList(asks: Asks, project: nat, runId: nat, tool: string, runKey: string): set<nat> {
    set id | id in asks && asks[id].facts.project == project && asks[id].facts.runId == Some(runId)
             && asks[id].facts.kind == Permission && asks[id].status == Pending
             && ReleaseCovers(tool, runKey, asks[id].facts.tool, asks[id].facts.runKey)
  }

  /** The asks of a run still waiting. */
  function RunPending(asks: Asks, project: nat, runId: nat): set<nat> {
    set id | id in asks && asks[id].facts.project == project && asks[id].facts.runId == Some(runId)
             && asks[id].status == Pending
  }

  datatype DecideResult = NotFound | AsItWas(ask: Ask) | Decided(ask: Ask, wasExpired: bool)

  predicate Decidable(a: Ask, lateAllowed: bool) {
    a.status == Pending || (a.status == Expired && lateAllowed)
  }

  function Decide(asks: Asks, project: nat, id: AskId, status: Status, answer: string, note: string,
                  who: string, lateAllowed: bool, now: int): (Asks, DecideResult)
  {
    if id !in asks || asks[id].facts.project != project then (asks, NotFound)
    else if !Decidable(asks[id], lateAllowed) then (asks, AsItWas(asks[id]))
    else
      var a := asks[id].(status := status, answer := answer, note := note, decidedBy := who, decidedAt := now);
      (asks[id := a], Decided(a, asks[id].status == Expired))
  }

  function ExpireOne(asks: Asks, project: nat, id: AskId, now: int): (Asks, Option<Ask>) {
    if id !in asks || asks[id].facts.project != project then (asks, None)
    else if asks[id].status == Pending then
      var a := asks[id].(status := Expired, decidedAt := now);
      (asks[id := a], Some(a))
    else (asks, Some(asks[id]))
  }

  predicate Overdue(a: Ask, now: int) {
    (a.expiresAt > 0 && a.expiresAt <= now) || (a.expiresAt == 0 && a.createdAt <= now - MAX_ASK_TIMEOUT)
  }

  predicate Stale(a: Ask, projects: set<nat>, now: int) {
    a.status == Pending && (projects == {} || a.facts.project in projects) && Overdue(a, now)
  }

  /** No ask of these projects waits past its time; an empty set stands for all projects. */
  function ExpireStale(asks: Asks, projects: set<nat>, now: int): Asks {
    map id | id in asks ::
      if Stale(asks[id], projects, now) then asks[id].(status := Expired, decidedAt := now) else asks[id]
  }

  /** The pending asks that count against a session's slots, and against its account's. */
  function SessionLoad(asks: Asks, project: nat, session: nat, permission: bool): set<nat> {
    set id | id in asks && asks[id].facts.project == project && asks[id].status == Pending
             && asks[id].facts.session == session && (asks[id].facts.kind == Permission) == permission
  }

  function ActorLoad(asks: Asks, project: nat, actor: string): set<nat> {
    set id | id in asks && asks[id].facts.project == project && asks[id].status == Pending
             && SameFold(asks[id].facts.actor, actor)
  }

  function SessionLimit(permission: bool): nat {
    if permission then MAX_PENDING_PERMISSIONS else 1
  }

  predicate HasRoom(asks: Asks, ask: Ask) {
    var permission := ask.facts.kind == Permission;
    && |SessionLoad(asks, ask.facts.project, ask.facts.session, permission)| < SessionLimit(permission)
    && |ActorLoad(asks, ask.facts.project, ask.facts.actor)| < MAX_PENDING_PER_ACTOR
  }

  /** A person, or an agent, looking at an ask. */
  datatype Viewer = Viewer(id: string, admin: bool, agent: bool)

  function ViewerId(v: Viewer): string {
    if Trim(v.id) == "" then LOCAL else Trim(v.id)
  }

  predicate MayAnswer(v: Viewer, a: Ask) {
    || SameFold(a.facts.actor, ViewerId(v))
    || (if a.facts.kind == Permission then ViewerId(v) == LOCAL else v.admin)
  }

  datatype Verdict = Approve | ApproveRun | Deny | Answer

  datatype Resolution = Unfit | Resolved(status: Status, answer: string)

  /** The status and answer a person's decision gives an ask, when it fits the ask's kind. */
  function Resolve(ask: Ask, verdict: Verdict, rawAnswer: string): (r: Resolution)
    ensures r.Resolved? ==> r.status in {Approved, Denied, Answered}
    ensures r.Resolved? ==> (r.status == Approved && r.answer == APPROVE_RUN
                             <==> ask.facts.kind == Permission && verdict == ApproveRun)
    ensures r.Resolved? && ask.facts.kind == Permission && r.answer == APPROVE_RUN ==> r.status == Approved
    ensures r.Resolved? ==> (r.status == Denied <==> verdict == Deny) && (r.status == Answered <==> verdict == Answer)
    ensures r.Resolved? && r.status == Answered ==>
              && ask.facts.kind in {Question, Choice} && r.answer == Trim(rawAnswer)
              && 0 < |r.answer| <= MAX_ANSWER_RUNES && (ask.facts.kind == Choice ==> r.answer in ask.facts.options)
    ensures verdict == Deny ==> r.Resolved?
  {
    var answer := Trim(rawAnswer);
    match ask.facts.kind
    case Permission =>
      (match verdict
       case Approve => Resolved(Approved, "")
       case ApproveRun => Resolved(Approved, APPROVE_RUN)
       case Deny => Resolved(Denied, "")
       case Answer => Unfit)
    case Approval =>
      (match verdict
       case Approve => Resolved(Approved, "")
       case Deny => Resolved(Denied, "")
       case _ => Unfit)
    case _ =>
      (match verdict
       case Deny => Resolved(Denied, "")
       case Answer =>
         if answer == "" || |answer| > MAX_ANSWER_RUNES || (ask.facts.kind == Choice && answer !in ask.facts.options)
         then Unfit else Resolved(Answered, answer)
       case _ => Unfit)
  }

  /** What may happen to the stored asks in one critical section: asks appear, a pending one settles,
      an expired one other than a permission prompt is decided late; nothing else, ever. */
  ghost predicate AsksMove(asks: Asks, asks': Asks) {
    forall id :: id in asks ==>
      && id in asks'
      && asks'[id].facts == asks[id].facts
      && (asks'[id] == asks[id]
          || (asks[id].status == Pending && Settled(asks'[id]))
          || (asks[id].status == Expired && asks[id].facts.kind != Permission
              && asks'[id].status in {Approved, Denied, Answered}))
  }

  lemma StandStillMoves(asks: Asks)
    ensures AsksMove(asks, asks)
  {
  }

  lemma DecideMoves(asks: Asks, project: nat, id: AskId, status: Status, answer: string, note: string,
                    who: string, lateAllowed: bool, now: int)
    requires status in {Approved, Denied, Answered}
    requires id in asks && asks[id].facts.kind == Permission ==> !lateAllowed
    ensures AsksMove(asks, Decide(asks, project, id, status, answer, note, who, lateAllowed, now).0)
  {
  }

  lemma ExpireOneMoves(asks: Asks, project: nat, id: AskId, now: int)
    ensures AsksMove(asks, ExpireOne(asks, project, id, now).0)
  {
  }

  lemma ExpireStaleMoves(asks: Asks, projects: set<nat>, now: int)
    ensures AsksMove(asks, ExpireStale(asks, projects, now))
  {
  }
}
