/** The hub's locked sections over its in-memory asks and waiters, each proved to be the step the
    protocol takes. */
module AskHub {
  import opened Prelude
  import opened AskShape
  import opened AskStore
  import opened AskProtocol

  class Hub {
    var memAsks: Asks
    var askWaiters: set<AskId>
    var channels: Chans

    ghost function State(): AskProtocol.Hub
      reads this
    {
      AskProtocol.Hub(memAsks, askWaiters, channels)
    }

    constructor ()
      ensures State() == Initial().hub
    {
      memAsks, askWaiters, channels := map[], {}, map[];
    }

    /** Who allowed tool (with key) for the rest of the run, or "" when nobody did. */
    method RunAllowedBy(project: nat, runId: nat, tool: string, key: string) returns (who: string)
      ensures AllowedBy(memAsks, project, runId, tool, key, who)
    {
      if IsOnce(key) {
        return "";
      }
      var left := memAsks.Keys;
      while left != {}
        invariant left <= memAsks.Keys
        invariant forall id :: id in memAsks && id !in left ==> !Allows(memAsks[id], project, runId, tool, key)
        decreases |left|
      {
        var id :| id in left;
        left := left - {id};
        var a := memAsks[id];
        if a.facts.project == project && a.facts.runId == Some(runId) && a.facts.tool == tool && a.facts.runKey == key
           && a.facts.kind == Permission && a.status == Approved && a.answer == APPROVE_RUN {
          assert Allows(memAsks[id], project, runId, tool, key);
          return a.decidedBy;
        }
      }
      return "";
    }

    /** Records ask as allowed without asking. */
    method AllowForRun(ask: Ask, who: string, now: int) returns (allowed: Ask)
      modifies this
      ensures allowed == AllowedForRun(ask, who, now)
      ensures State() == old(State()).(asks := old(memAsks)[ask.facts.id := allowed])
    {
      allowed := ask.(status := Approved, answer := APPROVE_RUN, note := ALLOWED_FOR_RUN_NOTE, decidedBy := who,
                      createdAt := now, expiresAt := 0, decidedAt := now);
      memAsks := memAsks[ask.facts.id := allowed];
    }

    /** The asks whose time is up stop waiting: those of these projects, or of any when there are no names. */
    method ExpireStaleAsks(projects: set<nat>, now: int) returns (changed: set<nat>)
      modifies this
      ensures State() == old(State()).(asks := ExpireStale(old(memAsks), projects, now))
      ensures changed == set id | id in old(memAsks) && Stale(old(memAsks)[id], projects, now)
                             :: old(memAsks)[id].facts.project
    {
      ghost var asks := memAsks;
      var left := memAsks.Keys;
      changed := {};
      while left != {}
        invariant left <= asks.Keys == memAsks.Keys
        invariant askWaiters == old(askWaiters) && channels == old(channels)
        invariant forall id :: id in asks
                    ==> memAsks[id] == if id in left then asks[id] else ExpireStale(asks, projects, now)[id]
        invariant changed == set id | id in asks && id !in left && Stale(asks[id], projects, now)
                                 :: asks[id].facts.project
        decreases |left|
      {
        var id :| id in left;
        var a := memAsks[id];
        if a.status == Pending && (projects == {} || a.facts.project in projects) && Overdue(a, now) {
          memAsks := memAsks[id := a.(status := Expired, decidedAt := now)];
          changed := changed + {a.facts.project};
        }
        left := left - {id};
      }
    }

    /** How many pending asks count against ask's session, and against its account. */
    method CountPending(ask: Ask) returns (count: nat, actorCount: nat)
      ensures count == |SessionLoad(memAsks, ask.facts.project, ask.facts.session, ask.facts.kind == Permission)|
      ensures actorCount == |ActorLoad(memAsks, ask.facts.project, ask.facts.actor)|
    {
      hide SameFold;
      var permission := ask.facts.kind == Permission;
      ghost var session := SessionLoad(memAsks, ask.facts.project, ask.facts.session, permission);
      ghost var actor := ActorLoad(memAsks, ask.facts.project, ask.facts.actor);
      count, actorCount := 0, 0;
      var left := memAsks.Keys;
      assert session - left == {} && actor - left == {};
      while left != {}
        invariant left <= memAsks.Keys
        invariant count == |session - left| && actorCount == |actor - left|
        decreases |left|
      {
        var id :| id in left;
        VisitOne(session, left, id);
        VisitOne(actor, left, id);
        left := left - {id};
        var existing := memAsks[id];
        if existing.facts.project == ask.facts.project && existing.status == Pending {
          if SameFold(existing.facts.actor, ask.facts.actor) {
            actorCount := actorCount + 1;
          }
          if existing.facts.session == ask.facts.session && (existing.facts.kind == Permission) == permission {
            count := count + 1;
          }
        }
      }
      assert session - left == session && actor - left == actor;
    }

    /** Stores a new pending ask, when its session and its account have room for it. */
    method InsertPendingAsk(ask: Ask, now: int) returns (stored: bool)
      modifies this
      ensures var swept := ExpireStale(old(memAsks), {ask.facts.project}, now);
              && stored == HasRoom(swept, ask)
              && State() == old(State()).(asks := if stored then swept[ask.facts.id := ask] else swept)
    {
      hide ExpireStale, SessionLoad, ActorLoad;
      var _ := ExpireStaleAsks({ask.facts.project}, now);
      var limit := if ask.facts.kind == Permission then MAX_PENDING_PERMISSIONS else 1;
      var count, actorCount := CountPending(ask);
      stored := count < limit && actorCount < MAX_PENDING_PER_ACTOR;
      if stored {
        memAsks := memAsks[ask.facts.id := ask];
      }
    }

    /** A decision: the first on an ask still waiting, or a late one on an expired ask where that is allowed. */
    method DecideAsk(project: nat, id: AskId, status: Status, answer: string, note: string, who: string,
                     lateAllowed: bool, now: int) returns (result: DecideResult)
      modifies this
      ensures var (asks, r) := Decide(old(memAsks), project, id, status, answer, note, who, lateAllowed, now);
              State() == old(State()).(asks := asks) && result == r
    {
      if id !in memAsks || memAsks[id].facts.project != project {
        return NotFound;
      }
      var a := memAsks[id];
      if a.status != Pending && (a.status != Expired || !lateAllowed) {
        return AsItWas(a);
      }
      var wasExpired := a.status == Expired;
      a := a.(status := status, answer := answer, note := note, decidedBy := who, decidedAt := now);
      memAsks := memAsks[id := a];
      return Decided(a, wasExpired);
    }

    method ExpireAsk(project: nat, id: AskId, now: int) returns (result: Option<Ask>)
      modifies this
      ensures State() == old(State()).(asks := ExpireOne(old(memAsks), project, id, now).0)
      ensures result == ExpireOne(old(memAsks), project, id, now).1
    {
      if id !in memAsks || memAsks[id].facts.project != project {
        return None;
      }
      if memAsks[id].status == Pending {
        memAsks := memAsks[id := memAsks[id].(status := Expired, decidedAt := now)];
      }
      return Some(memAsks[id]);
    }

    /** The waiting prompts an allow of tool and runKey for the run covers. */
    method CoveredPrompts(project: nat, runId: nat, tool: string, runKey: string) returns (ids: set<AskId>)
      ensures ids == ReleaseList(memAsks, project, runId, tool, runKey)
    {
      hide ReleaseList, IsOnce, IsShell;
      ids := {};
      ListedAreStored(memAsks, project, runId, tool, runKey);
      if IsOnce(runKey) {
        return;
      }
      var toolWide := runKey == "" && !IsShell(tool);
      var left := memAsks.Keys;
      while left != {}
        invariant left <= memAsks.Keys
        invariant ids == ReleaseList(memAsks, project, runId, tool, runKey) - left
        decreases |left|
      {
        var id :| id in left;
        left := left - {id};
        var a := memAsks[id];
        var covered := a.facts.runKey == runKey || (toolWide && IsOnce(a.facts.runKey));
        ListedWhenCovered(memAsks, project, runId, tool, runKey, id);
        if a.facts.project == project && a.facts.runId == Some(runId) && a.facts.tool == tool && covered
           && a.facts.kind == Permission && a.status == Pending {
          ids := ids + {id};
        }
      }
    }

    method PendingOfRun(project: nat, runId: nat) returns (ids: set<AskId>)
      ensures ids == RunPending(memAsks, project, runId)
    {
      ids := {};
      var left := memAsks.Keys;
      while left != {}
        invariant left <= memAsks.Keys
        invariant ids == RunPending(memAsks, project, runId) - left
        decreases |left|
      {
        var id :| id in left;
        left := left - {id};
        var a := memAsks[id];
        if a.facts.project == project && a.facts.runId == Some(runId) && a.status == Pending {
          ids := ids + {id};
        }
      }
    }

    method Register(id: AskId)
      modifies this
      ensures State() == old(State()).(registered := old(askWaiters) + {id}, chans := old(channels)[id := None])
    {
      askWaiters := askWaiters + {id};
      channels := channels[id := None];
    }

    method Unregister(id: AskId)
      modifies this
      ensures State() == old(State()).(registered := old(askWaiters) - {id})
    {
      askWaiters := askWaiters - {id};
    }

    /** Sends without blocking: a channel that holds a value keeps it. */
    method Send(value: Ask)
      modifies this
      ensures State() == old(State()).(chans := Sent(old(channels), value))
    {
      var id := value.facts.id;
      if id !in channels || channels[id].None? {
        channels := channels[id := Some(value)];
      }
    }

    /** With nobody else at work, an allow for the run releases every prompt it covers and no other, and each
        one's asker that is still registered, and has nothing in its channel, is sent its prompt as decided. */
    method ReleaseRunPrompts(project: nat, runId: nat, tool: string, runKey: string, who: string, now: int)
      modifies this
      ensures ReleaseList(memAsks, project, runId, tool, runKey) == {}
      ensures memAsks.Keys == old(memAsks).Keys && askWaiters == old(askWaiters)
      ensures forall id :: id in memAsks ==>
                memAsks[id] == if id in ReleaseList(old(memAsks), project, runId, tool, runKey)
                               then Released(old(memAsks)[id], who, now) else old(memAsks)[id]
      ensures old(Keyed(memAsks)) ==>
                Delivered(old(channels), channels, old(memAsks), who, now,
                          ReleaseList(old(memAsks), project, runId, tool, runKey) * askWaiters)
    {
      hide ReleaseList, Decide, Delivered, Released, SomeReleased, Keyed, Sent;
      ghost var asks, chans := memAsks, channels;
      var left := CoveredPrompts(project, runId, tool, runKey);
      ghost var ids, done: set<AskId>, heard: set<AskId> := left, {}, {};
      ListedAreWaiting(memAsks, project, runId, tool, runKey);
      NothingReleased(asks, chans, who, now);
      while left != {}
        invariant left <= ids && done == ids - left && heard == done * askWaiters
        invariant SomeReleased(asks, memAsks, done, who, now) && askWaiters == old(askWaiters)
        invariant Keyed(asks) ==> Delivered(chans, channels, asks, who, now, heard)
        decreases left
      {
        var id :| id in left;
        ReleaseOne(asks, memAsks, done, project, id, who, now);
        var result := DecideAsk(project, id, Approved, APPROVE_RUN, ALLOWED_FOR_RUN_NOTE, who, false, now);
        HeardNext(done, askWaiters, id);
        if result.Decided? && id in askWaiters {
          if Keyed(asks) { DeliveredNext(chans, channels, asks, who, now, heard, id); }
          Send(result.ask);
          heard := heard + {id};
        }
        left, done := left - {id}, done + {id};
      }
      assert done == ids;
      NoneListed(asks, memAsks, project, runId, tool, runKey, who, now);
    }
  }

  /** A prompt allowed for its run by another's allow. */
  function Released(a: Ask, who: string, now: int): Ask {
    a.(status := Approved, answer := APPROVE_RUN, note := ALLOWED_FOR_RUN_NOTE, decidedBy := who, decidedAt := now)
  }

  /** Every ask is stored under its own id. */
  predicate Keyed(asks: Asks) {
    forall id :: id in asks ==> asks[id].facts.id == id
  }

  /** The channels of to hold the prompt as it was released, unless they held something already; every other
      channel is as it was. */
  predicate Delivered(chans: Chans, chans': Chans, asks: Asks, who: string, now: int, to: set<AskId>) {
    && to <= asks.Keys && chans'.Keys == chans.Keys + to
    && forall id :: id in chans' ==>
         chans'[id] == if id in to && (id !in chans || chans[id].None?)
                       then Some(Released(asks[id], who, now)) else chans[id]
  }

  lemma DeliveredNext(chans: Chans, before: Chans, asks: Asks, who: string, now: int, to: set<AskId>, id: AskId)
    requires Delivered(chans, before, asks, who, now, to) && id in asks && id !in to && Keyed(asks)
    ensures Delivered(chans, Sent(before, Released(asks[id], who, now)), asks, who, now, to + {id})
  {
  }

  lemma HeardNext(done: set<AskId>, waiters: set<AskId>, id: AskId)
    ensures (done + {id}) * waiters == if id in waiters then done * waiters + {id} else done * waiters
  {
  }

  lemma ListedAreWaiting(asks: Asks, project: nat, runId: nat, tool: string, runKey: string)
    ensures forall id :: id in ReleaseList(asks, project, runId, tool, runKey)
              ==> id in asks && asks[id].facts.project == project && asks[id].status == Pending
  {
  }

  /** Of the stored asks, those of done are released and the others as they were. */
  predicate SomeReleased(asks: Asks, asks': Asks, done: set<AskId>, who: string, now: int) {
    && asks'.Keys == asks.Keys
    && forall id :: id in asks' ==> asks'[id] == if id in done then Released(asks[id], who, now) else asks[id]
  }

  lemma NothingReleased(asks: Asks, chans: Chans, who: string, now: int)
    ensures SomeReleased(asks, asks, {}, who, now) && Delivered(chans, chans, asks, who, now, {})
  {
  }

  lemma ReleaseOne(asks: Asks, asks': Asks, done: set<AskId>, project: nat, id: AskId, who: string, now: int)
    requires SomeReleased(asks, asks', done, who, now) && id in asks && id !in done
    requires asks[id].facts.project == project && asks[id].status == Pending
    ensures var (next, result) :=
              Decide(asks', project, id, Approved, APPROVE_RUN, ALLOWED_FOR_RUN_NOTE, who, false, now);
            && result == Decided(Released(asks[id], who, now), false)
            && SomeReleased(asks, next, done + {id}, who, now)
  {
  }

  lemma NoneListed(asks: Asks, asks': Asks, project: nat, runId: nat, tool: string, runKey: string, who: string,
                   now: int)
    requires SomeReleased(asks, asks', ReleaseList(asks, project, runId, tool, runKey), who, now)
    ensures asks'.Keys == asks.Keys && ReleaseList(asks', project, runId, tool, runKey) == {}
    ensures forall id :: id in asks' ==>
              asks'[id] == if id in ReleaseList(asks, project, runId, tool, runKey)
                           then Released(asks[id], who, now) else asks[id]
  {
    hide IsOnce, IsShell;
  }

  lemma ListedAreStored(asks: Asks, project: nat, runId: nat, tool: string, runKey: string)
    ensures ReleaseList(asks, project, runId, tool, runKey) <= asks.Keys
    ensures IsOnce(runKey) ==> ReleaseList(asks, project, runId, tool, runKey) == {}
  {
  }

  lemma ListedWhenCovered(asks: Asks, project: nat, runId: nat, tool: string, runKey: string, id: AskId)
    requires id in asks && !IsOnce(runKey)
    ensures var f := asks[id].facts;
            id in ReleaseList(asks, project, runId, tool, runKey)
            <==> f.project == project && f.runId == Some(runId) && f.tool == tool
                 && f.kind == Permission && asks[id].status == Pending
                 && (f.runKey == runKey || (runKey == "" && !IsShell(tool) && IsOnce(f.runKey)))
  {
    hide IsShell, IsOnce;
  }
}
