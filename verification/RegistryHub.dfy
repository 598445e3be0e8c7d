/** The hub's session map, changed in place by heartbeats, departures and pruning. */
module RegistryHub {
  import opened Prelude
  import opened Registry

  class RegistryHub {
    var sessions: Sessions

    constructor ()
      ensures sessions == map[]
    {
      sessions := map[];
    }

    method PruneExpired(now: int)
      modifies `sessions
      ensures sessions == Pruned(old(sessions), now)
    {
      var left := sessions.Keys;
      while left != {}
        invariant left <= old(sessions).Keys
        invariant sessions.Keys == Pruned(old(sessions), now).Keys + left
        invariant forall k :: k in left ==> sessions[k] == old(sessions)[k]
        invariant forall k :: k in sessions && k !in left ==> sessions[k] == Pruned(old(sessions), now)[k]
      {
        var k :| k in left;
        var s := sessions[k];
        if s.lastSeen + SESSION_TTL < now - OFFLINE_RETENTION {
          sessions := sessions - {k};
        } else {
          sessions := sessions[k := s.(online := s.lastSeen >= now - SESSION_TTL)];
        }
        left := left - {k};
      }
    }

    /** One pass over the sessions, and then one name after another until one is free. */
    method PickName(key: Key, account: Account, base: string, mailedOther: bool, fallback: string)
        returns (name: string)
      ensures name == UniqueName(Held(sessions, key, account, base, mailedOther), base, fallback)
    {
      hide Lower, Candidate;
      var held := {};
      var known := false;
      var left := sessions.Keys;
      while left != {}
        invariant left <= sessions.Keys
        invariant held == (set k | k in sessions && k !in left && Holds(sessions, key, account, k)
                               :: Lower(sessions[k].name))
        invariant known
                  == exists k :: && k in sessions && k !in left
                                 && Other(sessions, key, k) && SameFold(sessions[k].name, base)
      {
        var k :| k in left;
        if k.project == key.project && k != key {
          if SameFold(sessions[k].name, base) {
            known := true;
          }
          if sessions[k].online || sessions[k].account != account {
            held := held + {Lower(sessions[k].name)};
          }
        }
        left := left - {k};
      }
      if !known && mailedOther {
        held := held + {Lower(base)};
      }
      held := held + {WEB};
      assert held == Held(sessions, key, account, base, mailedOther);
      if Lower(base) !in held {
        return base;
      }
      var i := 2;
      while i < LAST_SUFFIX
        invariant 2 <= i <= LAST_SUFFIX && Pick(held, base, 2, fallback) == Pick(held, base, i, fallback)
      {
        if Lower(Candidate(base, i)) !in held {
          return Candidate(base, i);
        }
        i := i + 1;
      }
      return fallback;
    }

    /** Counts the account's sessions, and lets the one offline longest go when there are too many. */
    method MakeRoom(project: nat, account: Account) returns (ok: bool)
      modifies `sessions
      ensures MakesRoom(old(sessions), sessions, project, account, ok)
    {
      ghost var own := Of(sessions, project, account);
      var count := 0;
      var oldest: Option<Key> := None;
      var left := sessions.Keys;
      assert own - left == {};
      while left != {}
        invariant sessions == old(sessions) && left <= sessions.Keys && count == |own - left|
        invariant oldest.Some? ==> oldest.value in own - left && !sessions[oldest.value].online
        invariant forall j :: j in own - left && !sessions[j].online
                              ==> oldest.Some? && sessions[oldest.value].lastSeen <= sessions[j].lastSeen
      {
        var k :| k in left;
        VisitOne(own, left, k);
        if k.project == project && sessions[k].account == account {
          count := count + 1;
          if !sessions[k].online && (oldest.None? || sessions[k].lastSeen < sessions[oldest.value].lastSeen) {
            oldest := Some(k);
          }
        }
        left := left - {k};
      }
      assert own - left == own;
      if count < MAX_SESSIONS_PER_ACTOR {
        return true;
      }
      if oldest == None {
        return false;
      }
      assert OfflineLongest(sessions, project, account, oldest.value);
      sessions := sessions - {oldest.value};
      return true;
    }

    method InheritedHold(key: Key, account: Account, name: string) returns (hold: bool)
      ensures Inherits(sessions, key, account, name, hold)
    {
      hide SameFold;
      var newest: Option<Key> := None;
      var left := sessions.Keys;
      while left != {}
        invariant left <= sessions.Keys
        invariant newest.Some? ==> newest.value !in left && TakesOver(sessions, key, account, name, newest.value)
        invariant forall j :: j !in left && TakesOver(sessions, key, account, name, j)
                              ==> newest.Some? && sessions[j].lastSeen <= sessions[newest.value].lastSeen
      {
        var k :| k in left;
        if TakesOver(sessions, key, account, name, k)
           && (newest.None? || sessions[k].lastSeen > sessions[newest.value].lastSeen) {
          newest := Some(k);
        }
        left := left - {k};
      }
      hold := newest.Some? && sessions[newest.value].hold;
      assert newest.Some? ==> NewestTakenOver(sessions, key, account, name, newest.value);
    }

    /** Registers or refreshes a session. */
    method Touch(hb: Heartbeat, mailedOther: bool, fallback: string, now: int) returns (reply: Reply)
      modifies `sessions
      ensures Touches(old(sessions), sessions, hb, mailedOther, fallback, now, reply)
    {
      hide Inherits, MakesRoom, UniqueName, Held, Pruned;
      PruneExpired(now);
      ghost var pruned := sessions;
      if hb.key !in sessions {
        var name := PickName(hb.key, hb.account, hb.base, mailedOther, fallback);
        var hold := InheritedHold(hb.key, hb.account, name);
        var ok := MakeRoom(hb.key.project, hb.account);
        ghost var room := sessions;
        assert MakesRoom(pruned, room, hb.key.project, hb.account, ok)
                 && Inherits(pruned, hb.key, hb.account, name, hold);
        if !ok {
          assert Joins(pruned, sessions, hb, name, now, TooMany);
          return TooMany;
        }
        var s := Session(hb.account, name, OfRun(hb), hb.runId, hold, now, true);
        sessions := sessions[hb.key := s];
        assert Joins(pruned, sessions, hb, name, now, Ok(s));
        return Ok(s);
      }
      var s := sessions[hb.key];
      if s.account != hb.account {
        return AnotherActors;
      }
      if OfRun(hb) && !s.run {
        return NotARuns;
      }
      if s.runId.Some? && hb.runId.Some? && s.runId != hb.runId {
        return AnotherRuns;
      }
      if s.runId == None && s.run {
        s := s.(runId := hb.runId);
      }
      if hb.named && hb.base != s.name {
        var name := PickName(hb.key, hb.account, hb.base, mailedOther, fallback);
        s := s.(name := name);
      }
      s := s.(lastSeen := now, online := true);
      sessions := sessions[hb.key := s];
      return Ok(s);
    }

    method Leave(key: Key, account: Account, now: int) returns (ok: bool)
      modifies `sessions
      ensures Leaves(old(sessions), sessions, key, account, now, ok)
    {
      if key in sessions {
        if sessions[key].account != account {
          return false;
        }
        sessions := sessions[key := sessions[key].(lastSeen := now - SESSION_TTL - 1, online := false)];
      }
      return true;
    }

    method SetInbound(key: Key, caller: Account, admin: bool, hold: bool, now: int) returns (ok: bool)
      modifies `sessions
      ensures SetsInbound(old(sessions), sessions, key, caller, admin, hold, now, ok)
    {
      hide Pruned;
      PruneExpired(now);
      if key !in sessions || !(admin || sessions[key].account == caller) {
        return false;
      }
      sessions := sessions[key := sessions[key].(hold := hold)];
      return true;
    }

    /** Stops at the first session it finds by the name, whichever that is. */
    method NameHeldByOther(project: nat, name: string, account: Account) returns (answer: bool)
      ensures if name == "" then !answer else MayAnswer(sessions, project, name, account, answer)
      ensures name != "" && NamesOwned(sessions)
              ==> answer == exists k :: GoesBy(sessions, project, name, k) && sessions[k].account != account
    {
      hide SameFold, NamesOwned;
      if name == "" {
        return false;
      }
      var left := sessions.Keys;
      answer := false;
      while left != {}
        invariant left <= sessions.Keys && !answer
        invariant forall k :: GoesBy(sessions, project, name, k) ==> k in left
      {
        var k :| k in left;
        if GoesBy(sessions, project, name, k) {
          answer := sessions[k].account != account;
          break;
        }
        left := left - {k};
      }
      if NamesOwned(sessions) {
        SameFromAnyMatch(sessions, project, name, account, answer);
      }
    }
  }
}
