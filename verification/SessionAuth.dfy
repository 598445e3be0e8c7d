/** The running server's session map, changed in place under its lock, beside a table whose writes may fail. */
module SessionAuth {
  import opened Prelude
  import opened Sessions

  class SessionAuth {
    var sessions: map<Key, Session>
    var table: map<Key, Row>
    var maxActiveUsers: int

    constructor ()
      ensures M() == Mirror(map[], map[]) && maxActiveUsers == 0
    {
      sessions, table, maxActiveUsers := map[], map[], 0;
    }

    ghost function M(): Mirror
      reads this
    {
      Mirror(sessions, table)
    }

    /** Deletes the rows in one transaction, which may fail; then forgets the sessions. */
    method RemoveSessions(keys: seq<Key>) returns (ok: bool)
      modifies `sessions, `table
      ensures Removes(old(M()), M(), (set k | k in keys), ok)
    {
      ghost var doomed := set k | k in keys;
      if |keys| > 0 {
        ok := *;
        if !ok {
          assert keys[0] in doomed;
          return;
        }
      }
      ok := true;
      table := table - (set k | k in keys);
      var i := 0;
      while i < |keys|
        invariant 0 <= i <= |keys| && table == old(table) - doomed
        invariant sessions == old(sessions) - (set k | k in keys[..i])
      {
        sessions := sessions - {keys[i]};
        i := i + 1;
      }
      assert keys[..|keys|] == keys;
    }

    method Sweep(now: int) returns (ok: bool)
      modifies `sessions, `table
      ensures Sweeps(old(M()), M(), now, ok)
    {
      var gone: seq<Key> := [];
      var left := sessions.Keys;
      while left != {}
        invariant left <= sessions.Keys
        invariant forall k :: k in gone <==> k in Gone(sessions, now) && k !in left
      {
        var key :| key in left;
        if now > sessions[key].expires {
          gone := gone + [key];
        }
        left := left - {key};
      }
      assert (set k | k in gone) == Gone(sessions, now);
      ok := RemoveSessions(gone);
    }

    method ActiveUserIds(now: int) returns (ids: set<nat>)
      ensures ids == ActiveUsers(sessions, now)
    {
      ids := {};
      var left := sessions.Keys;
      while left != {}
        invariant left <= sessions.Keys
        invariant ids == (set k | k in sessions && k !in left && !Expired(sessions[k], now) :: sessions[k].user)
      {
        var key :| key in left;
        if !(now > sessions[key].expires) {
          ids := ids + {sessions[key].user};
        }
        left := left - {key};
      }
    }

    method HasSeat(user: nat, now: int) returns (yes: bool)
      ensures yes == SeatAvailable(sessions, user, now, maxActiveUsers)
    {
      if maxActiveUsers <= 0 {
        return true;
      }
      var active := ActiveUserIds(now);
      return user in active || |active| < maxActiveUsers;
    }

    method EvictOldest() returns (ghost gone: Key, ok: bool)
      requires sessions != map[]
      modifies `sessions, `table
      ensures Oldest(old(sessions), gone)
      ensures M() == if ok then Without(old(M()), {gone}) else old(M())
    {
      var oldest :| oldest in sessions;
      var left := sessions.Keys - {oldest};
      while left != {}
        invariant left <= sessions.Keys && oldest in sessions
        invariant forall k :: k in sessions && k !in left ==> sessions[oldest].created <= sessions[k].created
      {
        var key :| key in left;
        if sessions[key].created < sessions[oldest].created {
          oldest := key;
        }
        left := left - {key};
      }
      gone := oldest;
      assert (set k | k in [oldest]) == {oldest};
      ok := RemoveSessions([oldest]);
    }

    method MakeRoom() returns (ok: bool)
      modifies `sessions, `table
      ensures Evicts(old(M()), M(), ok)
    {
      ok := true;
      while |sessions| >= MAX_SESSIONS
        invariant ok
        invariant forall m', done :: Evicts(M(), m', done) ==> Evicts(old(M()), m', done)
        decreases |sessions|
      {
        ghost var m := M();
        ghost var gone;
        gone, ok := EvictOldest();
        if !ok {
          assert Evicts(m, m, false);
          return;
        }
        OneFewer(m, gone);
        forall m', done | Evicts(M(), m', done) ensures Evicts(old(M()), m', done) {
          EvictFirst(m, m', gone, done);
        }
      }
    }

    method OpenSession(user: nat, revision: nat, key: Key, now: int) returns (ok: bool)
      modifies `sessions, `table
      ensures Opens(old(M()), M(), user, revision, key, now, maxActiveUsers, ok)
    {
      hide Evicts;
      ok := Sweep(now);
      ghost var swept := M();
      if !ok {
        return;
      }
      var seat := HasSeat(user, now);
      if !seat {
        return false;
      }
      ok := MakeRoom();
      ghost var room := M();
      if ok {
        var session := Session(user, revision, now, now + SESSION_TTL);
        sessions := sessions[key := session];
        Save(key, session);
        assert Inserts(room, M(), key, session);
      }
      assert OpensSwept(swept, M(), user, revision, key, now, ok);
    }

    /** Best effort: a row that cannot be written is only logged. */
    method Save(key: Key, session: Session)
      modifies `table
      ensures table == old(table) || table == old(table)[key := RowOf(session)]
    {
      var ok: bool := *;
      if ok {
        table := table[key := RowOf(session)];
      }
    }

    /** Deletes an account's rows, which may fail, and then its sessions. */
    method RevokeUser(user: nat) returns (ok: bool)
      modifies `sessions, `table
      ensures Revokes(old(M()), M(), user, ok)
    {
      ok := *;
      if ok {
        table := table - (set k | k in table && table[k].user == user);
        var left := sessions.Keys;
        while left != {}
          invariant left <= old(sessions).Keys && table == old(table) - UserRows(old(table), user)
          invariant sessions == old(sessions) - (Of(old(sessions), user) - left)
        {
          var key :| key in left;
          if sessions[key].user == user {
            sessions := sessions - {key};
          }
          left := left - {key};
        }
      }
    }

    /** The end of every web sign-in. */
    method FinishSignIn(user: nat, revision: nat, key: Key, now: int) returns (ok: bool)
      modifies `sessions, `table
      ensures Finishes(old(M()), M(), user, revision, key, now, maxActiveUsers, ok)
    {
      hide Opens, Evicts, SeatAvailable;
      ok := Sweep(now);
      ghost var swept := M();
      if !ok {
        return;
      }
      var seat := HasSeat(user, now);
      if !seat {
        return false;
      }
      ok := RevokeUser(user);
      if ok {
        ok := OpenSession(user, revision, key, now);
      }
      assert FinishesSeated(swept, M(), user, revision, key, now, maxActiveUsers, ok);
    }

    method Logout(key: Key) returns (ok: bool)
      modifies `sessions, `table
      ensures Removes(old(M()), M(), {key}, ok)
    {
      assert (set k | k in [key]) == {key};
      ok := RemoveSessions([key]);
    }
  }

  lemma EvictFirst(m: Mirror, m': Mirror, k: Key, ok: bool)
    requires Oldest(m.live, k) && |m.live| >= MAX_SESSIONS && Evicts(Without(m, {k}), m', ok)
    ensures Evicts(m, m', ok)
  {
    OneFewer(m, k);
    assert EvictsNext(m, m', k, ok);
  }
}
