/** Signed-in sessions in memory and their durable mirror: what each locked section may do when
    durable deletes and saves may fail. */
module Sessions {
  import opened Prelude

  type Key = nat

  datatype Session = Session(user: nat, revision: nat, created: int, expires: int)

  /** A durable row; its times are whole seconds. */
  datatype Row = Row(user: nat, revision: nat, created: int, expires: int)

  /** The sessions requests are answered from, and the table a restart reads. */
  datatype Mirror = Mirror(live: map<Key, Session>, table: map<Key, Row>)

  const MAX_SESSIONS := 4096
  const SECOND := 1_000_000_000
  const SESSION_TTL := 12 * 3600 * SECOND

  function Stamp(at: int): int {
    at / SECOND
  }

  function RowOf(s: Session): Row {
    Row(s.user, s.revision, Stamp(s.created), Stamp(s.expires))
  }

  predicate Expired(s: Session, now: int) {
    now > s.expires
  }

  function Gone(live: map<Key, Session>, now: int): set<Key> {
    set k | k in live && Expired(live[k], now)
  }

  function Current(live: map<Key, Session>, now: int): set<Key> {
    set k | k in live && !Expired(live[k], now)
  }

  function ActiveUsers(live: map<Key, Session>, now: int): set<nat> {
    set k | k in live && !Expired(live[k], now) :: live[k].user
  }

  function Of(live: map<Key, Session>, user: nat): set<Key> {
    set k | k in live && live[k].user == user
  }

  /** cap is the number of accounts that may be signed in at once; none when it is not positive. */
  predicate SeatAvailable(live: map<Key, Session>, user: nat, now: int, cap: int) {
    cap <= 0 || user in ActiveUsers(live, now) || |ActiveUsers(live, now)| < cap
  }

  function Without(m: Mirror, keys: set<Key>): Mirror {
    Mirror(m.live - keys, m.table - keys)
  }

  /** Durable first: the rows go and then the sessions, or neither does. Removing nothing cannot fail. */
  predicate Removes(m: Mirror, m': Mirror, keys: set<Key>, ok: bool) {
    if ok then m' == Without(m, keys) else keys != {} && m' == m
  }

  predicate Sweeps(m: Mirror, m': Mirror, now: int, ok: bool) {
    Removes(m, m', Gone(m.live, now), ok)
  }

  function UserRows(table: map<Key, Row>, user: nat): set<Key> {
    set k | k in table && table[k].user == user
  }

  function Revoked(m: Mirror, user: nat): Mirror {
    Mirror(m.live - Of(m.live, user), m.table - UserRows(m.table, user))
  }

  predicate Revokes(m: Mirror, m': Mirror, user: nat, ok: bool) {
    m' == if ok then Revoked(m, user) else m
  }

  predicate Oldest(live: map<Key, Session>, k: Key) {
    k in live && forall j :: j in live ==> live[k].created <= live[j].created
  }

  /** Oldest sessions leave until there is room for one more, or a delete fails. */
  ghost predicate Evicts(m: Mirror, m': Mirror, ok: bool)
    decreases |m.live|
  {
    if |m.live| < MAX_SESSIONS then ok && m' == m
    else exists k :: Oldest(m.live, k) && ((!ok && m' == m) || EvictsNext(m, m', k, ok))
  }

  ghost predicate EvictsNext(m: Mirror, m': Mirror, k: Key, ok: bool)
    decreases |m.live|, 0
  {
    k in m.live && |Without(m, {k}).live| < |m.live| && Evicts(Without(m, {k}), m', ok)
  }

  /** A new session enters the map; saving its row may fail. */
  predicate Inserts(m: Mirror, m': Mirror, key: Key, s: Session) {
    m'.live == m.live[key := s] && (m'.table == m.table || m'.table == m.table[key := RowOf(s)])
  }

  /** A step that may be refused: what the mirror is before its last part, and what it is after. */
  ghost predicate Opens(m: Mirror, m': Mirror, user: nat, revision: nat, key: Key, now: int, cap: int, ok: bool) {
    exists swept, sweptOk :: Sweeps(m, swept, now, sweptOk) &&
      if !sweptOk then !ok && m' == swept
      else if !SeatAvailable(swept.live, user, now, cap) then !ok && m' == swept
      else OpensSwept(swept, m', user, revision, key, now, ok)
  }

  ghost predicate OpensSwept(m: Mirror, m': Mirror, user: nat, revision: nat, key: Key, now: int, ok: bool) {
    exists room, roomOk :: Evicts(m, room, roomOk) && ok == roomOk &&
      if ok then Inserts(room, m', key, Session(user, revision, now, now + SESSION_TTL)) else m' == room
  }

  /** The end of every web sign-in. */
  ghost predicate Finishes(m: Mirror, m': Mirror, user: nat, revision: nat, key: Key, now: int, cap: int, ok: bool) {
    exists swept, sweptOk :: Sweeps(m, swept, now, sweptOk) &&
      if !sweptOk then !ok && m' == swept
      else if !SeatAvailable(swept.live, user, now, cap) then !ok && m' == swept
      else FinishesSeated(swept, m', user, revision, key, now, cap, ok)
  }

  ghost predicate FinishesSeated(m: Mirror, m': Mirror, user: nat, revision: nat, key: Key, now: int, cap: int,
                                 ok: bool)
  {
    || (!ok && m' == m)
    || Opens(Revoked(m, user), m', user, revision, key, now, cap, ok)
  }

  // ---------------------------------------------------------------- what a sign-in does to the sessions

  /** Every session that has not expired is still there, as it was. */
  predicate NobodySignedOut(m: Mirror, m': Mirror, now: int) {
    forall k :: k in Current(m.live, now) ==> k in m'.live && m'.live[k] == m.live[k]
  }

  /** Exactly when a refused sign-in is sure to have signed nobody out: the account's own seat is
      within the cap and its place needs no eviction, or it held none and at most one is needed. */
  predicate RefusalIsHarmless(m: Mirror, user: nat, now: int, cap: int) {
    var current := Current(m.live, now);
    var others := current - Of(m.live, user);
    SeatAvailable(m.live, user, now, cap) ==>
      if user in ActiveUsers(m.live, now)
      then (cap <= 0 || |ActiveUsers(m.live, now)| <= cap) && |others| < MAX_SESSIONS
      else |current| <= MAX_SESSIONS
  }

  lemma SweptKeepsCurrent(m: Mirror, now: int)
    ensures var swept := Without(m, Gone(m.live, now));
            && swept.live.Keys == Current(m.live, now) == Current(swept.live, now)
            && Gone(swept.live, now) == {}
            && ActiveUsers(swept.live, now) == ActiveUsers(m.live, now)
            && (forall user :: Of(swept.live, user) == Of(m.live, user) * Current(m.live, now))
            && (forall k :: k in Current(m.live, now) ==> swept.live[k] == m.live[k])
  {
    var swept := Without(m, Gone(m.live, now));
    forall u | u in ActiveUsers(m.live, now) ensures u in ActiveUsers(swept.live, now) {
      var k :| k in m.live && !Expired(m.live[k], now) && m.live[k].user == u;
      assert k in swept.live && swept.live[k] == m.live[k];
    }
  }

  lemma SweepOutcome(m: Mirror, m': Mirror, now: int, ok: bool)
    requires Sweeps(m, m', now, ok)
    ensures m' == if ok then Without(m, Gone(m.live, now)) else m
    ensures Gone(m.live, now) == {} ==> ok && m' == m
  {
    if Gone(m.live, now) == {} {
      assert m.live - {} == m.live && m.table - {} == m.table;
    }
  }

  /** Revoking an account takes its sessions and its seat, and nobody else's. */
  lemma RevokedOutcome(m: Mirror, user: nat, now: int)
    ensures var r := Revoked(m, user);
            && r.live.Keys == m.live.Keys - Of(m.live, user)
            && (Gone(m.live, now) == {} ==> Gone(r.live, now) == {})
            && ActiveUsers(r.live, now) == ActiveUsers(m.live, now) - {user}
            && Of(r.live, user) == {}
  {
    var r := Revoked(m, user);
    forall u | u in ActiveUsers(m.live, now) - {user} ensures u in ActiveUsers(r.live, now) {
      var k :| k in m.live && !Expired(m.live[k], now) && m.live[k].user == u;
      assert k in r.live && r.live[k] == m.live[k];
    }
  }

  lemma SeatAfterRevoke(users: set<nat>, user: nat, cap: int)
    requires cap > 0
    ensures |users - {user}| < cap <==> if user in users then |users| <= cap else |users| < cap
  {
    if user in users {
      assert users == (users - {user}) + {user};
    } else {
      assert users - {user} == users;
    }
  }

  /** No session taken is younger than one that is left. */
  predicate OldestFirst(m: Mirror, m': Mirror) {
    forall j, k :: j in m.live && j !in m'.live && k in m'.live && k in m.live
                   ==> m.live[j].created <= m.live[k].created
  }

  lemma OldestThenRest(m: Mirror, k: Key, m': Mirror)
    requires Oldest(m.live, k) && OldestFirst(Without(m, {k}), m') && Part(Without(m, {k}), m')
    ensures OldestFirst(m, m')
  {
  }

  /** Eviction takes the oldest sessions and no more than makes room, and none when none must go. */
  lemma {:induction false} EvictOutcome(m: Mirror, m': Mirror, ok: bool)
    requires Evicts(m, m', ok)
    ensures Part(m, m') && (ok ==> |m'.live| < MAX_SESSIONS) && OldestFirst(m, m')
    ensures if |m.live| < MAX_SESSIONS then ok && m' == m else |m'.live| >= MAX_SESSIONS - 1
    ensures |m.live| <= MAX_SESSIONS && !ok ==> m' == m
    decreases |m.live|
  {
    hide Part, Oldest, OldestFirst;
    if |m.live| >= MAX_SESSIONS && !(!ok && m' == m) {
      var k :| Oldest(m.live, k) && EvictsNext(m, m', k, ok);
      var less := Without(m, {k});
      OneFewer(m, k);
      EvictOutcome(less, m', ok);
      PartOfPart(m, less, m');
      OldestThenRest(m, k, m');
    } else {
      PartOfItself(m);
    }
  }

  /** m' is what is left of m once some keys are gone from both. */
  predicate Part(m: Mirror, m': Mirror) {
    && m'.live.Keys <= m.live.Keys && (forall k :: k in m'.live ==> m'.live[k] == m.live[k])
    && m'.table.Keys <= m.table.Keys && (forall k :: k in m'.table ==> m'.table[k] == m.table[k])
    && (m.table.Keys <= m.live.Keys ==> m'.table.Keys <= m'.live.Keys)
  }

  lemma PartOfItself(m: Mirror)
    ensures Part(m, m) && OldestFirst(m, m)
  {
  }

  lemma PartOfPart(m: Mirror, less: Mirror, m': Mirror)
    requires Part(m, less) && Part(less, m')
    ensures Part(m, m')
  {
  }

  lemma OneFewer(m: Mirror, k: Key)
    requires k in m.live
    ensures |Without(m, {k}).live| == |m.live| - 1 && Part(m, Without(m, {k}))
  {
    var less := Without(m, {k});
    assert m.live.Keys == less.live.Keys + {k};
    assert |m.live| == |m.live.Keys| && |less.live| == |less.live.Keys|;
  }

  lemma {:induction false} OldestExists(live: map<Key, Session>)
    requires live != map[]
    ensures exists k :: Oldest(live, k)
  {
    var k :| k in live;
    var k' := OldestFrom(live, k, live.Keys);
  }

  lemma {:induction false} OldestFrom(live: map<Key, Session>, k: Key, left: set<Key>) returns (best: Key)
    requires k in live && left <= live.Keys
    requires forall j :: j in live && j !in left ==> live[k].created <= live[j].created
    ensures Oldest(live, best)
    decreases |left|
  {
    if left == {} {
      best := k;
    } else {
      var j :| j in left;
      best := OldestFrom(live, if live[j].created < live[k].created then j else k, left - {j});
    }
  }

  /** A map that can be reached through a failed delete and nothing else, or through room enough. */
  lemma EvictionMayFail(m: Mirror)
    requires |m.live| >= MAX_SESSIONS
    ensures Evicts(m, m, false)
  {
    OldestExists(m.live);
  }

  lemma EvictionMayFailLate(m: Mirror) returns (k: Key)
    requires |m.live| > MAX_SESSIONS
    ensures k in m.live && Evicts(m, Without(m, {k}), false)
  {
    OldestExists(m.live);
    k :| Oldest(m.live, k);
    var less := Without(m, {k});
    OneFewer(m, k);
    EvictionMayFail(less);
    assert EvictsNext(m, less, k, false);
  }

  /** What opening a session in a swept map with a seat to spare comes to. */
  lemma OpenOutcome(m: Mirror, m': Mirror, user: nat, revision: nat, key: Key, now: int, cap: int, ok: bool)
    requires Opens(m, m', user, revision, key, now, cap, ok) && Gone(m.live, now) == {} && key !in m.live
    ensures ok ==> key in m'.live && |m'.live| <= MAX_SESSIONS && SeatAvailable(m.live, user, now, cap)
                   && m'.live[key] == Session(user, revision, now, now + SESSION_TTL)
                   && (forall k :: k in m'.live && k != key ==> k in m.live && m'.live[k] == m.live[k])
    ensures !ok ==> (forall k :: k in m'.live ==> k in m.live && m'.live[k] == m.live[k])
    ensures SeatAvailable(m.live, user, now, cap) && |m.live| < MAX_SESSIONS ==> ok
    ensures |m.live| <= MAX_SESSIONS && !ok ==> m' == m
    ensures !SeatAvailable(m.live, user, now, cap) ==> !ok && m' == m
  {
    hide Evicts, SeatAvailable, Inserts;
    var swept, sweptOk :| Sweeps(m, swept, now, sweptOk) &&
      if !sweptOk then !ok && m' == swept
      else if !SeatAvailable(swept.live, user, now, cap) then !ok && m' == swept
      else OpensSwept(swept, m', user, revision, key, now, ok);
    SweepOutcome(m, swept, now, sweptOk);
    if SeatAvailable(m.live, user, now, cap) {
      var room, roomOk :| Evicts(m, room, roomOk) && ok == roomOk &&
        if ok then Inserts(room, m', key, Session(user, revision, now, now + SESSION_TTL)) else m' == room;
      EvictOutcome(m, room, roomOk);
      if ok { InsertOutcome(room, m', key, Session(user, revision, now, now + SESSION_TTL)); }
    }
  }

  lemma InsertOutcome(m: Mirror, m': Mirror, key: Key, s: Session)
    requires Inserts(m, m', key, s) && |m.live| < MAX_SESSIONS
    ensures key in m'.live && m'.live[key] == s && |m'.live| <= MAX_SESSIONS
    ensures forall k :: k in m'.live && k != key ==> k in m.live && m'.live[k] == m.live[k]
  {
    assert m'.live.Keys == m.live.Keys + {key};
    assert |m'.live| == |m'.live.Keys| && |m.live| == |m.live.Keys|;
  }

  /** A finished sign-in leaves the account exactly one session, the new one, and never more than
      MAX_SESSIONS in all; what it leaves of others is as it was. */
  lemma FinishedSignIn(m: Mirror, m': Mirror, user: nat, revision: nat, key: Key, now: int, cap: int)
    requires Finishes(m, m', user, revision, key, now, cap, true) && key !in m.live
    ensures Of(m'.live, user) == {key} && m'.live[key] == Session(user, revision, now, now + SESSION_TTL)
    ensures |m'.live| <= MAX_SESSIONS
    ensures forall k :: k in m'.live && k != key ==> k in Current(m.live, now) && m'.live[k] == m.live[k]
    ensures cap > 0 ==> |ActiveUsers(m'.live, now)| <= cap
  {
    hide Opens, SeatAvailable;
    var swept := Without(m, Gone(m.live, now));
    var r := FinishPath(m, m', user, revision, key, now, cap, true);
    SweptKeepsCurrent(m, now);
    RevokedOutcome(swept, user, now);
    OpenOutcome(r, m', user, revision, key, now, cap, true);
    if cap > 0 {
      OpenedSeats(r, m', user, key, now, cap);
    }
  }

  lemma OpenedSeats(m: Mirror, m': Mirror, user: nat, key: Key, now: int, cap: int)
    requires cap > 0 && SeatAvailable(m.live, user, now, cap) && user !in ActiveUsers(m.live, now)
    requires key in m'.live && m'.live[key].user == user
    requires forall k :: k in m'.live && k != key ==> k in m.live && m'.live[k] == m.live[k]
    ensures |ActiveUsers(m'.live, now)| <= cap
  {
    assert ActiveUsers(m'.live, now) <= ActiveUsers(m.live, now) + {user};
    SubsetCardinality(ActiveUsers(m'.live, now), ActiveUsers(m.live, now) + {user});
  }

  /** A sign-in that got past its seat check and its revocation went on to open a session. */
  lemma FinishPath(m: Mirror, m': Mirror, user: nat, revision: nat, key: Key, now: int, cap: int, ok: bool)
      returns (r: Mirror)
    requires Finishes(m, m', user, revision, key, now, cap, ok)
    requires ok || !(m' == m || m' == Without(m, Gone(m.live, now)))
    ensures r == Revoked(Without(m, Gone(m.live, now)), user)
    ensures SeatAvailable(m.live, user, now, cap) && Opens(r, m', user, revision, key, now, cap, ok)
  {
    hide Opens, Evicts;
    var swept, sweptOk :| Sweeps(m, swept, now, sweptOk) &&
      if !sweptOk then !ok && m' == swept
      else if !SeatAvailable(swept.live, user, now, cap) then !ok && m' == swept
      else FinishesSeated(swept, m', user, revision, key, now, cap, ok);
    SweepOutcome(m, swept, now, sweptOk);
    SweptKeepsCurrent(m, now);
    r := Revoked(swept, user);
  }

  /** Never revoke and then refuse: when the bounds hold, a refused sign-in has signed nobody out. */
  lemma RefusedSignIn(m: Mirror, m': Mirror, user: nat, revision: nat, key: Key, now: int, cap: int)
    requires Finishes(m, m', user, revision, key, now, cap, false) && key !in m.live
    requires RefusalIsHarmless(m, user, now, cap)
    ensures NobodySignedOut(m, m', now)
  {
    hide Opens, Finishes, SeatAvailable;
    var swept := Without(m, Gone(m.live, now));
    SweptKeepsCurrent(m, now);
    if !(m' == m || m' == swept) {
      var r := FinishPath(m, m', user, revision, key, now, cap, false);
      HarmlessRefusal(m, m', r, user, revision, key, now, cap);
    }
  }

  lemma HarmlessRefusal(m: Mirror, m': Mirror, r: Mirror, user: nat, revision: nat, key: Key, now: int, cap: int)
    requires r == Revoked(Without(m, Gone(m.live, now)), user) && key !in m.live
    requires SeatAvailable(m.live, user, now, cap) && Opens(r, m', user, revision, key, now, cap, false)
    requires RefusalIsHarmless(m, user, now, cap)
    ensures NobodySignedOut(m, m', now)
  {
    hide Opens, SeatAvailable, Revoked, ActiveUsers, Without;
    RevokedSwept(m, user, now);
    OpenOutcome(r, m', user, revision, key, now, cap, false);
    assert |r.live| == |r.live.Keys|;
    if user in ActiveUsers(m.live, now) {
      SeatOfRevoked(m.live, r.live, user, now, cap);
    }
  }

  /** A sign-in's revocation, after its sweep: what is left of the sessions and of the seats. */
  lemma RevokedSwept(m: Mirror, user: nat, now: int)
    ensures var r := Revoked(Without(m, Gone(m.live, now)), user);
            && r.live.Keys == Current(m.live, now) - Of(m.live, user)
            && Gone(r.live, now) == {} && r.live.Keys <= m.live.Keys
            && ActiveUsers(r.live, now) == ActiveUsers(m.live, now) - {user}
            && (forall k :: k in r.live ==> r.live[k] == m.live[k])
            && (user !in ActiveUsers(m.live, now) ==> r.live.Keys == Current(m.live, now))
  {
    SweptKeepsCurrent(m, now);
    RevokedOutcome(Without(m, Gone(m.live, now)), user, now);
    if user !in ActiveUsers(m.live, now) {
      assert forall k :: k in Current(m.live, now) && k in Of(m.live, user)
               ==> m.live[k].user in ActiveUsers(m.live, now);
    }
  }

  lemma SeatOfRevoked(live: map<Key, Session>, left: map<Key, Session>, user: nat, now: int, cap: int)
    requires ActiveUsers(left, now) == ActiveUsers(live, now) - {user} && user in ActiveUsers(live, now)
    ensures SeatAvailable(left, user, now, cap) <==> (cap <= 0 || |ActiveUsers(live, now)| <= cap)
  {
    hide ActiveUsers;
    if cap > 0 { SeatAfterRevoke(ActiveUsers(live, now), user, cap); }
  }

  /** And only then: otherwise some refusal signs somebody out who was signed in. */
  lemma HarmfulRefusal(m: Mirror, user: nat, revision: nat, key: Key, now: int, cap: int) returns (m': Mirror)
    requires !RefusalIsHarmless(m, user, now, cap)
    ensures Finishes(m, m', user, revision, key, now, cap, false) && !NobodySignedOut(m, m', now)
  {
    hide Evicts, Opens, SeatAvailable, Finishes, ActiveUsers, Revoked;
    var r := Revoked(Without(m, Gone(m.live, now)), user);
    RevokedSwept(m, user, now);
    assert |r.live| == |r.live.Keys|;
    if user in ActiveUsers(m.live, now) {
      m' := r;
      HeldBy(m.live, user, now);
      SeatOfRevoked(m.live, r.live, user, now, cap);
      RefusesToOpen(r, user, revision, key, now, cap);
    } else {
      var k := EvictionMayFailLate(r);
      m' := Without(r, {k});
      SeatStays(m.live, r.live, user, now, cap);
      OpenMayFail(r, m', user, revision, key, now, cap);
    }
    FinishVia(m, m', user, revision, key, now, cap);
  }

  /** Two accounts signed in, and a seat cap since lowered to one. */
  function TwoSignedIn(): Mirror {
    Mirror(map[1 := Session(1, 0, 0, SESSION_TTL), 2 := Session(2, 0, 0, SESSION_TTL)], map[])
  }

  /** A lowered cap lets such a refusal happen. */
  lemma LoweredCapHarms(revision: nat, key: Key) returns (m': Mirror)
    ensures Finishes(TwoSignedIn(), m', 1, revision, key, 0, 1, false) && !NobodySignedOut(TwoSignedIn(), m', 0)
  {
    hide Finishes, NobodySignedOut;
    TwoSeatsTaken();
    m' := HarmfulRefusal(TwoSignedIn(), 1, revision, key, 0, 1);
  }

  lemma TwoSeatsTaken()
    ensures !RefusalIsHarmless(TwoSignedIn(), 1, 0, 1)
  {
    var live := TwoSignedIn().live;
    assert live[1].user == 1 && live[2].user == 2 && !Expired(live[1], 0) && !Expired(live[2], 0);
    SubsetCardinality({1, 2}, ActiveUsers(live, 0));
  }

  lemma HeldBy(live: map<Key, Session>, user: nat, now: int)
    requires user in ActiveUsers(live, now)
    ensures exists k :: k in Current(live, now) && k in Of(live, user)
  {
    var k :| k in live && !Expired(live[k], now) && live[k].user == user;
    assert k in Current(live, now) && k in Of(live, user);
  }

  lemma SeatStays(live: map<Key, Session>, left: map<Key, Session>, user: nat, now: int, cap: int)
    requires ActiveUsers(left, now) == ActiveUsers(live, now) - {user} && user !in ActiveUsers(live, now)
    ensures SeatAvailable(left, user, now, cap) == SeatAvailable(live, user, now, cap)
  {
    hide ActiveUsers;
    assert ActiveUsers(live, now) - {user} == ActiveUsers(live, now);
  }

  lemma FinishVia(m: Mirror, m': Mirror, user: nat, revision: nat, key: Key, now: int, cap: int)
    requires SeatAvailable(m.live, user, now, cap)
    requires Opens(Revoked(Without(m, Gone(m.live, now)), user), m', user, revision, key, now, cap, false)
    ensures Finishes(m, m', user, revision, key, now, cap, false)
  {
    hide Opens;
    var swept := Without(m, Gone(m.live, now));
    SweptKeepsCurrent(m, now);
    assert Sweeps(m, swept, now, true);
    assert SeatAvailable(swept.live, user, now, cap);
  }

  lemma OpenMayFail(m: Mirror, m': Mirror, user: nat, revision: nat, key: Key, now: int, cap: int)
    requires Gone(m.live, now) == {} && Evicts(m, m', false)
    ensures SeatAvailable(m.live, user, now, cap) ==> Opens(m, m', user, revision, key, now, cap, false)
  {
    hide Evicts, SeatAvailable;
    assert m.live - {} == m.live && m.table - {} == m.table;
    assert Sweeps(m, m, now, true);
    assert OpensSwept(m, m', user, revision, key, now, false);
  }

  lemma RefusesToOpen(m: Mirror, user: nat, revision: nat, key: Key, now: int, cap: int)
    requires Gone(m.live, now) == {}
    requires !SeatAvailable(m.live, user, now, cap) || |m.live| >= MAX_SESSIONS
    ensures Opens(m, m, user, revision, key, now, cap, false)
  {
    hide Evicts, SeatAvailable;
    assert m.live - {} == m.live && m.table - {} == m.table;
    assert Sweeps(m, m, now, true);
    if SeatAvailable(m.live, user, now, cap) {
      EvictionMayFail(m);
      OpenMayFail(m, m, user, revision, key, now, cap);
    }
  }

  /** The exact condition: every refusal is harmless if and only if the bounds hold. */
  lemma NeverRevokesThenRefuses(m: Mirror, user: nat, revision: nat, key: Key, now: int, cap: int)
    requires key !in m.live
    ensures (forall m' :: Finishes(m, m', user, revision, key, now, cap, false) ==> NobodySignedOut(m, m', now))
            <==> RefusalIsHarmless(m, user, now, cap)
  {
    hide Finishes, NobodySignedOut, RefusalIsHarmless;
    if RefusalIsHarmless(m, user, now, cap) {
      forall m' | Finishes(m, m', user, revision, key, now, cap, false) ensures NobodySignedOut(m, m', now) {
        RefusedSignIn(m, m', user, revision, key, now, cap);
      }
    } else {
      var m' := HarmfulRefusal(m, user, revision, key, now, cap);
    }
  }

  /** The bounds the server keeps are enough: seats within the cap and sessions within their limit. */
  lemma BoundsAreEnough(m: Mirror, user: nat, now: int, cap: int)
    requires cap > 0 ==> |ActiveUsers(m.live, now)| <= cap
    requires |m.live| <= MAX_SESSIONS
    ensures RefusalIsHarmless(m, user, now, cap)
  {
    hide SeatAvailable;
    var current, own := Current(m.live, now), Of(m.live, user);
    SubsetCardinality(current, m.live.Keys);
    assert |m.live| == |m.live.Keys|;
    if user in ActiveUsers(m.live, now) {
      var k :| k in m.live && !Expired(m.live[k], now) && m.live[k].user == user;
      assert current - own <= current - {k};
      assert current == (current - {k}) + {k};
      SubsetCardinality(current - own, current - {k});
    }
  }

  /** A session is good through the instant it expires, and forgotten by the sweep only after it. */
  lemma SweptExactly(m: Mirror, m': Mirror, now: int, ok: bool, k: Key)
    requires Sweeps(m, m', now, ok)
    ensures k in Current(m.live, now) <==> k in m.live && now <= m.live[k].expires
    ensures k in m'.live <==> k in m.live && (!ok || now <= m.live[k].expires)
    ensures k in m'.table <==> k in m.table && (!ok || k !in m.live || now <= m.live[k].expires)
    ensures (k in m'.live ==> m'.live[k] == m.live[k]) && (k in m'.table ==> m'.table[k] == m.table[k])
  {
  }

  /** Signing an account out takes its sessions and its rows, all of them and no other's, or nothing. */
  lemma RevokedExactly(m: Mirror, m': Mirror, user: nat, ok: bool, k: Key)
    requires Revokes(m, m', user, ok)
    ensures k in m'.live <==> k in m.live && (!ok || m.live[k].user != user)
    ensures k in m'.table <==> k in m.table && (!ok || m.table[k].user != user)
    ensures (k in m'.live ==> m'.live[k] == m.live[k]) && (k in m'.table ==> m'.table[k] == m.table[k])
  {
  }

  lemma {:induction false} RoomCanBeMade(m: Mirror) returns (m': Mirror)
    ensures Evicts(m, m', true)
    decreases |m.live|
  {
    if |m.live| < MAX_SESSIONS {
      m' := m;
    } else {
      OldestExists(m.live);
      var k :| Oldest(m.live, k);
      OneFewer(m, k);
      m' := RoomCanBeMade(Without(m, {k}));
      assert EvictsNext(m, m', k, true);
    }
  }

  lemma RevokedSeat(m: Mirror, user: nat, now: int, cap: int)
    ensures var r := Revoked(Without(m, Gone(m.live, now)), user);
            (SeatAvailable(m.live, user, now, cap) && SeatAvailable(r.live, user, now, cap))
            <==> || cap <= 0
                 || (if user in ActiveUsers(m.live, now) then |ActiveUsers(m.live, now)| <= cap
                     else |ActiveUsers(m.live, now)| < cap)
  {
    hide ActiveUsers, Revoked, Without;
    var r := Revoked(Without(m, Gone(m.live, now)), user);
    RevokedSwept(m, user, now);
    if user in ActiveUsers(m.live, now) {
      SeatOfRevoked(m.live, r.live, user, now, cap);
    } else {
      SeatStays(m.live, r.live, user, now, cap);
    }
  }

  lemma OpenMaySucceed(m: Mirror, user: nat, revision: nat, key: Key, now: int, cap: int) returns (m': Mirror)
    requires Gone(m.live, now) == {} && SeatAvailable(m.live, user, now, cap)
    ensures Opens(m, m', user, revision, key, now, cap, true)
  {
    hide Evicts, SeatAvailable;
    var room := RoomCanBeMade(m);
    m' := Mirror(room.live[key := Session(user, revision, now, now + SESSION_TTL)], room.table);
    assert m.live - {} == m.live && m.table - {} == m.table;
    assert Sweeps(m, m, now, true);
    assert OpensSwept(m, m', user, revision, key, now, true);
  }

  /** A sign-in may finish exactly when there is no cap on the accounts signed in at once, or with the account
      counted once there are no more of them than the cap. */
  lemma SignInFinishesExactly(m: Mirror, user: nat, revision: nat, key: Key, now: int, cap: int)
    requires key !in m.live
    ensures (exists m' :: Finishes(m, m', user, revision, key, now, cap, true))
            <==> cap <= 0 || |ActiveUsers(m.live, now) + {user}| <= cap
  {
    hide Finishes, Opens, SeatAvailable, ActiveUsers, Revoked, Without;
    var r := Revoked(Without(m, Gone(m.live, now)), user);
    RevokedSwept(m, user, now);
    RevokedSeat(m, user, now, cap);
    CountedOnce(ActiveUsers(m.live, now), user);
    if m' :| Finishes(m, m', user, revision, key, now, cap, true) {
      var r' := FinishPath(m, m', user, revision, key, now, cap, true);
      OpenOutcome(r', m', user, revision, key, now, cap, true);
    }
    if SeatAvailable(m.live, user, now, cap) && SeatAvailable(r.live, user, now, cap) {
      var m' := OpenMaySucceed(r, user, revision, key, now, cap);
      FinishMaySucceed(m, m', user, revision, key, now, cap);
    }
  }

  lemma CountedOnce(users: set<nat>, user: nat)
    ensures |users + {user}| == if user in users then |users| else |users| + 1
  {
    if user in users {
      assert users + {user} == users;
    }
  }

  lemma FinishMaySucceed(m: Mirror, m': Mirror, user: nat, revision: nat, key: Key, now: int, cap: int)
    requires SeatAvailable(m.live, user, now, cap)
    requires Opens(Revoked(Without(m, Gone(m.live, now)), user), m', user, revision, key, now, cap, true)
    ensures Finishes(m, m', user, revision, key, now, cap, true)
  {
    hide Opens;
    var swept := Without(m, Gone(m.live, now));
    SweptKeepsCurrent(m, now);
    assert Sweeps(m, swept, now, true);
    assert SeatAvailable(swept.live, user, now, cap);
  }
}
