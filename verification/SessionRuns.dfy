/** The server's life as the sessions see it: steps that commit or fail, crashes between a commit and
    what follows it, and restarts that read the table back. */
module SessionRuns {
  import opened Prelude
  import opened Sessions

  const RENEW_AFTER := 3600 * SECOND

  /** issued and removed are history: every key a session was opened under, and every key whose removal
      was reported done. touches are renewals whose row has yet to be written. trusted says that the last
      start both cleaned the table and read all of it. */
  datatype World = World(up: bool, trusted: bool, m: Mirror, touches: set<(Key, int)>,
                         issued: set<Key>, removed: set<Key>)

  datatype Event =
    | Insert(key: Key, session: Session, saved: bool)
    | Remove(keys: set<Key>, ok: bool)
    | Revoke(user: nat, ok: bool)
    | Renew(key: Key, at: int, checked: int)
    | Touch(key: Key, expires: int, ok: bool)
    | Crash
    | CrashAfterDelete(keys: set<Key>)
    | CrashAfterRevoke(user: nat)
    | Restart(at: int, cleaned: bool, kept: set<Key>, read: set<Key>)

  function Unexpired(table: map<Key, Row>, at: int): set<Key> {
    set k | k in table && table[k].expires > Stamp(at)
  }

  /** kept is what the startup cleanup leaves: the newest MAX_SESSIONS of the rows not expired. */
  predicate Newest(table: map<Key, Row>, at: int, kept: set<Key>) {
    && kept <= Unexpired(table, at)
    && |kept| <= MAX_SESSIONS
    && (kept == Unexpired(table, at) || |kept| == MAX_SESSIONS)
    && forall k, j :: k in kept && j in Unexpired(table, at) - kept ==> table[j].created <= table[k].created
  }

  function Loaded(table: map<Key, Row>, read: set<Key>): map<Key, Session> {
    map k | k in table && k in read ::
      Session(table[k].user, table[k].revision, table[k].created * SECOND, table[k].expires * SECOND)
  }

  function Only(table: map<Key, Row>, keys: set<Key>): map<Key, Row> {
    map k | k in table && k in keys :: table[k]
  }

  /** A renewal is stored within the hour that separates two of them. */
  predicate RenewalDue(s: Session, at: int, checked: int) {
    at <= checked <= at + RENEW_AFTER && s.expires - checked < SESSION_TTL - RENEW_AFTER
  }

  predicate Can(w: World, e: Event) {
    match e
    case Insert(key, _, _) => w.up && key !in w.issued + w.removed && |w.m.live| < MAX_SESSIONS
    case Remove(keys, ok) => w.up && (keys == {} ==> ok)
    case Revoke(_, _) => w.up
    case Renew(key, at, checked) => w.up && key in w.m.live && RenewalDue(w.m.live[key], at, checked)
    case Touch(key, expires, _) => w.up && (key, expires) in w.touches
    case Crash => w.up
    case CrashAfterDelete(_) => w.up
    case CrashAfterRevoke(_) => w.up
    case Restart(at, cleaned, kept, read) =>
      !w.up && if cleaned then Newest(w.m.table, at, kept) && read <= kept else kept == read == {}
  }

  function After(w: World, e: Event): World
    requires Can(w, e)
  {
    match e
    case Insert(key, s, saved) =>
      var table := if saved then w.m.table[key := RowOf(s)] else w.m.table;
      w.(m := Mirror(w.m.live[key := s], table), issued := w.issued + {key})
    case Remove(keys, ok) => if ok then w.(m := Without(w.m, keys), removed := w.removed + keys) else w
    case Revoke(user, ok) =>
      if ok then w.(m := Revoked(w.m, user), removed := w.removed + Of(w.m.live, user) + UserRows(w.m.table, user))
      else w
    case Renew(key, at, _) =>
      var s := w.m.live[key].(expires := at + SESSION_TTL);
      w.(m := w.m.(live := w.m.live[key := s]), touches := w.touches + {(key, s.expires)})
    case Touch(key, expires, ok) =>
      var rows := w.m.table;
      var table := if ok && key in rows then rows[key := rows[key].(expires := Stamp(expires))] else rows;
      w.(m := w.m.(table := table), touches := w.touches - {(key, expires)})
    case Crash => Down(w, w.m.table)
    case CrashAfterDelete(keys) => Down(w, w.m.table - keys)
    case CrashAfterRevoke(user) => Down(w, w.m.table - UserRows(w.m.table, user))
    case Restart(at, cleaned, kept, read) =>
      var table := if cleaned then Only(w.m.table, kept) else w.m.table;
      w.(up := true, trusted := cleaned && read == kept, m := Mirror(Loaded(table, read), table))
  }

  function Down(w: World, table: map<Key, Row>): World {
    w.(up := false, trusted := false, m := Mirror(map[], table), touches := {})
  }

  predicate Run(w: World, es: seq<Event>)
    decreases |es|
  {
    es == [] || (Can(w, es[0]) && Run(After(w, es[0]), es[1..]))
  }

  function End(w: World, es: seq<Event>): World
    requires Run(w, es)
    decreases |es|
  {
    if es == [] then w else End(After(w, es[0]), es[1..])
  }

  /** A server about to start for the first time. */
  function Fresh(): World {
    World(false, false, Mirror(map[], map[]), {}, {}, {})
  }

  // ---------------------------------------------------------------- what every step keeps

  /** A session and its row agree on whose it is, under which revision, and since when; a row never
      outlasts its session. */
  predicate Agree(s: Session, row: Row) {
    && row.user == s.user && row.revision == s.revision
    && row.created == Stamp(s.created) && row.expires <= Stamp(s.expires)
  }

  ghost predicate Sound(w: World) {
    && w.m.live.Keys <= w.issued && w.m.table.Keys <= w.issued
    && w.m.live.Keys !! w.removed && w.m.table.Keys !! w.removed
    && |w.m.live| <= MAX_SESSIONS
    && (!w.up ==> w.m.live == map[] && !w.trusted && w.touches == {})
    && (w.trusted ==> w.m.table.Keys <= w.m.live.Keys)
    && (forall k :: k in w.m.live && k in w.m.table ==> Agree(w.m.live[k], w.m.table[k]))
    && (forall t :: t in w.touches && t.0 in w.m.live ==> t.1 <= w.m.live[t.0].expires)
    && (forall t :: t in w.touches ==> t.0 in w.issued)
  }

  lemma FreshIsSound()
    ensures Sound(Fresh())
  {
  }

  lemma InsertKeepsSound(w: World, key: Key, s: Session, saved: bool)
    requires Sound(w) && Can(w, Insert(key, s, saved))
    ensures Sound(After(w, Insert(key, s, saved)))
  {
    hide Stamp;
    OneMore(w.m.live, key, s);
  }

  lemma OneMore(live: map<Key, Session>, key: Key, s: Session)
    requires |live| < MAX_SESSIONS
    ensures |live[key := s]| <= MAX_SESSIONS
  {
    assert live[key := s].Keys == live.Keys + {key};
    assert |live[key := s]| == |live[key := s].Keys| && |live| == |live.Keys|;
  }

  lemma FewerAreSound(w: World, w': World)
    requires Sound(w) && w'.m.live.Keys <= w.m.live.Keys && w'.m.table.Keys <= w.m.table.Keys
    requires forall k :: k in w'.m.live ==> w'.m.live[k] == w.m.live[k]
    requires forall k :: k in w'.m.table ==> w'.m.table[k] == w.m.table[k]
    requires w'.issued == w.issued && w'.touches <= w.touches
    requires w'.m.live.Keys !! w'.removed && w'.m.table.Keys !! w'.removed
    requires !w'.up ==> w'.m.live == map[] && !w'.trusted && w'.touches == {}
    requires w'.trusted ==> w'.m.table.Keys <= w'.m.live.Keys
    ensures Sound(w')
  {
    SubsetCardinality(w'.m.live.Keys, w.m.live.Keys);
    assert |w'.m.live| == |w'.m.live.Keys| && |w.m.live| == |w.m.live.Keys|;
  }

  lemma RemovalKeepsSound(w: World, e: Event)
    requires Sound(w) && Can(w, e)
    requires e.Remove? || e.Revoke? || e.Crash? || e.CrashAfterDelete? || e.CrashAfterRevoke?
    ensures Sound(After(w, e))
  {
    FewerAreSound(w, After(w, e));
  }

  lemma RenewalKeepsSound(w: World, e: Event)
    requires Sound(w) && Can(w, e) && (e.Renew? || e.Touch?)
    ensures Sound(After(w, e))
  {
    if e.Renew? {
      var live' := After(w, e).m.live;
      assert live'.Keys == w.m.live.Keys;
      assert |live'| == |live'.Keys| && |w.m.live| == |w.m.live.Keys|;
    }
  }

  lemma WholeSeconds(t: int)
    ensures Stamp(t * SECOND) == t
  {
  }

  lemma StartKeepsSound(w: World, at: int, cleaned: bool, kept: set<Key>, read: set<Key>)
    requires Sound(w) && Can(w, Restart(at, cleaned, kept, read))
    ensures Sound(After(w, Restart(at, cleaned, kept, read)))
  {
    hide Stamp;
    var w' := After(w, Restart(at, cleaned, kept, read));
    forall k | k in w'.m.live ensures Agree(w'.m.live[k], w'.m.table[k]) {
      WholeSeconds(w.m.table[k].created);
      WholeSeconds(w.m.table[k].expires);
    }
    assert w'.m.live.Keys == read;
    assert |w'.m.live| == |w'.m.live.Keys|;
    SubsetCardinality(read, kept);
  }

  lemma StepKeepsSound(w: World, e: Event)
    requires Sound(w) && Can(w, e)
    ensures Sound(After(w, e))
  {
    hide Sound, After, Can;
    match e
    case Insert(key, s, saved) => InsertKeepsSound(w, key, s, saved);
    case Renew(_, _, _) => RenewalKeepsSound(w, e);
    case Touch(_, _, _) => RenewalKeepsSound(w, e);
    case Restart(at, cleaned, kept, read) => StartKeepsSound(w, at, cleaned, kept, read);
    case _ => RemovalKeepsSound(w, e);
  }

  lemma {:induction false} RunKeepsSound(w: World, es: seq<Event>)
    requires Sound(w) && Run(w, es)
    ensures Sound(End(w, es))
    decreases |es|
  {
    hide Sound, After, Can;
    if es != [] {
      StepKeepsSound(w, es[0]);
      RunKeepsSound(After(w, es[0]), es[1..]);
    }
  }

  // ---------------------------------------------------------------- over whole runs

  lemma StepKeepsHistory(w: World, e: Event)
    requires Can(w, e)
    ensures w.removed <= After(w, e).removed
  {
  }

  lemma {:induction false} RunKeepsHistory(w: World, es: seq<Event>)
    requires Run(w, es)
    ensures w.removed <= End(w, es).removed
    decreases |es|
  {
    hide After, Can;
    if es != [] {
      StepKeepsHistory(w, es[0]);
      RunKeepsHistory(After(w, es[0]), es[1..]);
    }
  }

  /** A session reported as removed never comes back, to the server or to its table, whatever fails,
      crashes or restarts afterwards. */
  lemma RemovedNeverReturns(before: seq<Event>, e: Event, later: seq<Event>, key: Key)
    requires Run(Fresh(), before) && Can(End(Fresh(), before), e)
    requires Run(After(End(Fresh(), before), e), later)
    requires (e.Remove? && e.ok && key in e.keys)
             || (e.Revoke? && e.ok && key in Of(End(Fresh(), before).m.live, e.user))
    ensures var w := End(After(End(Fresh(), before), e), later); key !in w.m.live && key !in w.m.table
  {
    hide Sound;
    var w := End(Fresh(), before);
    FreshIsSound();
    RunKeepsSound(Fresh(), before);
    StepKeepsSound(w, e);
    RunKeepsSound(After(w, e), later);
    RunKeepsHistory(After(w, e), later);
    RemovedIsAbsent(End(After(w, e), later), key);
  }

  lemma RemovedIsAbsent(w: World, key: Key)
    requires Sound(w) && key in w.removed
    ensures key !in w.m.live && key !in w.m.table
  {
  }

  /** After a start that cleaned and read the table, every row has its session, in every state; and the
      sessions are never more than MAX_SESSIONS. */
  lemma MirrorNeverAhead(es: seq<Event>)
    requires Run(Fresh(), es)
    ensures var w := End(Fresh(), es); (w.trusted ==> w.m.table.Keys <= w.m.live.Keys) && |w.m.live| <= MAX_SESSIONS
  {
    FreshIsSound();
    RunKeepsSound(Fresh(), es);
  }

  /** So a crash and a restart then bring back only sessions that were live at the crash, each still
      belonging to the same account under the same revision, and none of them lasting longer. */
  lemma RestartBringsBackOnlyTheLive(es: seq<Event>, at: int, cleaned: bool, kept: set<Key>, read: set<Key>)
    requires Run(Fresh(), es) && End(Fresh(), es).up && End(Fresh(), es).trusted
    requires Can(After(End(Fresh(), es), Crash), Restart(at, cleaned, kept, read))
    ensures var w := End(Fresh(), es);
            var w' := After(After(w, Crash), Restart(at, cleaned, kept, read));
            forall k :: k in w'.m.live ==>
              && k in w.m.live
              && w'.m.live[k].user == w.m.live[k].user && w'.m.live[k].revision == w.m.live[k].revision
              && w'.m.live[k].expires <= w.m.live[k].expires
              && Stamp(w'.m.live[k].created) == Stamp(w.m.live[k].created)
  {
    hide Sound, Stamp, Down, Loaded;
    FreshIsSound();
    RunKeepsSound(Fresh(), es);
    var w := End(Fresh(), es);
    var w' := After(After(w, Crash), Restart(at, cleaned, kept, read));
    forall k | k in w'.m.live
      ensures k in w.m.live && w'.m.live[k].user == w.m.live[k].user && w'.m.live[k].revision == w.m.live[k].revision
      ensures w'.m.live[k].expires <= w.m.live[k].expires && Stamp(w'.m.live[k].created) == Stamp(w.m.live[k].created)
    {
      ComesBackAsItWas(w, at, cleaned, kept, read, k);
    }
  }

  lemma ComesBackAsItWas(w: World, at: int, cleaned: bool, kept: set<Key>, read: set<Key>, k: Key)
    requires Sound(w) && w.up && w.trusted && Can(After(w, Crash), Restart(at, cleaned, kept, read))
    requires k in After(After(w, Crash), Restart(at, cleaned, kept, read)).m.live
    ensures var s' := After(After(w, Crash), Restart(at, cleaned, kept, read)).m.live[k];
            && k in w.m.live && s'.user == w.m.live[k].user && s'.revision == w.m.live[k].revision
            && s'.expires <= w.m.live[k].expires && Stamp(s'.created) == Stamp(w.m.live[k].created)
  {
    assert k in w.m.table && Agree(w.m.live[k], w.m.table[k]);
    WholeSeconds(w.m.table[k].created);
  }

  // ---------------------------------------------------------------- exactly when a restart revives only the live

  /** Every crash now and restart from at on brings back only sessions that are live. */
  ghost predicate OnlyTheLive(w: World, at: int)
    requires w.up
  {
    forall later, cleaned, kept, read ::
      later >= at && Can(After(w, Crash), Restart(later, cleaned, kept, read))
      ==> After(After(w, Crash), Restart(later, cleaned, kept, read)).m.live.Keys <= w.m.live.Keys
  }

  lemma {:induction false} ANewest(table: map<Key, Row>, keys: set<Key>) returns (best: Key)
    requires keys != {} && keys <= table.Keys
    ensures best in keys && forall k :: k in keys ==> table[k].created <= table[best].created
    decreases |keys|
  {
    best :| best in keys;
    if keys != {best} {
      var other := ANewest(table, keys - {best});
      if table[other].created > table[best].created {
        best := other;
      }
    }
  }

  lemma SomeLeft(some: set<Key>, all: set<Key>)
    requires |some| < |all|
    ensures all - some != {}
  {
    if k :| k in all && k !in some {
      assert k in all - some;
    } else {
      SubsetCardinality(all, some);
    }
  }

  /** The n newest of some rows. */
  lemma {:induction false} NewestFew(table: map<Key, Row>, keys: set<Key>, n: nat) returns (few: set<Key>)
    requires keys <= table.Keys && n <= |keys|
    ensures few <= keys && |few| == n
    ensures forall k, j :: k in few && j in keys - few ==> table[j].created <= table[k].created
  {
    few := {};
    if n > 0 {
      few := NewestFew(table, keys, n - 1);
      SomeLeft(few, keys);
      var next := ANewest(table, keys - few);
      few := few + {next};
    }
  }

  /** Whatever the table holds, a cleanup has rows to keep when some are unexpired. */
  lemma NewestExists(table: map<Key, Row>, at: int) returns (kept: set<Key>)
    ensures Newest(table, at, kept) && (Unexpired(table, at) != {} ==> kept != {})
  {
    var keys := Unexpired(table, at);
    if |keys| <= MAX_SESSIONS {
      kept := keys;
    } else {
      kept := NewestFew(table, keys, MAX_SESSIONS);
    }
  }

  lemma RevivedIsUnexpired(w: World, later: int, cleaned: bool, kept: set<Key>, read: set<Key>)
    requires w.up && Can(After(w, Crash), Restart(later, cleaned, kept, read))
    ensures After(After(w, Crash), Restart(later, cleaned, kept, read)).m.live.Keys <= Unexpired(w.m.table, later)
  {
  }

  lemma ExpiredStays(table: map<Key, Row>, at: int, later: int)
    requires at <= later
    ensures Unexpired(table, later) <= Unexpired(table, at)
  {
  }

  /** A start that keeps rows it does not read hides them until the next. */
  lemma UnreadComesBack(w: World, at: int, kept: set<Key>, read: set<Key>)
    requires Can(w, Restart(at, true, kept, read)) && read != kept
    ensures !OnlyTheLive(After(w, Restart(at, true, kept, read)), at)
  {
    var w' := After(w, Restart(at, true, kept, read));
    var again := Restart(at, true, kept, kept);
    assert Unexpired(w'.m.table, at) == kept;
    assert Can(After(w', Crash), again);
    assert After(After(w', Crash), again).m.live.Keys == kept;
  }

  /** A start whose cleanup fails hides every session that has a row. */
  lemma UncleanedComesBack(w: World, at: int)
    requires Can(w, Restart(at, false, {}, {})) && Unexpired(w.m.table, at) != {}
    ensures !OnlyTheLive(After(w, Restart(at, false, {}, {})), at)
  {
    hide Newest;
    var w' := After(w, Restart(at, false, {}, {}));
    var kept := NewestExists(w.m.table, at);
    var again := Restart(at, true, kept, kept);
    assert Can(After(w', Crash), again);
    assert After(After(w', Crash), again).m.live.Keys == kept by { NewestAreRows(w.m.table, at, kept); }
    assert w'.m.live.Keys == {};
  }

  lemma NewestAreRows(table: map<Key, Row>, at: int, kept: set<Key>)
    requires Newest(table, at, kept)
    ensures Loaded(Only(table, kept), kept).Keys == kept
  {
  }

  /** After a start, every crash and restart brings back only live sessions exactly when the start cleaned
      the table and read all it kept, or left no row that could still be used. */
  lemma OnlyTheLiveExactly(w: World, at: int, cleaned: bool, kept: set<Key>, read: set<Key>)
    requires Can(w, Restart(at, cleaned, kept, read))
    ensures var w' := After(w, Restart(at, cleaned, kept, read));
            OnlyTheLive(w', at) <==> (cleaned && read == kept) || Unexpired(w'.m.table, at) == {}
  {
    var w' := After(w, Restart(at, cleaned, kept, read));
    if cleaned && read != kept {
      UnreadComesBack(w, at, kept, read);
      assert Unexpired(w'.m.table, at) == kept;
    } else if !cleaned && Unexpired(w'.m.table, at) != {} {
      UncleanedComesBack(w, at);
    } else {
      forall later, cleaned', kept', read'
        | later >= at && Can(After(w', Crash), Restart(later, cleaned', kept', read'))
        ensures After(After(w', Crash), Restart(later, cleaned', kept', read')).m.live.Keys <= w'.m.live.Keys
      {
        RevivedIsUnexpired(w', later, cleaned', kept', read');
        ExpiredStays(w'.m.table, at, later);
        assert Unexpired(w'.m.table, at) <= w'.m.live.Keys;
      }
    }
  }

  /** It does fail: a start whose cleanup fails serves no session, and the next one
      brings back a session that was not live. */
  lemma FailedCleanupHidesASession() returns (es: seq<Event>, start: Event)
    ensures Run(Fresh(), es) && End(Fresh(), es).up && !End(Fresh(), es).trusted
    ensures Can(After(End(Fresh(), es), Crash), start) && start.Restart?
    ensures exists k :: k in After(After(End(Fresh(), es), Crash), start).m.live && k !in End(Fresh(), es).m.live
  {
    hide Run, End, After, Can;
    var first, insert, bad := Restart(0, true, {}, {}), Insert(7, OneSession(), true), Restart(0, false, {}, {});
    start := Restart(0, true, {7}, {7});
    es := [first] + ([insert] + ([Crash] + ([bad] + [])));
    CleanStart(first);
    OneInserted(insert);
    OneCrashed();
    Uncleaned(bad);
    NoMore(Hiding());
    RunHead(Stored(false), bad, Hiding(), []);
    RunHead(Stored(true), Crash, Stored(false), [bad] + []);
    RunHead(Started(), insert, Stored(true), [Crash] + ([bad] + []));
    RunHead(Fresh(), first, Started(), [insert] + ([Crash] + ([bad] + [])));
    ComesBack(start);
  }

  function OneSession(): Session {
    Session(1, 1, 0, SESSION_TTL)
  }

  function Started(): World {
    World(true, true, Mirror(map[], map[]), {}, {}, {})
  }

  /** One session stored; before a crash, or after it. */
  function Stored(up: bool): World {
    World(up, up, Mirror(if up then map[7 := OneSession()] else map[], map[7 := RowOf(OneSession())]), {}, {7}, {})
  }

  /** Up again without its cleanup: no session is live, and the row is still there. */
  function Hiding(): World {
    Stored(false).(up := true)
  }

  lemma NoMore(w: World)
    ensures Run(w, []) && End(w, []) == w
  {
  }

  lemma RunHead(w: World, e: Event, next: World, es: seq<Event>)
    requires Can(w, e) && After(w, e) == next && Run(next, es)
    ensures Run(w, [e] + es) && End(w, [e] + es) == End(next, es)
  {
    hide After, Can;
    assert ([e] + es)[1..] == es;
  }

  lemma CleanStart(first: Event)
    requires first == Restart(0, true, {}, {})
    ensures Can(Fresh(), first) && After(Fresh(), first) == Started()
  {
    assert Unexpired(map[], 0) == {};
  }

  lemma OneInserted(insert: Event)
    requires insert == Insert(7, OneSession(), true)
    ensures Can(Started(), insert) && After(Started(), insert) == Stored(true)
  {
  }

  lemma OneCrashed()
    ensures Can(Stored(true), Crash) && After(Stored(true), Crash) == Stored(false)
  {
  }

  lemma Uncleaned(bad: Event)
    requires bad == Restart(0, false, {}, {})
    ensures Can(Stored(false), bad) && After(Stored(false), bad) == Hiding()
  {
    assert Loaded(Stored(false).m.table, {}) == map[];
  }

  lemma ComesBack(start: Event)
    requires start == Restart(0, true, {7}, {7})
    ensures Can(Hiding(), Crash) && Can(After(Hiding(), Crash), start)
    ensures 7 in After(After(Hiding(), Crash), start).m.live && 7 !in Hiding().m.live
  {
    assert Unexpired(Hiding().m.table, 0) == {7};
  }

  // ---------------------------------------------------------------- the operations are such runs

  lemma {:induction false} RunAppend(w: World, a: seq<Event>, b: seq<Event>)
    requires Run(w, a) && Run(End(w, a), b)
    ensures Run(w, a + b) && End(w, a + b) == End(End(w, a), b)
    decreases |a|
  {
    hide After, Can;
    if a == [] {
      assert a + b == b;
    } else {
      RunAppend(After(w, a[0]), a[1..], b);
      assert (a + b)[1..] == a[1..] + b;
    }
  }

  lemma RunOne(w: World, e: Event)
    requires Can(w, e)
    ensures Run(w, [e]) && End(w, [e]) == After(w, e)
  {
  }

  /** w' has the mirror m', and nothing else has happened but removals of keys there were. */
  predicate Leads(w: World, w': World, m': Mirror) {
    && w'.up && w'.m == m' && w'.issued == w.issued
    && w.removed <= w'.removed <= w.removed + w.m.live.Keys + w.m.table.Keys
    && m'.live.Keys <= w.m.live.Keys && m'.table.Keys <= w.m.table.Keys
  }

  lemma RemovalRun(w: World, m': Mirror, keys: set<Key>, ok: bool) returns (es: seq<Event>)
    requires w.up && Removes(w.m, m', keys, ok) && keys <= w.m.live.Keys
    ensures Run(w, es) && Leads(w, End(w, es), m')
  {
    es := [Remove(keys, ok)];
    RunOne(w, es[0]);
  }

  lemma RevocationRun(w: World, user: nat) returns (es: seq<Event>)
    requires w.up
    ensures Run(w, es) && Leads(w, End(w, es), Revoked(w.m, user))
  {
    es := [Revoke(user, true)];
    RunOne(w, es[0]);
  }

  lemma {:induction false} EvictionRun(w: World, m': Mirror, ok: bool) returns (es: seq<Event>)
    requires w.up && Evicts(w.m, m', ok)
    ensures ok ==> |m'.live| < MAX_SESSIONS
    ensures Run(w, es) && Leads(w, End(w, es), m')
    decreases |w.m.live|
  {
    es := [];
    if |w.m.live| >= MAX_SESSIONS && !(!ok && m' == w.m) {
      var k :| Oldest(w.m.live, k) && EvictsNext(w.m, m', k, ok);
      var one := RemovalRun(w, Without(w.m, {k}), {k}, true);
      var rest := EvictionRun(End(w, one), m', ok);
      RunAppend(w, one, rest);
      es := one + rest;
    }
  }

  /** Opening a session, and so a whole sign-in, is a run of these steps: what is true of every run is
      true of every sign-in. */
  lemma OpeningRun(w: World, m': Mirror, user: nat, revision: nat, key: Key, now: int, cap: int, ok: bool)
      returns (es: seq<Event>)
    requires w.up && Opens(w.m, m', user, revision, key, now, cap, ok)
    requires key !in w.issued + w.removed + w.m.live.Keys + w.m.table.Keys
    ensures Run(w, es) && End(w, es).m == m' && End(w, es).up
  {
    hide Evicts, SeatAvailable, Can, After;
    var swept, sweptOk :| Sweeps(w.m, swept, now, sweptOk) &&
      if !sweptOk then !ok && m' == swept
      else if !SeatAvailable(swept.live, user, now, cap) then !ok && m' == swept
      else OpensSwept(swept, m', user, revision, key, now, ok);
    es := RemovalRun(w, swept, Gone(w.m.live, now), sweptOk);
    if sweptOk && SeatAvailable(swept.live, user, now, cap) {
      var room, roomOk :| Evicts(swept, room, roomOk) && ok == roomOk &&
        if ok then Inserts(room, m', key, Session(user, revision, now, now + SESSION_TTL)) else m' == room;
      var more := EvictionRun(End(w, es), room, roomOk);
      RunAppend(w, es, more);
      es := es + more;
      if ok {
        var s := Session(user, revision, now, now + SESSION_TTL);
        var last := InsertionRun(End(w, es), m', key, s);
        RunAppend(w, es, last);
        es := es + last;
      }
    }
  }

  lemma InsertionRun(w: World, m': Mirror, key: Key, s: Session) returns (es: seq<Event>)
    requires w.up && Inserts(w.m, m', key, s) && key !in w.issued + w.removed && |w.m.live| < MAX_SESSIONS
    ensures Run(w, es) && End(w, es).m == m' && End(w, es).up
  {
    es := [Insert(key, s, m'.table != w.m.table)];
    RunOne(w, es[0]);
  }

  lemma SignInRun(w: World, m': Mirror, user: nat, revision: nat, key: Key, now: int, cap: int, ok: bool)
      returns (es: seq<Event>)
    requires w.up && Finishes(w.m, m', user, revision, key, now, cap, ok)
    requires key !in w.issued + w.removed + w.m.live.Keys + w.m.table.Keys
    ensures Run(w, es) && End(w, es).m == m' && End(w, es).up
  {
    hide Opens, SeatAvailable, Can, After;
    var swept, sweptOk :| Sweeps(w.m, swept, now, sweptOk) &&
      if !sweptOk then !ok && m' == swept
      else if !SeatAvailable(swept.live, user, now, cap) then !ok && m' == swept
      else FinishesSeated(swept, m', user, revision, key, now, cap, ok);
    es := RemovalRun(w, swept, Gone(w.m.live, now), sweptOk);
    if sweptOk && SeatAvailable(swept.live, user, now, cap) && !(!ok && m' == swept) {
      var revoke := RevocationRun(End(w, es), user);
      RunAppend(w, es, revoke);
      es := es + revoke;
      var last := OpeningRun(End(w, es), m', user, revision, key, now, cap, ok);
      RunAppend(w, es, last);
      es := es + last;
    }
  }

  // ---------------------------------------------------------------- starting and renewing

  /** The startup cleanup keeps the rows that have not expired, all of them up to 4096 and the newest 4096 beyond. */
  lemma CleanedExactly(table: map<Key, Row>, at: int, kept: set<Key>)
    ensures var good := set k | k in table && at / 1_000_000_000 < table[k].expires;
            Newest(table, at, kept)
            <==> && kept <= good && (|good| <= 4096 ==> kept == good) && (|good| >= 4096 ==> |kept| == 4096)
                 && forall k, j :: k in kept && j in good - kept ==> table[j].created <= table[k].created
  {
    var good := set k | k in table && at / 1_000_000_000 < table[k].expires;
    assert good == Unexpired(table, at);
    if kept <= good {
      SubsetCardinality(kept, good);
      if k :| k in good && k !in kept {
        SubsetCardinality(kept, good - {k});
        assert good == (good - {k}) + {k};
      } else {
        assert kept == good;
      }
    }
  }

  /** A session in use is renewed when less than eleven of its twelve hours are left, to twelve from then; and the
      renewal reaches its row when that is next written. */
  lemma RenewalIsStored(w: World, key: Key, at: int)
    requires w.up && key in w.m.live && key in w.m.table && w.m.live[key].expires - at < 11 * 3600 * SECOND
    ensures var renew, touch := Renew(key, at, at), Touch(key, at + 12 * 3600 * SECOND, true);
            && Run(w, [renew, touch])
            && var r := End(w, [renew, touch]);
               && r.m.live == w.m.live[key := w.m.live[key].(expires := at + 12 * 3600 * SECOND)]
               && r.m.table == w.m.table[key := w.m.table[key].(expires := (at + 12 * 3600 * SECOND) / SECOND)]
               && r.up && r.touches == w.touches - {(key, at + 12 * 3600 * SECOND)}
  {
    var renew, touch := Renew(key, at, at), Touch(key, at + 12 * 3600 * SECOND, true);
    assert [renew, touch][1..] == [touch] && [touch][1..] == [];
    var s1 := After(w, renew);
    assert Can(w, renew) && Can(s1, touch);
    RunOne(s1, touch);
    assert s1.touches == w.touches + {(key, at + 12 * 3600 * SECOND)};
  }

  /** A row write that fails, or whose row is gone, changes no row; and no session is renewed that has more left. */
  lemma RenewedExactly(w: World, key: Key, at: int, checked: int, expires: int, ok: bool)
    requires w.up
    ensures Can(w, Renew(key, at, checked))
            <==> key in w.m.live && at <= checked <= at + 3600 * SECOND
                 && w.m.live[key].expires - checked < 11 * 3600 * SECOND
    ensures Can(w, Touch(key, expires, ok)) && (!ok || key !in w.m.table)
            ==> After(w, Touch(key, expires, ok)).m == w.m
  {
  }
}
