/** The agent sessions of a hub and the names they go by: who owns a name, and how many an account may have. */
module Registry {
  import opened Prelude

  /** A number stands for an account, whatever case its id is written in. */
  type Account = nat

  datatype Key = Key(project: nat, id: nat)

  /** What decides names, mail policy and limits; what a session says about its work is left aside. */
  datatype Session = Session(account: Account, name: string, run: bool, runId: Option<nat>, hold: bool,
                             lastSeen: int, online: bool)

  type Sessions = map<Key, Session>

  const SESSION_TTL := 90_000
  const OFFLINE_RETENTION := 86_400_000
  const MAX_SESSIONS_PER_ACTOR := 64
  const WEB := "web"
  const LAST_SUFFIX := 1000

  /** A heartbeat: base is the name it asks for (named) or the one made up from its folder. runId, when
      given, makes it a run's. */
  datatype Heartbeat = Heartbeat(key: Key, account: Account, base: string, named: bool, run: bool, runId: Option<nat>)

  datatype Reply = Ok(session: Session) | TooMany | AnotherActors | NotARuns | AnotherRuns

  predicate OfRun(hb: Heartbeat) {
    hb.run || hb.runId.Some?
  }

  // ---------------------------------------------------------------- what each part of a heartbeat does

  predicate Forgotten(s: Session, now: int) {
    s.lastSeen + SESSION_TTL < now - OFFLINE_RETENTION
  }

  function Refreshed(s: Session, now: int): Session {
    s.(online := s.lastSeen >= now - SESSION_TTL)
  }

  function Pruned(sessions: Sessions, now: int): Sessions {
    map k | k in sessions && !Forgotten(sessions[k], now) :: Refreshed(sessions[k], now)
  }

  /** k is another session of key's project. */
  predicate Other(sessions: Sessions, key: Key, k: Key) {
    k in sessions && k.project == key.project && k != key
  }

  predicate Holds(sessions: Sessions, key: Key, account: Account, k: Key) {
    Other(sessions, key, k) && (sessions[k].online || sessions[k].account != account)
  }

  predicate Known(sessions: Sessions, key: Key, base: string) {
    exists k :: k in sessions && Other(sessions, key, k) && SameFold(sessions[k].name, base)
  }

  /** The names, in lower case, that a session of account at key may not take. mailedOther: the newest mail
      for base went to another account. */
  function Held(sessions: Sessions, key: Key, account: Account, base: string, mailedOther: bool): set<string> {
    (set k | k in sessions && Holds(sessions, key, account, k) :: Lower(sessions[k].name)) + {WEB}
    + if mailedOther && !Known(sessions, key, base) then {Lower(base)} else {}
  }

  function Digits(n: nat): string {
    (if n < 10 then "" else Digits(n / 10)) + [(n % 10 + '0' as int) as char]
  }

  function Candidate(base: string, i: nat): string {
    base + "-" + Digits(i)
  }

  /** The first candidate from i on that is not held, or fallback when every one is. */
  function Pick(held: set<string>, base: string, i: nat, fallback: string): string
    requires i <= LAST_SUFFIX
    decreases LAST_SUFFIX - i
  {
    if i == LAST_SUFFIX then fallback
    else if Lower(Candidate(base, i)) !in held then Candidate(base, i)
    else Pick(held, base, i + 1, fallback)
  }

  function UniqueName(held: set<string>, base: string, fallback: string): string {
    if Lower(base) !in held then base else Pick(held, base, 2, fallback)
  }

  function Of(sessions: Sessions, project: nat, account: Account): set<Key> {
    set k | k in sessions && k.project == project && sessions[k].account == account
  }

  predicate OfflineLongest(sessions: Sessions, project: nat, account: Account, k: Key) {
    && k in Of(sessions, project, account) && !sessions[k].online
    && forall j :: j in Of(sessions, project, account) && !sessions[j].online
         ==> sessions[k].lastSeen <= sessions[j].lastSeen
  }

  ghost predicate MakesRoom(sessions: Sessions, sessions': Sessions, project: nat, account: Account, ok: bool) {
    if |Of(sessions, project, account)| < MAX_SESSIONS_PER_ACTOR then ok && sessions' == sessions
    else if ok then exists k :: OfflineLongest(sessions, project, account, k) && sessions' == sessions - {k}
    else sessions' == sessions && forall k :: k in Of(sessions, project, account) ==> sessions[k].online
  }

  /** k is an offline session whose name a new one of the same account takes over. */
  predicate TakesOver(sessions: Sessions, key: Key, account: Account, name: string, k: Key) {
    Other(sessions, key, k) && !sessions[k].online && SameFold(sessions[k].name, name) && sessions[k].account == account
  }

  ghost predicate Inherits(sessions: Sessions, key: Key, account: Account, name: string, hold: bool) {
    if exists k :: TakesOver(sessions, key, account, name, k)
    then exists k :: NewestTakenOver(sessions, key, account, name, k) && hold == sessions[k].hold
    else !hold
  }

  ghost predicate NewestTakenOver(sessions: Sessions, key: Key, account: Account, name: string, k: Key) {
    && TakesOver(sessions, key, account, name, k)
    && forall j :: TakesOver(sessions, key, account, name, j) ==> sessions[j].lastSeen <= sessions[k].lastSeen
  }

  function Joining(hb: Heartbeat, name: string, hold: bool, now: int): Session {
    Session(hb.account, name, OfRun(hb), hb.runId, hold, now, true)
  }

  /** Why a heartbeat may not speak for the session registered under its key. */
  function Refusal(s: Session, hb: Heartbeat): Option<Reply> {
    if s.account != hb.account then Some(AnotherActors)
    else if OfRun(hb) && !s.run then Some(NotARuns)
    else if s.runId.Some? && hb.runId.Some? && s.runId != hb.runId then Some(AnotherRuns)
    else None
  }

  function Refreshing(s: Session, hb: Heartbeat, name: string, now: int): Session {
    s.(runId := if s.runId == None && s.run then hb.runId else s.runId,
       name := if hb.named && hb.base != s.name then name else s.name,
       lastSeen := now, online := true)
  }

  ghost predicate Joins(sessions: Sessions, sessions': Sessions, hb: Heartbeat, name: string, now: int, reply: Reply) {
    exists room, ok, hold ::
      MakesRoom(sessions, room, hb.key.project, hb.account, ok) && Inherits(sessions, hb.key, hb.account, name, hold) &&
      if ok then reply == Ok(Joining(hb, name, hold, now)) && sessions' == room[hb.key := Joining(hb, name, hold, now)]
      else reply == TooMany && sessions' == room
  }

  /** A whole heartbeat: fallback is the name with a random ending, taken to be nobody's. */
  ghost predicate Touches(sessions: Sessions, sessions': Sessions, hb: Heartbeat, mailedOther: bool, fallback: string,
                          now: int, reply: Reply) {
    var pruned := Pruned(sessions, now);
    var held := Held(pruned, hb.key, hb.account, hb.base, mailedOther);
    var name := UniqueName(held, hb.base, fallback);
    if hb.key !in pruned then Joins(pruned, sessions', hb, name, now, reply)
    else match Refusal(pruned[hb.key], hb)
      case Some(refusal) => reply == refusal && sessions' == pruned
      case None =>
        reply == Ok(Refreshing(pruned[hb.key], hb, name, now)) && sessions' == pruned[hb.key := reply.session]
  }

  predicate FallbackIsFree(sessions: Sessions, hb: Heartbeat, mailedOther: bool, fallback: string, now: int) {
    Lower(fallback) !in Held(Pruned(sessions, now), hb.key, hb.account, hb.base, mailedOther)
  }

  function Left(s: Session, now: int): Session {
    s.(lastSeen := now - SESSION_TTL - 1, online := false)
  }

  predicate Leaves(sessions: Sessions, sessions': Sessions, key: Key, account: Account, now: int, ok: bool) {
    if key in sessions && sessions[key].account != account then !ok && sessions' == sessions
    else ok && sessions' == if key in sessions then sessions[key := Left(sessions[key], now)] else sessions
  }

  predicate SetsInbound(sessions: Sessions, sessions': Sessions, key: Key, caller: Account, admin: bool, hold: bool,
                        now: int, ok: bool) {
    var pruned := Pruned(sessions, now);
    if key in pruned && (admin || pruned[key].account == caller)
    then ok && sessions' == pruned[key := pruned[key].(hold := hold)]
    else !ok && sessions' == pruned
  }

  ghost predicate Step(sessions: Sessions, sessions': Sessions) {
    || (exists hb, mailedOther, fallback, now, reply ::
          FallbackIsFree(sessions, hb, mailedOther, fallback, now)
            && Touches(sessions, sessions', hb, mailedOther, fallback, now, reply))
    || (exists key, account, now, ok :: Leaves(sessions, sessions', key, account, now, ok))
    || (exists key, caller, admin, hold, now, ok :: SetsInbound(sessions, sessions', key, caller, admin, hold, now, ok))
    || (exists now :: sessions' == Pruned(sessions, now))
  }

  // ---------------------------------------------------------------- what every step keeps

  predicate OneOwner(sessions: Sessions, j: Key, k: Key) {
    (j in sessions && k in sessions && j.project == k.project && SameFold(sessions[j].name, sessions[k].name))
    ==> sessions[j].account == sessions[k].account
  }

  predicate NotWeb(sessions: Sessions, k: Key) {
    k in sessions ==> Lower(sessions[k].name) != WEB
  }

  ghost predicate NamesOwned(sessions: Sessions) {
    && (forall j, k :: OneOwner(sessions, j, k))
    && (forall k :: NotWeb(sessions, k))
  }

  ghost predicate WithinLimits(sessions: Sessions) {
    forall project, account :: |Of(sessions, project, account)| <= MAX_SESSIONS_PER_ACTOR
  }

  ghost predicate Sound(sessions: Sessions) {
    NamesOwned(sessions) && WithinLimits(sessions)
  }

  lemma {:induction false} PickIsFree(held: set<string>, base: string, i: nat, fallback: string)
    requires i <= LAST_SUFFIX && Lower(fallback) !in held
    ensures Lower(Pick(held, base, i, fallback)) !in held
    decreases LAST_SUFFIX - i
  {
    hide Lower, Candidate;
    if i < LAST_SUFFIX {
      PickIsFree(held, base, i + 1, fallback);
    }
  }

  lemma HoldersAreHeld(sessions: Sessions, key: Key, account: Account, base: string, mailedOther: bool, k: Key)
    requires k in sessions
    ensures Holds(sessions, key, account, k)
            ==> Lower(sessions[k].name) in Held(sessions, key, account, base, mailedOther)
  {
    hide Lower;
  }

  /** The name a session gets is nobody else's: no other account's session goes by it, online or not. */
  lemma UniqueNameIsFree(sessions: Sessions, key: Key, account: Account, base: string, mailedOther: bool,
                         fallback: string)
    requires Lower(fallback) !in Held(sessions, key, account, base, mailedOther)
    ensures var name := UniqueName(Held(sessions, key, account, base, mailedOther), base, fallback);
            && Lower(name) != WEB
            && (forall k :: Other(sessions, key, k) && SameFold(sessions[k].name, name)
                            ==> sessions[k].account == account && !sessions[k].online)
  {
    hide Lower, Pick;
    var held := Held(sessions, key, account, base, mailedOther);
    if Lower(base) in held {
      PickIsFree(held, base, 2, fallback);
    }
    var name := UniqueName(held, base, fallback);
    forall k | Other(sessions, key, k) && SameFold(sessions[k].name, name)
      ensures sessions[k].account == account && !sessions[k].online
    {
      HoldersAreHeld(sessions, key, account, base, mailedOther, k);
    }
  }

  /** Sessions that only go, or keep their account and name. */
  lemma FewerStaySound(sessions: Sessions, sessions': Sessions)
    requires Sound(sessions) && sessions'.Keys <= sessions.Keys
    requires forall k :: k in sessions'
               ==> sessions'[k].account == sessions[k].account && sessions'[k].name == sessions[k].name
    ensures Sound(sessions')
  {
    hide SameFold, Lower;
    forall j, k ensures OneOwner(sessions', j, k) { assert OneOwner(sessions, j, k); }
    forall k ensures NotWeb(sessions', k) { assert NotWeb(sessions, k); }
    forall project, account ensures |Of(sessions', project, account)| <= MAX_SESSIONS_PER_ACTOR {
      SubsetCardinality(Of(sessions', project, account), Of(sessions, project, account));
    }
  }

  lemma FewerNamesOwned(sessions: Sessions, sessions': Sessions)
    requires NamesOwned(sessions) && sessions'.Keys <= sessions.Keys
    requires forall k :: k in sessions'
               ==> sessions'[k].account == sessions[k].account && sessions'[k].name == sessions[k].name
    ensures NamesOwned(sessions')
  {
    hide SameFold, Lower;
    forall j, k ensures OneOwner(sessions', j, k) { assert OneOwner(sessions, j, k); }
    forall k ensures NotWeb(sessions', k) { assert NotWeb(sessions, k); }
  }

  /** A session under a free name fits among the others. */
  lemma NamedStaysOwned(sessions: Sessions, key: Key, s: Session)
    requires NamesOwned(sessions) && Lower(s.name) != WEB
    requires forall k :: Other(sessions, key, k) && SameFold(sessions[k].name, s.name)
               ==> sessions[k].account == s.account
    ensures NamesOwned(sessions[key := s])
  {
    hide Lower;
    var sessions' := sessions[key := s];
    forall j, k ensures OneOwner(sessions', j, k) {
      assert OneOwner(sessions, j, k);
      if j == key && k != key && k in sessions && k.project == key.project { assert Other(sessions, key, k); }
      if k == key && j != key && j in sessions && j.project == key.project { assert Other(sessions, key, j); }
    }
    forall k ensures NotWeb(sessions', k) { assert NotWeb(sessions, k); }
  }

  lemma JoinedCount(sessions: Sessions, room: Sessions, key: Key, s: Session, p: nat, a: Account)
    requires room.Keys <= sessions.Keys && forall k :: k in room ==> room[k] == sessions[k]
    requires |Of(sessions, p, a)| <= MAX_SESSIONS_PER_ACTOR
    requires p == key.project && a == s.account ==> |Of(room, p, a)| < MAX_SESSIONS_PER_ACTOR
    ensures |Of(room[key := s], p, a)| <= MAX_SESSIONS_PER_ACTOR
  {
    var more: set<Key> := if p == key.project && a == s.account then {key} else {};
    SubsetCardinality(Of(room[key := s], p, a), Of(room, p, a) + more);
    SubsetCardinality(Of(room, p, a), Of(sessions, p, a));
  }

  lemma JoinStaysWithinLimits(sessions: Sessions, room: Sessions, key: Key, s: Session)
    requires WithinLimits(sessions) && key !in sessions && MakesRoom(sessions, room, key.project, s.account, true)
    ensures WithinLimits(room[key := s])
  {
    hide MakesRoom;
    RoomIsMade(sessions, room, key.project, s.account);
    var joined := room[key := s];
    forall p, a ensures |Of(joined, p, a)| <= MAX_SESSIONS_PER_ACTOR {
      assert |Of(sessions, p, a)| <= MAX_SESSIONS_PER_ACTOR;
      JoinedCount(sessions, room, key, s, p, a);
    }
  }

  lemma RoomIsMade(sessions: Sessions, room: Sessions, project: nat, account: Account)
    requires MakesRoom(sessions, room, project, account, true)
    requires |Of(sessions, project, account)| <= MAX_SESSIONS_PER_ACTOR
    ensures |Of(room, project, account)| < MAX_SESSIONS_PER_ACTOR
    ensures room.Keys <= sessions.Keys && forall k :: k in room ==> room[k] == sessions[k]
  {
    if |Of(sessions, project, account)| >= MAX_SESSIONS_PER_ACTOR {
      var k :| OfflineLongest(sessions, project, account, k) && room == sessions - {k};
      assert Of(sessions, project, account) == Of(room, project, account) + {k};
    }
  }

  lemma JoinKeepsSound(sessions: Sessions, sessions': Sessions, hb: Heartbeat, name: string, now: int, reply: Reply)
    requires Sound(sessions) && hb.key !in sessions && Joins(sessions, sessions', hb, name, now, reply)
    requires Lower(name) != WEB
    requires forall k :: Other(sessions, hb.key, k) && SameFold(sessions[k].name, name)
               ==> sessions[k].account == hb.account
    ensures Sound(sessions')
  {
    hide NamesOwned, WithinLimits, Inherits, MakesRoom, SameFold, Lower;
    var room, ok, hold :|
      MakesRoom(sessions, room, hb.key.project, hb.account, ok) && Inherits(sessions, hb.key, hb.account, name, hold) &&
      if ok then reply == Ok(Joining(hb, name, hold, now)) && sessions' == room[hb.key := Joining(hb, name, hold, now)]
      else reply == TooMany && sessions' == room;
    if ok {
      JoinedIsSound(sessions, room, hb.key, Joining(hb, name, hold, now));
    } else {
      NoRoomNoChange(sessions, room, hb.key.project, hb.account);
    }
  }

  lemma NoRoomNoChange(sessions: Sessions, room: Sessions, project: nat, account: Account)
    requires MakesRoom(sessions, room, project, account, false)
    ensures room == sessions
  {
  }

  lemma JoinedIsSound(sessions: Sessions, room: Sessions, key: Key, s: Session)
    requires Sound(sessions) && key !in sessions && MakesRoom(sessions, room, key.project, s.account, true)
    requires Lower(s.name) != WEB
    requires forall k :: Other(sessions, key, k) && SameFold(sessions[k].name, s.name)
               ==> sessions[k].account == s.account
    ensures Sound(room[key := s])
  {
    hide NamesOwned, SameFold, Lower;
    assert |Of(sessions, key.project, s.account)| <= MAX_SESSIONS_PER_ACTOR;
    RoomIsMade(sessions, room, key.project, s.account);
    FewerNamesOwned(sessions, room);
    NamedStaysOwned(room, key, s);
    JoinStaysWithinLimits(sessions, room, key, s);
  }

  lemma PruneKeepsSound(sessions: Sessions, now: int)
    requires Sound(sessions)
    ensures Sound(Pruned(sessions, now))
  {
    hide Sound;
    FewerStaySound(sessions, Pruned(sessions, now));
  }

  lemma TouchKeepsSound(sessions: Sessions, sessions': Sessions, hb: Heartbeat, mailedOther: bool, fallback: string,
                        now: int, reply: Reply)
    requires Sound(sessions) && FallbackIsFree(sessions, hb, mailedOther, fallback, now)
    requires Touches(sessions, sessions', hb, mailedOther, fallback, now, reply)
    ensures Sound(sessions')
  {
    hide Sound, Held, UniqueName, Joins, SameFold, Lower, Pruned;
    var pruned := Pruned(sessions, now);
    PruneKeepsSound(sessions, now);
    UniqueNameIsFree(pruned, hb.key, hb.account, hb.base, mailedOther, fallback);
    var name := UniqueName(Held(pruned, hb.key, hb.account, hb.base, mailedOther), hb.base, fallback);
    if hb.key !in pruned {
      JoinKeepsSound(pruned, sessions', hb, name, now, reply);
    } else if Refusal(pruned[hb.key], hb) == None {
      RefreshKeepsSound(pruned, hb, name, now);
    }
  }

  lemma RefreshKeepsSound(sessions: Sessions, hb: Heartbeat, name: string, now: int)
    requires Sound(sessions) && hb.key in sessions && sessions[hb.key].account == hb.account
    requires Lower(name) != WEB
    requires forall k :: Other(sessions, hb.key, k) && SameFold(sessions[k].name, name)
               ==> sessions[k].account == hb.account
    ensures Sound(sessions[hb.key := Refreshing(sessions[hb.key], hb, name, now)])
  {
    hide NamesOwned, SameFold, Lower;
    var s := Refreshing(sessions[hb.key], hb, name, now);
    if s.name == sessions[hb.key].name {
      FewerStaySound(sessions, sessions[hb.key := s]);
    } else {
      NamedStaysOwned(sessions, hb.key, s);
      var sessions' := sessions[hb.key := s];
      forall p, a ensures |Of(sessions', p, a)| <= MAX_SESSIONS_PER_ACTOR {
        assert Of(sessions', p, a) == Of(sessions, p, a);
      }
    }
  }

  lemma StepKeepsSound(sessions: Sessions, sessions': Sessions)
    requires Sound(sessions) && Step(sessions, sessions')
    ensures Sound(sessions')
  {
    hide Sound, Touches, FallbackIsFree;
    if hb, mailedOther, fallback, now, reply :|
      FallbackIsFree(sessions, hb, mailedOther, fallback, now)
        && Touches(sessions, sessions', hb, mailedOther, fallback, now, reply)
    {
      TouchKeepsSound(sessions, sessions', hb, mailedOther, fallback, now, reply);
    } else {
      FewerStaySound(sessions, sessions');
    }
  }

  // ---------------------------------------------------------------- over whole runs

  ghost predicate Run(run: seq<Sessions>) {
    run != [] && run[0] == map[] && forall i :: 0 < i < |run| ==> Step(run[i - 1], run[i])
  }

  lemma {:induction false} RunIsSound(run: seq<Sessions>, i: nat)
    requires Run(run) && i < |run|
    ensures Sound(run[i])
  {
    hide Step;
    if i > 0 {
      RunIsSound(run, i - 1);
      StepKeepsSound(run[i - 1], run[i]);
    }
  }

  /** In every state reached, the sessions of a project that go by one name belong to one account, none goes
      by "web", and no account has more sessions in a project than its limit. */
  lemma NamesBelongToOneAccount(run: seq<Sessions>, i: nat, j: Key, k: Key)
    requires Run(run) && i < |run|
    ensures OneOwner(run[i], j, k) && NotWeb(run[i], k)
    ensures j in run[i] ==> |Of(run[i], j.project, run[i][j].account)| <= MAX_SESSIONS_PER_ACTOR
  {
    hide Step, Run, SameFold, Lower;
    RunIsSound(run, i);
    assert OneOwner(run[i], j, k) && NotWeb(run[i], k);
  }

  predicate GoesBy(sessions: Sessions, project: nat, name: string, k: Key) {
    k in sessions && k.project == project && SameFold(sessions[k].name, name)
  }

  /** What a search for name's holder that stops at the first match may answer. */
  ghost predicate MayAnswer(sessions: Sessions, project: nat, name: string, account: Account, answer: bool) {
    if exists k :: GoesBy(sessions, project, name, k)
    then exists k :: GoesBy(sessions, project, name, k) && answer == (sessions[k].account != account)
    else !answer
  }

  /** It answers the same whichever match comes first, and says whether any session by that name is another's. */
  lemma FirstMatchIsEnough(run: seq<Sessions>, i: nat, project: nat, name: string, account: Account, answer: bool)
    requires Run(run) && i < |run|
    ensures MayAnswer(run[i], project, name, account, answer)
            <==> answer == exists k :: GoesBy(run[i], project, name, k) && run[i][k].account != account
  {
    hide Step, Run, Lower;
    RunIsSound(run, i);
    SameFromAnyMatch(run[i], project, name, account, answer);
  }

  lemma SameFromAnyMatch(sessions: Sessions, project: nat, name: string, account: Account, answer: bool)
    requires NamesOwned(sessions)
    ensures MayAnswer(sessions, project, name, account, answer)
            <==> answer == exists k :: GoesBy(sessions, project, name, k) && sessions[k].account != account
  {
    hide Lower;
    if j :| GoesBy(sessions, project, name, j) {
      forall k | GoesBy(sessions, project, name, k) ensures sessions[k].account == sessions[j].account {
        assert OneOwner(sessions, j, k);
      }
      assert GoesBy(sessions, project, name, j) && (sessions[j].account != account
             <==> exists k :: GoesBy(sessions, project, name, k) && sessions[k].account != account);
    }
  }

  lemma HolderOf(sessions: Sessions, key: Key, account: Account, base: string, mailedOther: bool) returns (j: Key)
    requires Lower(base) in Held(sessions, key, account, base, mailedOther)
    requires Known(sessions, key, base) && Lower(base) != WEB
    ensures Holds(sessions, key, account, j) && SameFold(sessions[j].name, base)
  {
    hide Lower;
    j :| j in sessions && Holds(sessions, key, account, j) && Lower(sessions[j].name) == Lower(base);
  }

  /** A name is its account's for as long as any session of it is remembered: nobody else is given it, and
      the account is given it back once none of its own is online under it. */
  lemma NameIsKeptForItsAccount(sessions: Sessions, hb: Heartbeat, mailedOther: bool, fallback: string, k: Key)
    requires Sound(sessions) && Other(sessions, hb.key, k) && SameFold(sessions[k].name, hb.base)
    requires Lower(fallback) !in Held(sessions, hb.key, hb.account, hb.base, mailedOther)
    ensures var name := UniqueName(Held(sessions, hb.key, hb.account, hb.base, mailedOther), hb.base, fallback);
            if sessions[k].account != hb.account then !SameFold(name, hb.base)
            else name == hb.base
                 <==> forall j :: Other(sessions, hb.key, j) && SameFold(sessions[j].name, hb.base)
                        ==> !sessions[j].online
  {
    hide Pick, Lower;
    var held := Held(sessions, hb.key, hb.account, hb.base, mailedOther);
    UniqueNameIsFree(sessions, hb.key, hb.account, hb.base, mailedOther, fallback);
    assert Known(sessions, hb.key, hb.base);
    assert OneOwner(sessions, k, k);
    assert NotWeb(sessions, k);
    if sessions[k].account == hb.account && Lower(hb.base) in held {
      var j := HolderOf(sessions, hb.key, hb.account, hb.base, mailedOther);
      assert OneOwner(sessions, j, k);
    }
  }

  /** What binds a session: its account, whether it is a run's, and once it is one particular run's, which. */
  predicate SameBinding(s: Session, s': Session) {
    s'.account == s.account && s'.run == s.run && (s.runId.Some? ==> s'.runId == s.runId)
  }

  /** A heartbeat never changes it for any session still remembered. */
  lemma BindingsHold(sessions: Sessions, sessions': Sessions, hb: Heartbeat, mailedOther: bool, fallback: string,
                     now: int, reply: Reply, k: Key)
    requires Touches(sessions, sessions', hb, mailedOther, fallback, now, reply)
    requires k in sessions && !Forgotten(sessions[k], now) && k in sessions'
    ensures SameBinding(sessions[k], sessions'[k])
  {
    hide Held, UniqueName, SameFold, Inherits;
    var pruned := Pruned(sessions, now);
    assert k in pruned && SameBinding(sessions[k], pruned[k]);
    if hb.key !in pruned {
      var name := UniqueName(Held(pruned, hb.key, hb.account, hb.base, mailedOther), hb.base, fallback);
      var room, ok, hold :|
        MakesRoom(pruned, room, hb.key.project, hb.account, ok) && Inherits(pruned, hb.key, hb.account, name, hold) &&
        if ok then
          reply == Ok(Joining(hb, name, hold, now)) && sessions' == room[hb.key := Joining(hb, name, hold, now)]
        else reply == TooMany && sessions' == room;
    }
  }
}
