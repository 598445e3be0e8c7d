/** Sliding-window budgets: what a key may spend in a window, whatever else is charged, swept or refused. */
module Budgets {
  import opened Prelude

  /** A budget's key; what it counts is known by it. */
  type Key = nat

  /** limit events in any window, in nanoseconds. */
  datatype Rate = Rate(window: int, limit: nat)

  type Rates = Key -> Rate

  datatype Bucket = Bucket(at: seq<int>, touched: int)

  type Buckets = map<Key, Bucket>

  const SECOND := 1_000_000_000
  const IDLE := 300 * SECOND
  const HOUR := 3600 * SECOND
  const MAX_BUCKETS := 2048

  /** The times after now - window, in order. */
  function Recent(at: seq<int>, window: int, now: int): seq<int> {
    if at == [] then []
    else
      var last := at[|at| - 1];
      Recent(at[..|at| - 1], window, now) + if last > now - window then [last] else []
  }

  function At(b: Buckets, k: Key): seq<int> {
    if k in b then b[k].at else []
  }

  predicate HasBudget(b: Buckets, rates: Rates, k: Key, now: int) {
    |Recent(At(b, k), rates(k).window, now)| < rates(k).limit
  }

  predicate Allowed(b: Buckets, rates: Rates, keys: seq<Key>, now: int) {
    forall i :: 0 <= i < |keys| ==> HasBudget(b, rates, keys[i], now)
  }

  /** Looking at a key's budget forgets the times too old to count. */
  function Trimmed(b: Buckets, rates: Rates, k: Key, now: int): Buckets {
    if k in b then b[k := b[k].(at := Recent(b[k].at, rates(k).window, now))] else b
  }

  /** The keys looked at before the first with nothing left, that one included. */
  function TrimmedAll(b: Buckets, rates: Rates, keys: seq<Key>, now: int): Buckets {
    if keys == [] then b
    else if !HasBudget(b, rates, keys[0], now) then Trimmed(b, rates, keys[0], now)
    else TrimmedAll(Trimmed(b, rates, keys[0], now), rates, keys[1..], now)
  }

  function Swept(b: Buckets, now: int): Buckets {
    map k | k in b && !(b[k].touched < now - IDLE) :: b[k]
  }

  /** Room for one more bucket: the buckets idle longest are gone, if any had to go. */
  predicate MakesRoom(b: Buckets, room: Buckets, gone: set<Key>) {
    && room == b - gone && gone <= b.Keys
    && (if |b| < MAX_BUCKETS then gone == {} else |room| == MAX_BUCKETS - 1)
    && forall j, k :: j in gone && k in room ==> b[j].touched <= b[k].touched
  }

  ghost predicate Spends(b: Buckets, b': Buckets, k: Key, now: int, gone: set<Key>) {
    if k in b then gone == {} && b' == b[k := Bucket(b[k].at + [now], now)]
    else exists room :: MakesRoom(b, room, gone) && b' == room[k := Bucket([now], now)]
  }

  ghost predicate SpendsAll(b: Buckets, b': Buckets, keys: seq<Key>, now: int, gone: set<Key>)
    decreases |keys|
  {
    if keys == [] then gone == {} && b' == b
    else exists mid, first, rest ::
      Spends(b, mid, keys[0], now, first) && SpendsAll(mid, b', keys[1..], now, rest) && gone == first + rest
  }

  /** All or nothing: every budget is looked at before any is spent. */
  ghost predicate Charges(b: Buckets, b': Buckets, rates: Rates, keys: seq<Key>, now: int, gone: set<Key>, ok: bool) {
    && ok == Allowed(b, rates, keys, now)
    && if ok then SpendsAll(TrimmedAll(b, rates, keys, now), b', keys, now, gone)
       else gone == {} && b' == TrimmedAll(b, rates, keys, now)
  }

  // ---------------------------------------------------------------- runs

  /** log is history: every charge accepted for a key, in order; evicted, the keys that ever lost their
      bucket to make room. clock is the latest time seen. */
  datatype State = State(b: Buckets, clock: int, log: map<Key, seq<int>>, evicted: set<Key>)

  datatype Event = Sweep(now: int) | Charge(keys: seq<Key>, now: int)

  predicate Distinct(keys: seq<Key>) {
    forall i, j :: 0 <= i < j < |keys| ==> keys[i] != keys[j]
  }

  function Log(st: State, k: Key): seq<int> {
    if k in st.log then st.log[k] else []
  }

  function Logged(log: map<Key, seq<int>>, keys: seq<Key>, now: int): map<Key, seq<int>> {
    map k | k in log.Keys + (set j | j in keys) ::
      (if k in log then log[k] else []) + if k in keys then [now] else []
  }

  ghost predicate Step(st: State, st': State, rates: Rates, e: Event) {
    e.now >= st.clock && st'.clock == e.now &&
    match e
    case Sweep(now) => st' == State(Swept(st.b, now), now, st.log, st.evicted)
    case Charge(keys, now) =>
      Distinct(keys) &&
      exists b', gone, ok ::
        Charges(st.b, b', rates, keys, now, gone, ok) &&
        st' == State(b', now, if ok then Logged(st.log, keys, now) else st.log, st.evicted + gone)
  }

  ghost predicate Run(sts: seq<State>, rates: Rates, es: seq<Event>) {
    && |sts| == |es| + 1
    && sts[0].b == map[] && sts[0].log == map[] && sts[0].evicted == {}
    && forall i :: 0 <= i < |es| ==> Step(sts[i], sts[i + 1], rates, es[i])
  }

  // ---------------------------------------------------------------- recent times

  lemma {:induction false} RecentTwice(at: seq<int>, window: int, then_: int, now: int)
    requires then_ <= now
    ensures Recent(Recent(at, window, then_), window, now) == Recent(at, window, now)
  {
    if at != [] {
      RecentTwice(at[..|at| - 1], window, then_, now);
      var rest := Recent(at[..|at| - 1], window, then_);
      var last := at[|at| - 1];
      if last > then_ - window {
        assert (rest + [last])[..|rest|] == rest;
      } else {
        assert rest + [] == rest;
      }
    }
  }

  lemma RecentNext(at: seq<int>, window: int, now: int, t: int)
    ensures Recent(at + [t], window, now) == Recent(at, window, now) + if t > now - window then [t] else []
  {
    assert (at + [t])[..|at|] == at;
  }

  lemma {:induction false} RecentNone(at: seq<int>, window: int, now: int)
    requires forall i :: 0 <= i < |at| ==> at[i] <= now - window
    ensures Recent(at, window, now) == []
  {
    if at != [] {
      RecentNone(at[..|at| - 1], window, now);
    }
  }

  predicate Sorted(at: seq<int>) {
    forall i, j :: 0 <= i <= j < |at| ==> at[i] <= at[j]
  }

  /** In order of time, what counts is a suffix. */
  lemma {:induction false} RecentIsSuffix(at: seq<int>, window: int, now: int)
    requires Sorted(at)
    ensures var n := |Recent(at, window, now)|; n <= |at| && forall i :: 0 <= i < |at| - n ==> at[i] <= now - window
    ensures forall i :: |at| - |Recent(at, window, now)| <= i < |at| ==> at[i] > now - window
  {
    if at != [] {
      var less := at[..|at| - 1];
      RecentIsSuffix(less, window, now);
      if at[|at| - 1] > now - window {
        forall i | |less| - |Recent(less, window, now)| <= i < |less|
          ensures at[i] > now - window
        {
          assert less[i] == at[i];
        }
        forall i | 0 <= i < |less| - |Recent(less, window, now)|
          ensures at[i] <= now - window
        {
          assert less[i] == at[i];
        }
      } else {
        assert Recent(less, window, now) == [] by { RecentNone(less, window, now); }
      }
    }
  }

  /** Any limit charges are followed by the next no sooner than a window after the first of them. */
  predicate Spaced(at: seq<int>, r: Rate) {
    forall i :: r.limit <= i < |at| ==> at[i - r.limit] <= at[i] - r.window
  }

  /** So no window holds more than limit of them: m is how many came up to t. */
  lemma SpacedIsWithinLimit(at: seq<int>, r: Rate, m: nat, t: int)
    requires Sorted(at) && Spaced(at, r) && m <= |at| && forall i :: 0 <= i < m ==> at[i] <= t
    ensures |Recent(at[..m], r.window, t)| <= r.limit
  {
    RecentIsSuffix(at[..m], r.window, t);
    if r.limit < m {
      assert at[m - 1 - r.limit] <= at[m - 1] - r.window <= t - r.window;
      assert at[..m][m - 1 - r.limit] == at[m - 1 - r.limit];
    }
  }

  // ---------------------------------------------------------------- one key

  /** What a key's bucket says of it, whenever it is next looked at. */
  ghost predicate Agrees(b: Buckets, k: Key, log: seq<int>, window: int, clock: int) {
    forall now :: now >= clock ==> Recent(At(b, k), window, now) == Recent(log, window, now)
  }

  ghost predicate KeySound(st: State, rates: Rates, k: Key) {
    k !in st.evicted ==>
      var log := Log(st, k);
      && Sorted(log) && (forall i :: 0 <= i < |log| ==> log[i] <= st.clock)
      && (k in st.b ==> st.b[k].touched <= st.clock && forall i :: 0 <= i < |log| ==> log[i] <= st.b[k].touched)
      && Agrees(st.b, k, log, rates(k).window, st.clock)
      && Spaced(log, rates(k))
  }

  /** A window the sweep cannot cut short: a bucket is forgotten only once it has been idle longer. */
  predicate Lasting(r: Rate) {
    0 < r.window <= IDLE + 1
  }

  lemma TrimKeepsAgrees(b: Buckets, rates: Rates, j: Key, k: Key, log: seq<int>, clock: int, now: int)
    requires clock <= now && Agrees(b, k, log, rates(k).window, clock)
    ensures Agrees(Trimmed(b, rates, j, now), k, log, rates(k).window, now)
    ensures k in b <==> k in Trimmed(b, rates, j, now)
    ensures k in b ==> Trimmed(b, rates, j, now)[k].touched == b[k].touched
  {
    var b' := Trimmed(b, rates, j, now);
    forall later | later >= now
      ensures Recent(At(b', k), rates(k).window, later) == Recent(log, rates(k).window, later)
    {
      if j == k && k in b { RecentTwice(b[k].at, rates(k).window, now, later); }
    }
  }

  lemma {:induction false} TrimAllKeepsAgrees(b: Buckets, rates: Rates, keys: seq<Key>, k: Key, log: seq<int>,
                                              clock: int, now: int)
    requires clock <= now && Agrees(b, k, log, rates(k).window, clock)
    ensures Agrees(TrimmedAll(b, rates, keys, now), k, log, rates(k).window, now)
    ensures k in b <==> k in TrimmedAll(b, rates, keys, now)
    ensures k in b ==> TrimmedAll(b, rates, keys, now)[k].touched == b[k].touched
    decreases |keys|
  {
    hide Agrees, Trimmed, HasBudget;
    if keys == [] {
      LaterAgrees(b, k, log, rates(k).window, clock, now);
    } else {
      TrimKeepsAgrees(b, rates, keys[0], k, log, clock, now);
      if HasBudget(b, rates, keys[0], now) {
        TrimAllKeepsAgrees(Trimmed(b, rates, keys[0], now), rates, keys[1..], k, log, now, now);
      }
    }
  }

  lemma LaterAgrees(b: Buckets, k: Key, log: seq<int>, window: int, clock: int, now: int)
    requires clock <= now && Agrees(b, k, log, window, clock)
    ensures Agrees(b, k, log, window, now)
  {
  }

  /** What spending does to one key that keeps its bucket. */
  lemma SpendEffect(b: Buckets, b': Buckets, j: Key, now: int, gone: set<Key>, k: Key)
    requires Spends(b, b', j, now, gone) && k !in gone
    ensures At(b', k) == At(b, k) + if k == j then [now] else []
    ensures k in b' <==> k in b || k == j
    ensures k in b' ==> b'[k].touched == if k == j then now else b[k].touched
  {
  }

  lemma {:induction false} SpendAllEffect(b: Buckets, b': Buckets, keys: seq<Key>, now: int, gone: set<Key>, k: Key)
    requires SpendsAll(b, b', keys, now, gone) && k !in gone && Distinct(keys)
    ensures At(b', k) == At(b, k) + if k in keys then [now] else []
    ensures k in b' <==> k in b || k in keys
    ensures k in b' ==> b'[k].touched == if k in keys then now else b[k].touched
    decreases |keys|
  {
    hide Spends, At;
    if keys != [] {
      var mid, first, rest :|
        Spends(b, mid, keys[0], now, first) && SpendsAll(mid, b', keys[1..], now, rest) && gone == first + rest;
      SpendEffect(b, mid, keys[0], now, first, k);
      SpendAllEffect(mid, b', keys[1..], now, rest, k);
      assert keys == [keys[0]] + keys[1..];
    } else {
      assert At(b, k) + [] == At(b, k);
    }
  }

  lemma SweepKeepsKey(st: State, st': State, rates: Rates, now: int, k: Key)
    requires KeySound(st, rates, k) && Lasting(rates(k)) && Step(st, st', rates, Sweep(now))
    ensures KeySound(st', rates, k)
  {
    var log, window := Log(st, k), rates(k).window;
    if k !in st.evicted {
      forall later | later >= now ensures Recent(At(st'.b, k), window, later) == Recent(log, window, later) {
        if k in st.b && k !in st'.b {
          RecentNone(log, window, later);
        }
      }
    }
  }

  /** A charge within the budget keeps the log spaced. */
  lemma ChargeKeepsSpaced(log: seq<int>, r: Rate, now: int)
    requires Sorted(log) && Spaced(log, r) && |Recent(log, r.window, now)| < r.limit
    requires forall i :: 0 <= i < |log| ==> log[i] <= now
    ensures Sorted(log + [now]) && Spaced(log + [now], r)
  {
    RecentIsSuffix(log, r.window, now);
  }

  lemma ChargeKeepsKey(st: State, st': State, rates: Rates, keys: seq<Key>, now: int, k: Key)
    requires KeySound(st, rates, k) && Lasting(rates(k)) && Step(st, st', rates, Charge(keys, now))
    ensures KeySound(st', rates, k)
  {
    hide Charges, KeySound, Logged;
    var b', gone, ok :|
      Charges(st.b, b', rates, keys, now, gone, ok) &&
      st' == State(b', now, if ok then Logged(st.log, keys, now) else st.log, st.evicted + gone);
    if ok {
      AcceptedKeepsKey(st, st', rates, keys, now, gone, k);
    } else {
      RefusedKeepsKey(st, st', rates, keys, now, gone, k);
    }
  }

  lemma RefusedKeepsKey(st: State, st': State, rates: Rates, keys: seq<Key>, now: int, gone: set<Key>, k: Key)
    requires KeySound(st, rates, k) && now >= st.clock && Charges(st.b, st'.b, rates, keys, now, gone, false)
    requires st' == State(st'.b, now, st.log, st.evicted + gone)
    ensures KeySound(st', rates, k)
  {
    hide TrimmedAll, Allowed, Sorted, Spaced, Agrees;
    if k !in st'.evicted {
      TrimAllKeepsAgrees(st.b, rates, keys, k, Log(st, k), st.clock, now);
    }
  }

  lemma AcceptedKeepsKey(st: State, st': State, rates: Rates, keys: seq<Key>, now: int, gone: set<Key>, k: Key)
    requires KeySound(st, rates, k) && now >= st.clock && Distinct(keys)
    requires Charges(st.b, st'.b, rates, keys, now, gone, true)
    requires st' == State(st'.b, now, Logged(st.log, keys, now), st.evicted + gone)
    ensures KeySound(st', rates, k)
  {
    hide SpendsAll, TrimmedAll, Sorted, Spaced, Agrees, Logged;
    var log, window := Log(st, k), rates(k).window;
    LogGrows(st, st', keys, now, k);
    if k !in st'.evicted {
      TrimAllKeepsAgrees(st.b, rates, keys, k, log, st.clock, now);
      var mid := TrimmedAll(st.b, rates, keys, now);
      SpendAllEffect(mid, st'.b, keys, now, gone, k);
      if k in keys {
        BudgetLeft(st, rates, keys, now, k);
        ChargeKeepsSpaced(log, rates(k), now);
        SpentAgrees(mid, st'.b, k, log, window, now);
      } else {
        SameAgrees(mid, st'.b, k, log, window, now);
      }
    }
  }

  lemma LogGrows(st: State, st': State, keys: seq<Key>, now: int, k: Key)
    requires st'.log == Logged(st.log, keys, now)
    ensures Log(st', k) == if k in keys then Log(st, k) + [now] else Log(st, k)
  {
    assert Log(st, k) + [] == Log(st, k);
  }

  lemma BudgetLeft(st: State, rates: Rates, keys: seq<Key>, now: int, k: Key)
    requires Allowed(st.b, rates, keys, now) && k in keys && now >= st.clock
    requires Agrees(st.b, k, Log(st, k), rates(k).window, st.clock)
    ensures |Recent(Log(st, k), rates(k).window, now)| < rates(k).limit
  {
    hide Recent;
    var i :| 0 <= i < |keys| && keys[i] == k;
    assert HasBudget(st.b, rates, keys[i], now);
  }

  lemma SameAgrees(b: Buckets, b': Buckets, k: Key, log: seq<int>, window: int, now: int)
    requires Agrees(b, k, log, window, now) && At(b', k) == At(b, k) + []
    ensures Agrees(b', k, log, window, now)
  {
    assert At(b, k) + [] == At(b, k);
  }

  lemma SpentAgrees(b: Buckets, b': Buckets, k: Key, log: seq<int>, window: int, now: int)
    requires Agrees(b, k, log, window, now) && At(b', k) == At(b, k) + [now]
    ensures Agrees(b', k, log + [now], window, now)
  {
    forall later | later >= now ensures Recent(At(b', k), window, later) == Recent(log + [now], window, later) {
      RecentNext(At(b, k), window, later, now);
      RecentNext(log, window, later, now);
    }
  }

  // ---------------------------------------------------------------- over whole runs

  lemma {:induction false} RunKeepsKey(sts: seq<State>, rates: Rates, es: seq<Event>, i: nat, k: Key)
    requires Run(sts, rates, es) && i < |sts| && Lasting(rates(k))
    ensures KeySound(sts[i], rates, k)
  {
    hide KeySound, Step;
    if i == 0 {
      FreshIsSound(sts[0], rates, k);
    } else {
      RunKeepsKey(sts, rates, es, i - 1, k);
      assert Step(sts[i - 1], sts[i - 1 + 1], rates, es[i - 1]);
      match es[i - 1]
      case Sweep(now) => SweepKeepsKey(sts[i - 1], sts[i], rates, now, k);
      case Charge(keys, now) => ChargeKeepsKey(sts[i - 1], sts[i], rates, keys, now, k);
    }
  }

  lemma FreshIsSound(st: State, rates: Rates, k: Key)
    requires st.b == map[] && st.log == map[] && st.evicted == {}
    ensures KeySound(st, rates, k)
  {
  }

  /** No window of a key's length ever holds more accepted charges than its limit, while the key keeps its
      bucket and the window is no longer than a bucket may stand idle. m is how many came up to t. */
  lemma NoWindowOverLimit(sts: seq<State>, rates: Rates, es: seq<Event>, k: Key, m: nat, t: int)
    requires Run(sts, rates, es) && Lasting(rates(k)) && k !in sts[|es|].evicted
    requires m <= |Log(sts[|es|], k)| && forall i :: 0 <= i < m ==> Log(sts[|es|], k)[i] <= t
    ensures |Recent(Log(sts[|es|], k)[..m], rates(k).window, t)| <= rates(k).limit
  {
    RunKeepsKey(sts, rates, es, |es|, k);
    SpacedIsWithinLimit(Log(sts[|es|], k), rates(k), m, t);
  }

  lemma RoomCount(b: Buckets, room: Buckets, gone: set<Key>, k: Key, v: Bucket)
    requires MakesRoom(b, room, gone)
    ensures |room[k := v]| <= MAX_BUCKETS
  {
    assert room[k := v].Keys == room.Keys + {k};
    assert |room[k := v]| == |room[k := v].Keys| && |room| == |room.Keys|;
  }

  lemma {:induction false} SpendAllWithinCap(b: Buckets, b': Buckets, keys: seq<Key>, now: int, gone: set<Key>)
    requires SpendsAll(b, b', keys, now, gone) && |b| <= MAX_BUCKETS
    ensures |b'| <= MAX_BUCKETS
    decreases |keys|
  {
    hide MakesRoom;
    if keys != [] {
      var mid, first, rest :|
        Spends(b, mid, keys[0], now, first) && SpendsAll(mid, b', keys[1..], now, rest) && gone == first + rest;
      if keys[0] in b {
        assert mid.Keys == b.Keys && |mid| == |mid.Keys| && |b| == |b.Keys|;
      } else {
        var room :| MakesRoom(b, room, first) && mid == room[keys[0] := Bucket([now], now)];
        RoomCount(b, room, first, keys[0], Bucket([now], now));
      }
      SpendAllWithinCap(mid, b', keys[1..], now, rest);
    }
  }

  lemma {:induction false} TrimAllKeys(b: Buckets, rates: Rates, keys: seq<Key>, now: int)
    ensures TrimmedAll(b, rates, keys, now).Keys == b.Keys
    decreases |keys|
  {
    hide HasBudget;
    if keys != [] {
      assert Trimmed(b, rates, keys[0], now).Keys == b.Keys;
      TrimAllKeys(Trimmed(b, rates, keys[0], now), rates, keys[1..], now);
    }
  }

  /** There are never more buckets than the cap. */
  lemma {:induction false} BucketsAreCapped(sts: seq<State>, rates: Rates, es: seq<Event>, i: nat)
    requires Run(sts, rates, es) && i < |sts|
    ensures |sts[i].b| <= MAX_BUCKETS
  {
    hide SpendsAll, TrimmedAll, Allowed;
    if i > 0 {
      BucketsAreCapped(sts, rates, es, i - 1);
      var st := sts[i - 1];
      assert Step(st, sts[i - 1 + 1], rates, es[i - 1]);
      assert |st.b| == |st.b.Keys| && |sts[i].b| == |sts[i].b.Keys|;
      match es[i - 1]
      case Sweep(now) => SubsetCardinality(sts[i].b.Keys, st.b.Keys);
      case Charge(keys, now) =>
        var b', gone, ok :| Charges(st.b, b', rates, keys, now, gone, ok) && sts[i].b == b';
        var mid := TrimmedAll(st.b, rates, keys, now);
        TrimAllKeys(st.b, rates, keys, now);
        assert |mid| == |mid.Keys|;
        if ok { SpendAllWithinCap(mid, b', keys, now, gone); }
    }
  }

  /** A refused call spends nothing: every key is left what it had, whenever it is looked at next. */
  lemma RefusedSpendsNothing(b: Buckets, b': Buckets, rates: Rates, keys: seq<Key>, now: int, gone: set<Key>, k: Key)
    requires Charges(b, b', rates, keys, now, gone, false)
    ensures gone == {} && (k in b <==> k in b') && (k in b ==> b'[k].touched == b[k].touched)
    ensures forall later :: later >= now
              ==> Recent(At(b', k), rates(k).window, later) == Recent(At(b, k), rates(k).window, later)
  {
    assert Agrees(b, k, At(b, k), rates(k).window, now);
    TrimAllKeepsAgrees(b, rates, keys, k, At(b, k), now, now);
  }

  /** Room is made only when there are 2048 buckets or more, by letting go as many as leaves 2047: none that was
      touched later than one that stays. */
  lemma RoomExactly(b: Buckets, room: Buckets, gone: set<Key>)
    requires MakesRoom(b, room, gone)
    ensures room == b - gone && gone <= b.Keys && (|b| < 2048 <==> gone == {}) && (|b| >= 2048 ==> |room| == 2047)
    ensures forall j, k :: j in gone && k in room ==> b[j].touched <= b[k].touched
  {
    if gone == {} {
      assert b - gone == b;
    }
  }

  // ---------------------------------------------------------------- a window longer than a bucket may stand idle

  function Zeros(n: nat): seq<int> {
    seq(n, i => 0)
  }

  lemma {:induction false} ZerosAreRecent(n: nat, window: int, now: int)
    requires 0 > now - window
    ensures Recent(Zeros(n), window, now) == Zeros(n)
  {
    if n > 0 {
      ZerosAreRecent(n - 1, window, now);
      assert Zeros(n)[..n - 1] == Zeros(n - 1);
    }
  }

  /** n charges of one key, all at time 0. */
  function Filled(k: Key, n: nat): State {
    State(if n == 0 then map[] else map[k := Bucket(Zeros(n), 0)], 0, if n == 0 then map[] else map[k := Zeros(n)], {})
  }

  lemma NothingTrimmed(b: Buckets, rates: Rates, k: Key, now: int)
    requires Recent(At(b, k), rates(k).window, now) == At(b, k) && HasBudget(b, rates, k, now)
    ensures TrimmedAll(b, rates, [k], now) == b
  {
    assert [k][1..] == [] && Trimmed(b, rates, k, now) == b;
    assert TrimmedAll(b, rates, [k], now) == TrimmedAll(Trimmed(b, rates, k, now), rates, [k][1..], now);
  }

  lemma FillOne(rates: Rates, k: Key, n: nat)
    requires rates(k).window > 0 && n < rates(k).limit
    ensures Step(Filled(k, n), Filled(k, n + 1), rates, Charge([k], 0))
  {
    hide TrimmedAll, Recent, SpendsAll;
    var st, st' := Filled(k, n), Filled(k, n + 1);
    ZerosAreRecent(n, rates(k).window, 0);
    assert At(st.b, k) == Zeros(n);
    assert HasBudget(st.b, rates, k, 0) && Allowed(st.b, rates, [k], 0);
    NothingTrimmed(st.b, rates, k, 0);
    FillSpends(k, n);
    OneSpent(st.b, st'.b, k, 0);
    assert Charges(st.b, st'.b, rates, [k], 0, {}, true);
    FillLogged(k, n);
  }

  lemma FillSpends(k: Key, n: nat)
    ensures Spends(Filled(k, n).b, Filled(k, n + 1).b, k, 0, {})
  {
    assert Zeros(n + 1) == Zeros(n) + [0];
    if n == 0 {
      var room: Buckets := map[];
      assert Zeros(1) == [0];
      assert MakesRoom(room, room, {}) && Filled(k, 1).b == room[k := Bucket([0], 0)];
    }
  }

  lemma FillLogged(k: Key, n: nat)
    ensures Logged(Filled(k, n).log, [k], 0) == Filled(k, n + 1).log
  {
    assert Zeros(n + 1) == Zeros(n) + [0];
  }

  lemma OneSpent(b: Buckets, b': Buckets, k: Key, now: int)
    requires Spends(b, b', k, now, {})
    ensures SpendsAll(b, b', [k], now, {})
  {
    assert [k][1..] == [];
    assert SpendsAll(b', b', [k][1..], now, {});
    var none: set<Key> := {};
    assert Spends(b, b', [k][0], now, none) && none == none + none;
  }

  lemma {:induction false} Fill(rates: Rates, k: Key, n: nat) returns (sts: seq<State>, es: seq<Event>)
    requires rates(k).window > 0 && n <= rates(k).limit
    ensures Run(sts, rates, es) && sts[|es|] == Filled(k, n)
  {
    if n == 0 {
      sts, es := [Filled(k, 0)], [];
    } else {
      sts, es := Fill(rates, k, n - 1);
      FillOne(rates, k, n - 1);
      ExtendRun(sts, rates, es, Filled(k, n), Charge([k], 0));
      sts, es := sts + [Filled(k, n)], es + [Charge([k], 0)];
    }
  }

  lemma ExtendRun(sts: seq<State>, rates: Rates, es: seq<Event>, st: State, e: Event)
    requires Run(sts, rates, es) && Step(sts[|es|], st, rates, e)
    ensures Run(sts + [st], rates, es + [e])
  {
    hide Step;
    var sts', es' := sts + [st], es + [e];
    forall i | 0 <= i < |es'| ensures Step(sts'[i], sts'[i + 1], rates, es'[i]) {
      if i < |es| { assert Step(sts[i], sts[i + 1], rates, es[i]); }
    }
  }

  /** A budget whose window is longer does not hold: the sweep forgets a bucket idle for IDLE, and the
      charges in it while they still count. */
  lemma ForgottenTooSoon(rates: Rates, k: Key) returns (sts: seq<State>, es: seq<Event>)
    requires rates(k).window > IDLE + 1 && rates(k).limit > 0
    ensures Run(sts, rates, es) && sts[|es|].evicted == {}
    ensures |Recent(Log(sts[|es|], k), rates(k).window, IDLE + 1)| == rates(k).limit + 1
  {
    hide Step;
    var n, now := rates(k).limit, IDLE + 1;
    sts, es := Fill(rates, k, n);
    SweptEmpty(rates, k, n);
    ExtendRun(sts, rates, es, Emptied(k, n), Sweep(now));
    sts, es := sts + [Emptied(k, n)], es + [Sweep(now)];
    ChargedAgain(rates, k, n);
    ExtendRun(sts, rates, es, Again(k, n), Charge([k], now));
    sts, es := sts + [Again(k, n)], es + [Charge([k], now)];
    ZerosAreRecent(n, rates(k).window, now);
    RecentNext(Zeros(n), rates(k).window, now, now);
  }

  function Emptied(k: Key, n: nat): State {
    State(map[], IDLE + 1, Filled(k, n).log, {})
  }

  function Again(k: Key, n: nat): State {
    State(map[k := Bucket([IDLE + 1], IDLE + 1)], IDLE + 1, map[k := Zeros(n) + [IDLE + 1]], {})
  }

  lemma SweptEmpty(rates: Rates, k: Key, n: nat)
    ensures Step(Filled(k, n), Emptied(k, n), rates, Sweep(IDLE + 1))
  {
    assert Swept(Filled(k, n).b, IDLE + 1) == map[];
  }

  lemma ChargedAgain(rates: Rates, k: Key, n: nat)
    requires rates(k).limit > 0 && n > 0
    ensures Step(Emptied(k, n), Again(k, n), rates, Charge([k], IDLE + 1))
  {
    hide Charges;
    FirstCharge(rates, k, IDLE + 1);
    assert Logged(Emptied(k, n).log, [k], IDLE + 1) == Again(k, n).log by { hide Recent; }
  }

  /** The first charge of a key, with no buckets there. */
  lemma FirstCharge(rates: Rates, k: Key, now: int)
    requires rates(k).limit > 0
    ensures Charges(map[], map[k := Bucket([now], now)], rates, [k], now, {}, true)
  {
    hide TrimmedAll, SpendsAll, Recent;
    var none: Buckets := map[];
    var one: Buckets := map[k := Bucket([now], now)];
    NothingRecent(rates(k).window, now);
    NothingTrimmed(none, rates, k, now);
    assert MakesRoom(none, none, {}) && one == none[k := Bucket([now], now)];
    OneSpent(none, one, k, now);
  }

  lemma NothingRecent(window: int, now: int)
    ensures Recent([], window, now) == []
  {
  }
}
