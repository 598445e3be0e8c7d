/** Thirteen passcodes in an hour for an address whose budget is twelve: requests as the server charges them. */
module HourlyPasscodes {
  import opened Prelude
  import opened Budgets

  const MINUTE := 60 * SECOND
  const COOLDOWN := 30 * SECOND
  const A_MINUTE := Rate(MINUTE, 3)
  const AN_HOUR := Rate(HOUR, 12)

  /** Twelve requests as soon as the cooldown lets them, and one after every bucket has stood idle. */
  function Asked(i: int): int {
    if i < 12 then i * COOLDOWN else 11 * COOLDOWN + IDLE + 1
  }

  function Times(n: nat): seq<int> {
    seq(n, i => Asked(i))
  }

  /** What is left of them in the minute's bucket. */
  function LastTwo(n: nat): seq<int> {
    if n < 2 then Times(n) else [Asked(n - 2), Asked(n - 1)]
  }

  /** After n requests, the bucket of the address's minute and that of its hour. */
  function Held(minute: Key, hour: Key, n: nat): Buckets {
    if n == 0 then map[]
    else if n > 12 then
      map[minute := Bucket([Asked(n - 1)], Asked(n - 1)), hour := Bucket([Asked(n - 1)], Asked(n - 1))]
    else
      map[minute := Bucket(LastTwo(n), Asked(n - 1)), hour := Bucket(Times(n), Asked(n - 1))]
  }

  function Charged(minute: Key, hour: Key, n: nat): map<Key, seq<int>> {
    if n == 0 then map[] else map[minute := Times(n), hour := Times(n)]
  }

  function After(minute: Key, hour: Key, n: nat): State {
    State(Held(minute, hour, n), if n == 0 then 0 else Asked(n - 1), Charged(minute, hour, n), {})
  }

  ghost predicate Passcodes(rates: Rates, minute: Key, hour: Key) {
    minute != hour && rates(minute) == A_MINUTE && rates(hour) == AN_HOUR
  }

  /** Every request sweeps the buckets first, and then charges the minute and the hour together. */
  ghost predicate Requests(es: seq<Event>, minute: Key, hour: Key, n: nat) {
    && |es| == 2 * n
    && (forall i :: 0 <= i < n ==> es[2 * i] == Sweep(Asked(i)))
    && (forall i :: 0 <= i < n ==> es[2 * i + 1] == Charge([minute, hour], Asked(i)))
  }

  // ---------------------------------------------------------------- one request

  lemma {:induction false} TimesAreRecent(n: nat, now: int)
    requires n <= 12 && now < HOUR
    ensures Recent(Times(n), HOUR, now) == Times(n)
  {
    if n > 0 {
      TimesAreRecent(n - 1, now);
      assert Times(n)[..n - 1] == Times(n - 1);
    }
  }

  lemma OneRecent(t: int, now: int)
    ensures Recent([t], MINUTE, now) == if t > now - MINUTE then [t] else []
  {
    NothingRecent(MINUTE, now);
    RecentNext([], MINUTE, now, t);
    assert [] + [t] == [t];
  }

  lemma TwoRecent(earlier: int, t: int, now: int)
    requires earlier <= now - MINUTE < t
    ensures Recent([earlier, t], MINUTE, now) == [t]
  {
    hide Recent;
    OneRecent(earlier, now);
    RecentNext([earlier], MINUTE, now, t);
    assert [earlier] + [t] == [earlier, t] && [] + [t] == [t];
  }

  lemma MinuteIsRecent(n: nat)
    requires 0 < n < 12
    ensures Recent(LastTwo(n), MINUTE, Asked(n)) == [Asked(n - 1)]
  {
    hide Recent;
    if n >= 2 {
      TwoRecent(Asked(n - 2), Asked(n - 1), Asked(n));
    } else {
      assert Times(1) == [Asked(0)];
      OneRecent(Asked(0), Asked(1));
    }
  }

  /** Two keys, both with budget left. */
  lemma BothTrimmed(b: Buckets, rates: Rates, j: Key, k: Key, now: int)
    requires j != k && HasBudget(b, rates, j, now) && HasBudget(b, rates, k, now)
    ensures TrimmedAll(b, rates, [j, k], now) == Trimmed(Trimmed(b, rates, j, now), rates, k, now)
    ensures Allowed(b, rates, [j, k], now)
  {
    hide Recent;
    var b1 := Trimmed(b, rates, j, now);
    assert At(b1, k) == At(b, k);
    var b2 := Trimmed(b1, rates, k, now);
    assert TrimmedAll(b2, rates, [], now) == b2;
    assert [k][1..] == [];
    assert TrimmedAll(b1, rates, [k], now) == b2;
    assert [j, k][1..] == [k];
  }

  lemma BothSpent(b: Buckets, mid: Buckets, b': Buckets, j: Key, k: Key, now: int)
    requires Spends(b, mid, j, now, {}) && Spends(mid, b', k, now, {})
    ensures SpendsAll(b, b', [j, k], now, {})
  {
    hide Spends;
    OneSpent(mid, b', k, now);
    assert [j, k][1..] == [k];
    var none: set<Key> := {};
    assert Spends(b, mid, [j, k][0], now, none) && SpendsAll(mid, b', [j, k][1..], now, none) && none == none + none;
  }

  lemma KeySpends(b: Buckets, k: Key, now: int)
    requires |b| < MAX_BUCKETS
    ensures Spends(b, b[k := Bucket(At(b, k) + [now], now)], k, now, {})
  {
    if k !in b {
      assert MakesRoom(b, b, {}) && [] + [now] == [now];
    }
  }

  lemma BothCharged(b: Buckets, rates: Rates, j: Key, k: Key, now: int)
    requires j != k && HasBudget(b, rates, j, now) && HasBudget(b, rates, k, now) && b.Keys <= {j, k}
    ensures var left := b[j := Bucket(Recent(At(b, j), rates(j).window, now) + [now], now)];
            Charges(b, left[k := Bucket(Recent(At(b, k), rates(k).window, now) + [now], now)], rates, [j, k], now,
                    {}, true)
  {
    hide Recent, Spends, SpendsAll, TrimmedAll, MakesRoom;
    BothTrimmed(b, rates, j, k, now);
    var t := Trimmed(Trimmed(b, rates, j, now), rates, k, now);
    FewBuckets(t, j, k);
    KeySpends(t, j, now);
    var mid := t[j := Bucket(At(t, j) + [now], now)];
    FewBuckets(mid, j, k);
    KeySpends(mid, k, now);
    var b' := mid[k := Bucket(At(mid, k) + [now], now)];
    BothSpent(t, mid, b', j, k, now);
    NothingRecent(rates(j).window, now);
    NothingRecent(rates(k).window, now);
    assert b' == b[j := Bucket(Recent(At(b, j), rates(j).window, now) + [now], now)]
                  [k := Bucket(Recent(At(b, k), rates(k).window, now) + [now], now)];
  }

  lemma FewBuckets(b: Buckets, j: Key, k: Key)
    requires b.Keys <= {j, k}
    ensures |b| < MAX_BUCKETS
  {
    SubsetCardinality(b.Keys, {j, k});
    assert |b| == |b.Keys|;
  }

  /** The buckets the sweep before request n leaves, and what is charged in them then. */
  function Kept(minute: Key, hour: Key, n: nat): Buckets {
    if n < 12 then Held(minute, hour, n) else map[]
  }

  function SweptState(minute: Key, hour: Key, n: nat): State {
    State(Kept(minute, hour, n), Asked(n), Charged(minute, hour, n), {})
  }

  lemma SweepStep(rates: Rates, minute: Key, hour: Key, n: nat)
    requires n <= 12
    ensures Step(After(minute, hour, n), SweptState(minute, hour, n), rates, Sweep(Asked(n)))
  {
    hide Times, LastTwo;
    assert Swept(Held(minute, hour, n), Asked(n)) == Kept(minute, hour, n);
  }

  lemma KeptRecent(minute: Key, hour: Key, n: nat)
    requires n <= 12 && minute != hour
    ensures var b, now := Kept(minute, hour, n), Asked(n);
            && Recent(At(b, minute), MINUTE, now) == (if 0 < n < 12 then [Asked(n - 1)] else [])
            && Recent(At(b, hour), HOUR, now) == (if n < 12 then Times(n) else [])
  {
    hide Recent, LastTwo;
    NothingRecent(MINUTE, Asked(n));
    NothingRecent(HOUR, Asked(n));
    if 0 < n < 12 {
      MinuteIsRecent(n);
      TimesAreRecent(n, Asked(n));
    }
  }

  lemma ChargeStep(rates: Rates, minute: Key, hour: Key, n: nat)
    requires Passcodes(rates, minute, hour) && n <= 12
    ensures Step(SweptState(minute, hour, n), After(minute, hour, n + 1), rates, Charge([minute, hour], Asked(n)))
  {
    hide Recent, Charges, Times, LastTwo, Asked;
    KeptRecent(minute, hour, n);
    TimesNext(n);
    var b: Buckets, b': Buckets := Kept(minute, hour, n), Held(minute, hour, n + 1);
    assert |Recent(At(b, hour), HOUR, Asked(n))| < 12;
    BothCharged(b, rates, minute, hour, Asked(n));
    assert [] + [Asked(n)] == [Asked(n)];
    assert b' == b[minute := Bucket(Recent(At(b, minute), MINUTE, Asked(n)) + [Asked(n)], Asked(n))]
                  [hour := Bucket(Recent(At(b, hour), HOUR, Asked(n)) + [Asked(n)], Asked(n))];
    assert Charges(b, b', rates, [minute, hour], Asked(n), {}, true);
    ChargesLogged(minute, hour, n);
  }

  lemma ChargesLogged(minute: Key, hour: Key, n: nat)
    requires minute != hour
    ensures Logged(Charged(minute, hour, n), [minute, hour], Asked(n)) == Charged(minute, hour, n + 1)
  {
    hide Times, Asked;
    TimesNext(n);
  }

  lemma TimesNext(n: nat)
    ensures |Times(n)| == n && Times(n + 1) == Times(n) + [Asked(n)]
    ensures LastTwo(n + 1) == (if n == 0 then [] else [Asked(n - 1)]) + [Asked(n)]
  {
  }

  // ---------------------------------------------------------------- thirteen requests

  lemma {:induction false} Ask(rates: Rates, minute: Key, hour: Key, n: nat) returns (sts: seq<State>, es: seq<Event>)
    requires Passcodes(rates, minute, hour) && n <= 13
    ensures Run(sts, rates, es) && Requests(es, minute, hour, n) && sts[|es|] == After(minute, hour, n)
  {
    hide Step, Asked, After, SweptState;
    if n == 0 {
      AtFirst(minute, hour);
      sts, es := [After(minute, hour, 0)], [];
    } else {
      sts, es := Ask(rates, minute, hour, n - 1);
      var sweep, charge := Sweep(Asked(n - 1)), Charge([minute, hour], Asked(n - 1));
      SweepStep(rates, minute, hour, n - 1);
      ExtendRun(sts, rates, es, SweptState(minute, hour, n - 1), sweep);
      sts, es := sts + [SweptState(minute, hour, n - 1)], es + [sweep];
      ChargeStep(rates, minute, hour, n - 1);
      ExtendRun(sts, rates, es, After(minute, hour, n), charge);
      sts, es := sts + [After(minute, hour, n)], es + [charge];
    }
  }

  lemma AtFirst(minute: Key, hour: Key)
    ensures After(minute, hour, 0) == State(map[], 0, map[], {})
  {
  }

  /** Requests as the server makes them for one address, no two within the cooldown: the sweep before the
      thirteenth forgets the twelve of that hour, and it goes through. */
  lemma HourlyPasscodesExceeded(rates: Rates, minute: Key, hour: Key) returns (sts: seq<State>, es: seq<Event>)
    requires Passcodes(rates, minute, hour)
    ensures Run(sts, rates, es) && Requests(es, minute, hour, 13)
    ensures forall i :: 0 <= i < 12 ==> Asked(i) + COOLDOWN <= Asked(i + 1)
    ensures sts[|es|].evicted == {} && Log(sts[|es|], hour) == Times(13)
    ensures |Recent(Log(sts[|es|], hour), HOUR, Asked(12))| == 13 > rates(hour).limit
  {
    hide Step, Recent, Requests;
    sts, es := Ask(rates, minute, hour, 13);
    ThirteenInAnHour();
  }

  lemma ThirteenInAnHour()
    ensures |Recent(Times(13), HOUR, Asked(12))| == 13
  {
    hide Times;
    TimesAreRecent(12, Asked(12));
    TimesNext(12);
    RecentNext(Times(12), HOUR, Asked(12), Asked(12));
  }
}
