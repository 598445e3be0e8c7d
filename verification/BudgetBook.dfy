/** The buckets of the running server, changed in place; and the hub's guard against agents that message too much. */
module BudgetBook {
  import opened Prelude
  import opened Budgets

  method RecentTimes(at: seq<int>, window: int, now: int) returns (kept: seq<int>)
    ensures kept == Recent(at, window, now)
  {
    kept := [];
    var i := 0;
    while i < |at|
      invariant 0 <= i <= |at| && kept == Recent(at[..i], window, now)
    {
      assert at[..i + 1][..i] == at[..i];
      if at[i] > now - window {
        kept := kept + [at[i]];
      }
      i := i + 1;
    }
    assert at[..i] == at;
  }

  class BudgetBook {
    var attempts: Buckets
    const rates: Rates

    constructor (rates: Rates)
      ensures attempts == map[] && this.rates == rates
    {
      this.rates := rates;
      attempts := map[];
    }

    method Sweep(now: int)
      modifies `attempts
      ensures attempts == Swept(old(attempts), now)
    {
      var left := attempts.Keys;
      while left != {}
        invariant left <= old(attempts).Keys
        invariant attempts.Keys == Swept(old(attempts), now).Keys + left
        invariant forall k :: k in attempts ==> attempts[k] == old(attempts)[k]
      {
        var k :| k in left;
        if attempts[k].touched < now - IDLE {
          attempts := attempts - {k};
        }
        left := left - {k};
      }
    }

    method RecentAttempts(k: Key, now: int) returns (kept: seq<int>)
      modifies `attempts
      ensures kept == Recent(At(old(attempts), k), rates(k).window, now)
      ensures attempts == Trimmed(old(attempts), rates, k, now)
    {
      if k !in attempts {
        return [];
      }
      kept := RecentTimes(attempts[k].at, rates(k).window, now);
      attempts := attempts[k := attempts[k].(at := kept)];
    }

    method IdleLongest() returns (oldest: Key)
      requires attempts != map[]
      ensures oldest in attempts && forall k :: k in attempts ==> attempts[oldest].touched <= attempts[k].touched
    {
      oldest :| oldest in attempts;
      var left := attempts.Keys - {oldest};
      while left != {}
        invariant left <= attempts.Keys && oldest in attempts
        invariant forall k :: k in attempts && k !in left ==> attempts[oldest].touched <= attempts[k].touched
      {
        var k :| k in left;
        if attempts[k].touched < attempts[oldest].touched {
          oldest := k;
        }
        left := left - {k};
      }
    }

    method MakeRoom() returns (ghost gone: set<Key>)
      modifies `attempts
      ensures MakesRoom(old(attempts), attempts, gone)
    {
      gone := {};
      while |attempts| >= MAX_BUCKETS
        invariant Evicted(old(attempts), attempts, gone)
        invariant gone == {} || |attempts| >= MAX_BUCKETS - 1
        invariant |old(attempts)| < MAX_BUCKETS ==> gone == {}
        decreases |attempts|
      {
        var oldest := IdleLongest();
        OneLess(attempts, oldest);
        EvictOneMore(old(attempts), attempts, gone, oldest);
        gone := gone + {oldest};
        attempts := attempts - {oldest};
      }
    }

    /** Spends one of each key's budget. */
    method Spend(k: Key, now: int) returns (ghost gone: set<Key>)
      modifies `attempts
      ensures Spends(old(attempts), attempts, k, now, gone)
    {
      gone := {};
      var bucket := Bucket([], now);
      if k in attempts {
        bucket := attempts[k];
      } else {
        gone := MakeRoom();
      }
      ghost var room := attempts;
      attempts := attempts[k := Bucket(bucket.at + [now], now)];
      if k !in old(attempts) {
        assert bucket.at + [now] == [now];
        assert MakesRoom(old(attempts), room, gone) && attempts == room[k := Bucket([now], now)];
      }
    }

    /** Checks every budget before it spends any. */
    method ChargeAll(keys: seq<Key>, now: int) returns (ok: bool, ghost gone: set<Key>)
      modifies `attempts
      ensures Distinct(keys) ==> Charges(old(attempts), attempts, rates, keys, now, gone, ok)
    {
      hide Recent, MakesRoom;
      gone := {};
      var i := 0;
      while i < |keys|
        invariant 0 <= i <= |keys|
        invariant TrimmedAll(attempts, rates, keys[i..], now) == TrimmedAll(old(attempts), rates, keys, now)
        invariant Distinct(keys) ==> forall j :: i <= j < |keys| ==> At(attempts, keys[j]) == At(old(attempts), keys[j])
        invariant Distinct(keys) ==> Allowed(old(attempts), rates, keys[..i], now)
      {
        ghost var b := attempts;
        assert keys[i..][0] == keys[i] && keys[i..][1..] == keys[i + 1..];
        assert keys[..i + 1] == keys[..i] + [keys[i]];
        var recent := RecentAttempts(keys[i], now);
        if |recent| >= rates(keys[i]).limit {
          assert Distinct(keys) ==> !HasBudget(old(attempts), rates, keys[i], now);
          return false, {};
        }
        i := i + 1;
      }
      assert keys[..i] == keys && keys[i..] == [];
      ok := true;
      ghost var trimmed := attempts;
      gone := SpendEach(keys, now);
    }

    method SpendEach(keys: seq<Key>, now: int) returns (ghost gone: set<Key>)
      modifies `attempts
      ensures SpendsAll(old(attempts), attempts, keys, now, gone)
      decreases |keys|
    {
      hide Spends;
      gone := {};
      var i := 0;
      ghost var b := attempts;
      while i < |keys|
        invariant 0 <= i <= |keys|
        invariant SpendsAll(b, attempts, keys[..i], now, gone)
      {
        ghost var mid := attempts;
        ghost var more := Spend(keys[i], now);
        SpendsOneMore(b, mid, attempts, keys[..i], keys[i], now, gone, more);
        assert keys[..i + 1] == keys[..i] + [keys[i]];
        gone := gone + more;
        i := i + 1;
      }
      assert keys[..i] == keys;
    }
  }

  /** gone are the buckets idle longest, and b' what is left. */
  predicate Evicted(b: Buckets, b': Buckets, gone: set<Key>) {
    && b' == b - gone && gone <= b.Keys
    && forall j, k :: j in gone && k in b' ==> b[j].touched <= b[k].touched
  }

  lemma EvictOneMore(b: Buckets, b': Buckets, gone: set<Key>, oldest: Key)
    requires Evicted(b, b', gone) && oldest in b' && forall k :: k in b' ==> b'[oldest].touched <= b'[k].touched
    ensures Evicted(b, b' - {oldest}, gone + {oldest})
  {
  }

  lemma OneLess(b: Buckets, k: Key)
    requires k in b
    ensures |b - {k}| == |b| - 1
  {
    assert b.Keys == (b - {k}).Keys + {k};
    assert |b| == |b.Keys| && |b - {k}| == |(b - {k}).Keys|;
  }

  lemma {:induction false} SpendsOneMore(b: Buckets, mid: Buckets, b': Buckets, keys: seq<Key>, k: Key, now: int,
                                         gone: set<Key>, more: set<Key>)
    requires SpendsAll(b, mid, keys, now, gone) && Spends(mid, b', k, now, more)
    ensures SpendsAll(b, b', keys + [k], now, gone + more)
    decreases |keys|
  {
    hide Spends;
    if keys == [] {
      assert (keys + [k])[1..] == [] && SpendsAll(b', b', [], now, {});
      assert Spends(b, b', (keys + [k])[0], now, more) && gone + more == more + {};
    } else {
      var next, first, rest :|
        Spends(b, next, keys[0], now, first) && SpendsAll(next, mid, keys[1..], now, rest) && gone == first + rest;
      SpendsOneMore(next, mid, b', keys[1..], k, now, rest, more);
      assert (keys + [k])[1..] == keys[1..] + [k] && gone + more == first + (rest + more);
      assert Spends(b, next, (keys + [k])[0], now, first);
    }
  }

  // ---------------------------------------------------------------- the loop guard

  const MINUTE := 60_000
  const MESSAGE_LIMIT := 20
  const MAX_TURNS := 12

  /** Why a message is not sent. */
  datatype Guarded = Sent | RateLimited | LoopDetected

  /** A minute's window in milliseconds that still counts its first millisecond: one longer than MINUTE. */
  const GUARD_WINDOW := MINUTE + 1

  /** An agent's history under the guard and the messages it was let send, after calls at these times. */
  function Guard(calls: seq<int>): (seq<int>, seq<int>) {
    if calls == [] then ([], [])
    else
      var now := calls[|calls| - 1];
      var (history, sent) := Guard(calls[..|calls| - 1]);
      var recent := Recent(history, GUARD_WINDOW, now);
      if |recent| >= MESSAGE_LIMIT then (recent, sent) else (recent + [now], sent + [now])
  }

  lemma GuardNext(calls: seq<int>, now: int)
    ensures var (history, sent), recent := Guard(calls), Recent(Guard(calls).0, GUARD_WINDOW, now);
            Guard(calls + [now])
            == if |recent| >= MESSAGE_LIMIT then (recent, sent) else (recent + [now], sent + [now])
  {
    assert (calls + [now])[..|calls|] == calls;
  }

  /** calls and people are history: when each agent called, and the senders that called as a person. */
  class LoopGuard {
    var history: map<nat, seq<int>>
    var turns: map<nat, nat>
    ghost var calls: map<nat, seq<int>>
    ghost var people: set<nat>

    constructor ()
      ensures Valid() && history == map[] && turns == map[] && calls == map[] && people == {}
    {
      history, turns, calls, people := map[], map[], map[], {};
    }

    /** What is kept of an agent is what the guard keeps of its calls. */
    ghost predicate Valid()
      reads this
    {
      forall sender :: sender !in people ==> Of(history, sender) == Guard(Of(calls, sender)).0
    }

    static function Of(history: map<nat, seq<int>>, sender: nat): seq<int> {
      if sender in history then history[sender] else []
    }

    static function Turns(turns: map<nat, nat>, thread: nat): nat {
      if thread in turns then turns[thread] else 0
    }

    /** What an agent was let send, by the times of its calls. */
    ghost function SentBy(sender: nat): seq<int>
      reads this
    {
      Guard(Of(calls, sender)).1
    }

    /** The times of a rolling minute up to now. */
    static method StillCounting(at: seq<int>, now: int) returns (kept: seq<int>)
      ensures kept == Recent(at, GUARD_WINDOW, now)
    {
      var cutoff := now - MINUTE;
      kept := [];
      var i := 0;
      while i < |at|
        invariant 0 <= i <= |at| && kept == Recent(at[..i], GUARD_WINDOW, now)
      {
        assert at[..i + 1][..i] == at[..i];
        if at[i] >= cutoff {
          kept := kept + [at[i]];
        }
        i := i + 1;
      }
      assert at[..i] == at;
    }

    /** A person is never held back and starts a thread's turns again; an agent may send so many a minute,
        and so many in a row in one thread. */
    method Check(sender: nat, thread: Option<nat>, human: bool, now: int) returns (r: Guarded)
      requires Valid()
      modifies this
      ensures Valid() && people == old(people) + (if human then {sender} else {})
      ensures calls == if human then old(calls) else old(calls)[sender := Of(old(calls), sender) + [now]]
      ensures sender !in people ==> SentBy(sender) == old(SentBy(sender)) + (if r == RateLimited then [] else [now])
      ensures var recent := Recent(Of(old(history), sender), GUARD_WINDOW, now);
              && (r == RateLimited <==> !human && |recent| >= MESSAGE_LIMIT)
              && history == old(history)[sender := if r == RateLimited then recent else recent + [now]]
      ensures r == LoopDetected
              <==> !human && r != RateLimited && thread.Some? && Turns(old(turns), thread.value) >= MAX_TURNS
      ensures turns == if thread == None || r != Sent then old(turns)
                       else if human then old(turns) - {thread.value}
                       else old(turns)[thread.value := Turns(old(turns), thread.value) + 1]
    {
      hide Guard, Recent;
      var kept := StillCounting(if sender in history then history[sender] else [], now);
      GuardNext(Of(calls, sender), now);
      if human { people := people + {sender}; } else { calls := calls[sender := Of(calls, sender) + [now]]; }
      if !human && |kept| >= MESSAGE_LIMIT {
        history := history[sender := kept];
        return RateLimited;
      }
      history := history[sender := kept + [now]];
      if thread.Some? {
        if human {
          turns := turns - {thread.value};
        } else {
          var n := (if thread.value in turns then turns[thread.value] else 0) + 1;
          if n > MAX_TURNS {
            return LoopDetected;
          }
          turns := turns[thread.value := n];
        }
      }
      return Sent;
    }
  }

  const GUARD_RATE := Rate(GUARD_WINDOW, MESSAGE_LIMIT)

  lemma {:induction false} GuardHolds(calls: seq<int>, later: int)
    requires Sorted(calls) && forall i :: 0 <= i < |calls| ==> calls[i] <= later
    ensures var (history, sent) := Guard(calls);
            && Sorted(sent) && Spaced(sent, GUARD_RATE) && (forall i :: 0 <= i < |sent| ==> sent[i] <= later)
            && Recent(history, GUARD_WINDOW, later) == Recent(sent, GUARD_WINDOW, later)
  {
    hide Recent, Spaced;
    if calls == [] {
      NothingSpaced();
    } else {
      var less, now := calls[..|calls| - 1], calls[|calls| - 1];
      var (history, sent) := Guard(less);
      assert forall i :: 0 <= i < |less| ==> less[i] == calls[i] <= now;
      GuardHolds(less, now);
      GuardHolds(less, later);
      var recent := Recent(history, GUARD_WINDOW, now);
      RecentTwice(history, GUARD_WINDOW, now, later);
      RecentNext(recent, GUARD_WINDOW, later, now);
      RecentNext(sent, GUARD_WINDOW, later, now);
      if |recent| < MESSAGE_LIMIT {
        ChargeKeepsSpaced(sent, GUARD_RATE, now);
      }
    }
  }

  lemma NothingSpaced()
    ensures Spaced([], GUARD_RATE)
  {
  }

  /** No minute holds more of an agent's messages than the guard allows: m is how many were sent by t. */
  lemma AgentsStayWithinTheMinute(calls: seq<int>, m: nat, t: int)
    requires Sorted(calls) && m <= |Guard(calls).1| && forall i :: 0 <= i < m ==> Guard(calls).1[i] <= t
    ensures |Recent(Guard(calls).1[..m], GUARD_WINDOW, t)| <= MESSAGE_LIMIT
  {
    GuardHolds(calls, if calls == [] then t else calls[|calls| - 1]);
    SpacedIsWithinLimit(Guard(calls).1, GUARD_RATE, m, t);
  }
}
