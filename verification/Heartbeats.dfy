/** What a heartbeat, and a change of mail policy, is answered and leaves behind, in every case. */
module Heartbeats {
  import opened Prelude
  import opened Registry

  // ---------------------------------------------------------------- the name picked

  /** The number a row of digits writes. */
  function Value(digits: string): int {
    if digits == "" then 0 else 10 * Value(digits[..|digits| - 1]) + (digits[|digits| - 1] as int - '0' as int)
  }

  lemma {:induction false} DigitsWriteNumber(n: nat)
    ensures Value(Digits(n)) == n && Digits(n) != "" && (n > 0 ==> Digits(n)[0] != '0')
    ensures forall i :: 0 <= i < |Digits(n)| ==> '0' <= Digits(n)[i] <= '9'
  {
    var last := (n % 10 + '0' as int) as char;
    if n < 10 {
      assert Digits(n) == [last] && [last][..0] == "";
    } else {
      DigitsWriteNumber(n / 10);
      assert Digits(n) == Digits(n / 10) + [last] && (Digits(n / 10) + [last])[..|Digits(n / 10)|] == Digits(n / 10);
    }
  }

  /** A name is held by a session of the project other than the one at key, when that is online or another
      account's; by the hub itself; and by the account its mail last went to, when no session has it. */
  lemma HeldExactly(sessions: Sessions, key: Key, account: Account, base: string, mailedOther: bool, name: string)
    ensures name in Held(sessions, key, account, base, mailedOther)
            <==> || name == "web"
                 || (exists k :: k in sessions && k.project == key.project && k != key
                                 && Lower(sessions[k].name) == name
                                 && (sessions[k].online || sessions[k].account != account))
                 || (mailedOther && name == Lower(base)
                     && forall k :: k in sessions && k.project == key.project && k != key
                                    ==> Lower(sessions[k].name) != Lower(base))
  {
    hide Lower;
  }

  predicate Taken(held: set<string>, base: string, i: nat) {
    Lower(base + "-" + Digits(i)) in held
  }

  lemma {:induction false} PickFrom(held: set<string>, base: string, i: nat, fallback: string, n: nat)
    requires i <= n <= LAST_SUFFIX && forall j :: i <= j < n ==> Taken(held, base, j)
    requires n < LAST_SUFFIX ==> !Taken(held, base, n)
    ensures Pick(held, base, i, fallback) == if n == LAST_SUFFIX then fallback else base + "-" + Digits(n)
    decreases n - i
  {
    hide Lower, Digits;
    if i < n {
      assert Taken(held, base, i);
      PickFrom(held, base, i + 1, fallback, n);
    }
  }

  /** The name picked is the one asked for when it is free, else that with the first number from 2 to 999 that
      is, else the one with the random ending. */
  lemma PickedIsFirst(held: set<string>, base: string, fallback: string, n: nat)
    requires 2 <= n <= 1000 && forall j :: 2 <= j < n ==> Taken(held, base, j)
    requires n < 1000 ==> !Taken(held, base, n)
    ensures UniqueName(held, base, fallback)
            == if Lower(base) !in held then base else if n == 1000 then fallback else base + "-" + Digits(n)
  {
    PickFrom(held, base, 2, fallback, n);
  }

  // ---------------------------------------------------------------- a session already known

  /** A heartbeat under the key of a remembered session: refused when that is another account's, no run's though
      the heartbeat is a run's, or another run's; else the session is seen now, and its mark of a run, its
      account and its mail policy are as they were. Every other session is only pruned. */
  lemma KnownExactly(sessions: Sessions, sessions': Sessions, hb: Heartbeat, mailedOther: bool, fallback: string,
                     now: int, reply: Reply)
    requires Touches(sessions, sessions', hb, mailedOther, fallback, now, reply) && hb.key in Pruned(sessions, now)
    ensures var s, pruned := Pruned(sessions, now)[hb.key], Pruned(sessions, now);
            var name := UniqueName(Held(pruned, hb.key, hb.account, hb.base, mailedOther), hb.base, fallback);
            && (reply == AnotherActors <==> s.account != hb.account)
            && (reply == NotARuns <==> s.account == hb.account && (hb.run || hb.runId != None) && !s.run)
            && (reply == AnotherRuns
                <==> s.account == hb.account && ((hb.run || hb.runId != None) ==> s.run)
                     && s.runId != None && hb.runId != None && s.runId != hb.runId)
            && reply != TooMany && (!reply.Ok? ==> sessions' == pruned)
            && (reply.Ok? ==>
                  && sessions' == pruned[hb.key := reply.session]
                  && reply.session == s.(lastSeen := now, online := true, name := reply.session.name,
                                         runId := reply.session.runId)
                  && reply.session.name == (if hb.named && hb.base != s.name then name else s.name)
                  && reply.session.runId == (if s.run && s.runId == None then hb.runId else s.runId))
  {
    hide UniqueName, Held, Pruned;
  }

  // ---------------------------------------------------------------- a session not known

  /** The sessions of the account in the heartbeat's project. */
  function Own(sessions: Sessions, hb: Heartbeat): set<Key> {
    set k | k in sessions && k.project == hb.key.project && sessions[k].account == hb.account
  }

  /** k is another session of the project by that name, of the account, and offline. */
  predicate Former(sessions: Sessions, hb: Heartbeat, name: string, k: Key) {
    && k in sessions && k.project == hb.key.project && k != hb.key
    && sessions[k].account == hb.account && !sessions[k].online && Lower(sessions[k].name) == Lower(name)
  }

  /** A heartbeat of a session not remembered: refused exactly when the account has 64 in the project, all of them
      online; when it has 64 and one is not, the one unseen longest gives up its place, and else none does; the
      new session has the mail policy of the account's last by its name, or holds nothing. */
  lemma JoinedExactly(sessions: Sessions, sessions': Sessions, hb: Heartbeat, mailedOther: bool, fallback: string,
                      now: int, reply: Reply)
    requires Touches(sessions, sessions', hb, mailedOther, fallback, now, reply) && hb.key !in Pruned(sessions, now)
    ensures var pruned := Pruned(sessions, now);
            var name := UniqueName(Held(pruned, hb.key, hb.account, hb.base, mailedOther), hb.base, fallback);
            var full := |Own(pruned, hb)| >= 64;
            && (reply.Ok? || reply == TooMany)
            && (reply == TooMany <==> full && forall k :: k in Own(pruned, hb) ==> pruned[k].online)
            && (reply == TooMany ==> sessions' == pruned)
            && (reply.Ok? ==>
                  && reply.session == Session(hb.account, name, hb.run || hb.runId != None, hb.runId,
                                              reply.session.hold, now, true)
                  && hb.key in sessions' && sessions'[hb.key] == reply.session
                  && (!full ==> sessions' == pruned[hb.key := reply.session])
                  && (full ==> exists k :: GivesWay(pruned, hb, k)
                                           && sessions' == (pruned - {k})[hb.key := reply.session])
                  && ((forall k :: !Former(pruned, hb, name, k)) ==> !reply.session.hold)
                  && ((exists k :: Former(pruned, hb, name, k)) ==>
                        exists k :: LastFormer(pruned, hb, name, k) && reply.session.hold == pruned[k].hold))
  {
    hide UniqueName, Pruned, Held, Lower;
    var pruned := Pruned(sessions, now);
    var name := UniqueName(Held(pruned, hb.key, hb.account, hb.base, mailedOther), hb.base, fallback);
    assert Own(pruned, hb) == Of(pruned, hb.key.project, hb.account);
    assert forall k :: Former(pruned, hb, name, k) <==> TakesOver(pruned, hb.key, hb.account, name, k);
    var room, ok, hold :|
      MakesRoom(pruned, room, hb.key.project, hb.account, ok) && Inherits(pruned, hb.key, hb.account, name, hold) &&
      if ok then
        reply == Ok(Joining(hb, name, hold, now)) && sessions' == room[hb.key := Joining(hb, name, hold, now)]
      else reply == TooMany && sessions' == room;
    if k :| ok && |Own(pruned, hb)| >= 64 && OfflineLongest(pruned, hb.key.project, hb.account, k)
            && room == pruned - {k} {
      assert GivesWay(pruned, hb, k);
    }
    if k :| NewestTakenOver(pruned, hb.key, hb.account, name, k) && hold == pruned[k].hold {
      assert LastFormer(pruned, hb, name, k);
    }
  }

  predicate GivesWay(sessions: Sessions, hb: Heartbeat, k: Key) {
    && k in Own(sessions, hb) && !sessions[k].online
    && forall j :: j in Own(sessions, hb) && !sessions[j].online ==> sessions[k].lastSeen <= sessions[j].lastSeen
  }

  ghost predicate LastFormer(sessions: Sessions, hb: Heartbeat, name: string, k: Key) {
    && Former(sessions, hb, name, k)
    && forall j :: Former(sessions, hb, name, j) ==> sessions[j].lastSeen <= sessions[k].lastSeen
  }

  // ---------------------------------------------------------------- mail policy

  /** The mail policy of a remembered session is set by its own account or an administrator, and by nobody else;
      nothing but pruning happens to any other. */
  lemma InboundExactly(sessions: Sessions, sessions': Sessions, key: Key, caller: Account, admin: bool, hold: bool,
                       now: int, ok: bool)
    requires SetsInbound(sessions, sessions', key, caller, admin, hold, now, ok)
    ensures var pruned := Pruned(sessions, now);
            && (ok <==> key in pruned && (admin || pruned[key].account == caller))
            && sessions'.Keys == pruned.Keys
            && forall k :: k in sessions' ==>
                 sessions'[k] == if ok && k == key then pruned[k].(hold := hold) else pruned[k]
  {
    hide Pruned;
  }
}
