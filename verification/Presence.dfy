/** Who is online: what pruning says at any moment, and how long a session that was heard of, or left, stays as
    it is whatever else the hub does. */
module Presence {
  import opened Prelude
  import opened Registry

  /** A session is remembered for a day and ninety seconds after it was last seen, and online for the ninety
      seconds; pruning changes nothing else. */
  lemma PrunedExactly(sessions: Sessions, now: int, k: Key)
    ensures k in Pruned(sessions, now) <==> k in sessions && now <= sessions[k].lastSeen + 90_000 + 86_400_000
    ensures k in Pruned(sessions, now)
            ==> Pruned(sessions, now)[k] == sessions[k].(online := now <= sessions[k].lastSeen + 90_000)
  {
  }

  /** A session that leaves is offline at the next pruning and at every later one, and remembered for a day. */
  lemma LeftIsOffline(sessions: Sessions, sessions': Sessions, key: Key, account: Account, now: int, later: int)
    requires Leaves(sessions, sessions', key, account, now, true) && key in sessions && later >= now
    ensures key in sessions' && !sessions'[key].online && sessions'[key].account == sessions[key].account == account
    ensures key in Pruned(sessions', later) <==> later < now + OFFLINE_RETENTION
    ensures key in Pruned(sessions', later) ==> !Pruned(sessions', later)[key].online
  {
  }

  // ---------------------------------------------------------------- over whole runs

  datatype Event =
    | Beat(hb: Heartbeat, mailedOther: bool, fallback: string)
    | Leave(key: Key, account: Account)
    | Inbound(key: Key, caller: Account, admin: bool, hold: bool)
    | Prune

  ghost predicate Happens(sessions: Sessions, sessions': Sessions, e: Event, now: int) {
    match e
    case Beat(hb, mailedOther, fallback) =>
      FallbackIsFree(sessions, hb, mailedOther, fallback, now) &&
      exists reply :: Touches(sessions, sessions', hb, mailedOther, fallback, now, reply)
    case Leave(key, account) => exists ok :: Leaves(sessions, sessions', key, account, now, ok)
    case Inbound(key, caller, admin, hold) =>
      exists ok :: SetsInbound(sessions, sessions', key, caller, admin, hold, now, ok)
    case Prune => sessions' == Pruned(sessions, now)
  }

  /** states joined by events at the times at, which never run back, the first of them no sooner than start. */
  ghost predicate RunFrom(states: seq<Sessions>, events: seq<Event>, at: seq<int>, start: int) {
    && |states| == |events| + 1 == |at| + 1
    && (forall i :: 0 <= i < |events| ==> Happens(states[i], states[i + 1], events[i], at[i]))
    && (forall i :: 0 <= i < |at| ==> at[i] >= start)
    && (forall i, j :: 0 <= i <= j < |at| ==> at[i] <= at[j])
  }

  /** e is no heartbeat of key. */
  predicate Unheard(e: Event, key: Key) {
    e.Beat? ==> e.hb.key != key
  }

  predicate Stays(e: Event, key: Key) {
    Unheard(e, key) && (e.Leave? ==> e.key != key)
  }

  /** What another session's heartbeat does to this one: it is pruned, and may go to make room when offline. */
  lemma OthersBeat(sessions: Sessions, sessions': Sessions, hb: Heartbeat, mailedOther: bool, fallback: string,
                   now: int, reply: Reply, key: Key)
    requires Touches(sessions, sessions', hb, mailedOther, fallback, now, reply) && hb.key != key
    ensures var pruned := Pruned(sessions, now);
            && (key in sessions' ==> key in pruned && sessions'[key] == pruned[key])
            && (key in pruned && pruned[key].online ==> key in sessions')
  {
    hide Held, UniqueName, Inherits, Refusal;
  }

  ghost predicate Offline(sessions: Sessions, key: Key, now: int) {
    key in sessions ==> !sessions[key].online && sessions[key].lastSeen + SESSION_TTL < now
  }

  lemma StepKeepsOffline(sessions: Sessions, sessions': Sessions, e: Event, key: Key, before: int, now: int)
    requires Offline(sessions, key, before) && Happens(sessions, sessions', e, now) && before <= now && Unheard(e, key)
    ensures Offline(sessions', key, now)
  {
    hide Touches;
    match e
    case Beat(hb, mailedOther, fallback) =>
      var reply :| Touches(sessions, sessions', hb, mailedOther, fallback, now, reply);
      OthersBeat(sessions, sessions', hb, mailedOther, fallback, now, reply, key);
    case _ =>
  }

  /** Once a session has left it is offline in every state until it is heard of again. */
  lemma {:induction false} LeftStaysOffline(sessions: Sessions, key: Key, account: Account, left: int,
                                            states: seq<Sessions>, events: seq<Event>, at: seq<int>, i: nat)
    requires RunFrom(states, events, at, left) && i < |states|
    requires key in sessions && Leaves(sessions, states[0], key, account, left, true)
    requires forall j :: 0 <= j < |events| ==> Unheard(events[j], key)
    ensures Offline(states[i], key, if i == 0 then left else at[i - 1])
  {
    hide Happens;
    if i > 0 {
      LeftStaysOffline(sessions, key, account, left, states, events, at, i - 1);
      assert Happens(states[i - 1], states[i - 1 + 1], events[i - 1], at[i - 1]);
      StepKeepsOffline(states[i - 1], states[i], events[i - 1], key, if i == 1 then left else at[i - 2], at[i - 1]);
    }
  }

  ghost predicate Online(sessions: Sessions, key: Key, s: Session) {
    && key in sessions && sessions[key].online
    && sessions[key].(hold := s.hold) == s.(online := true)
  }

  lemma StepKeepsOnline(sessions: Sessions, sessions': Sessions, e: Event, key: Key, s: Session, now: int)
    requires Online(sessions, key, s) && Happens(sessions, sessions', e, now) && Stays(e, key)
    requires now <= s.lastSeen + SESSION_TTL
    ensures Online(sessions', key, s)
  {
    hide Touches;
    match e
    case Beat(hb, mailedOther, fallback) =>
      var reply :| Touches(sessions, sessions', hb, mailedOther, fallback, now, reply);
      OthersBeat(sessions, sessions', hb, mailedOther, fallback, now, reply, key);
    case _ =>
  }

  /** And a session just heard of stays, online and as it is but for its mail policy, for ninety seconds, unless
      it leaves: nothing another session or account does takes it away. */
  lemma {:induction false} HeardStaysOnline(sessions: Sessions, hb: Heartbeat, mailedOther: bool, fallback: string,
                                            heard: int, reply: Reply, states: seq<Sessions>, events: seq<Event>,
                                            at: seq<int>, i: nat)
    requires RunFrom(states, events, at, heard) && i < |states|
    requires Touches(sessions, states[0], hb, mailedOther, fallback, heard, reply) && reply.Ok?
    requires forall j :: 0 <= j < |events| ==> Stays(events[j], hb.key) && at[j] <= heard + SESSION_TTL
    ensures Online(states[i], hb.key, reply.session) && reply.session.lastSeen == heard
    ensures reply.session.account == hb.account
  {
    hide Happens, Held, UniqueName, Inherits;
    if i > 0 {
      HeardStaysOnline(sessions, hb, mailedOther, fallback, heard, reply, states, events, at, i - 1);
      assert Happens(states[i - 1], states[i - 1 + 1], events[i - 1], at[i - 1]);
      StepKeepsOnline(states[i - 1], states[i], events[i - 1], hb.key, reply.session, at[i - 1]);
    }
  }
}
