/** What a check, a send and an approval come to when they take their steps: the mail a woken check reads, and the
    messages and wakes of a send. */
module MailRuns {
  import opened Prelude
  import opened Mailbox

  // ---------------------------------------------------------------- a check

  /** A check goes through its phases in this order and no other. */
  predicate Proceeds(w: Wait, w': Wait, token: bool) {
    match w
    case Out => w' == Starting
    case Starting => w' == Registered
    case Registered => w' == Blocked || w' == Leaving(Return)
    case Blocked => (token && w' == Leaving(Again)) || w' == Leaving(Return) || w' == Leaving(Last)
    case Leaving(next) => w' == (match next case Return => Out case Again => Starting case Last => LastLook)
    case LastLook => w' == Out
  }

  lemma PhasesInOrder(st: State, e: Event, c: nat)
    requires Can(st, e) && c < |st.checkers|
    ensures |After(st, e).checkers| == |st.checkers|
    ensures var k, k' := st.checkers[c], After(st, e).checkers[c];
            k' == k || (Proceeds(k.wait, k'.wait, c in st.tokens) && (k.wait.Out? || k'.reader == k.reader))
  {
    hide Unread, Popped;
  }

  /** A look that finds mail, or may not wait, has the check return; one that finds none and may wait blocks it;
      and after the last look the check is over. */
  lemma LookedPhase(st: State, c: nat, patient: bool)
    requires Can(st, Look(c, patient))
    ensures var wait, found := After(st, Look(c, patient)).checkers[c].wait, Unread(st.messages, st.checkers[c].reader);
            && (st.checkers[c].wait == LastLook ==> wait == Out)
            && (st.checkers[c].wait == Registered ==>
                  wait == if found == [] && patient then Blocked else Leaving(Return))
  {
    hide Unread, Popped;
  }

  lemma RunOf(st: State, e: Event, next: State, es: seq<Event>)
    requires Can(st, e) && After(st, e) == next && Run(next, es)
    ensures Run(st, [e] + es) && End(st, [e] + es) == End(next, es)
  {
    hide Can, After;
    assert ([e] + es)[1..] == es;
  }

  lemma NoRun(st: State)
    ensures Run(st, []) && End(st, []) == st
  {
  }

  /** c has returned everything there was for its reader in st. */
  ghost predicate HasRead(st: State, r: State, c: nat)
    requires c < |st.checkers|
  {
    forall i :: 0 <= i < |st.messages| && Readable(st.messages[i], st.checkers[c].reader) ==>
      && i < |r.messages| && r.messages[i].read
      && exists k :: 0 <= k < |r.receipts| && r.receipts[k] == Receipt(c, i, st.checkers[c].reader)
  }

  lemma LookReadsAll(st: State, c: nat, patient: bool)
    requires Can(st, Look(c, patient))
    ensures HasRead(st, After(st, Look(c, patient)), c)
  {
    hide Readable;
    var r, reader := After(st, Look(c, patient)), st.checkers[c].reader;
    var found := Unread(st.messages, reader);
    UnreadAreReadable(st.messages, reader);
    forall i | 0 <= i < |st.messages| && Readable(st.messages[i], reader)
      ensures exists k :: 0 <= k < |r.receipts| && r.receipts[k] == Receipt(c, i, reader)
    {
      var k :| 0 <= k < |found| && found[k] == i;
      assert r.receipts[|st.receipts| + k] == Receipt(c, i, reader);
    }
  }

  lemma SameMail(st: State, next: State, r: State, c: nat)
    requires c < |st.checkers| && c < |next.checkers| && next.checkers[c].reader == st.checkers[c].reader
    requires next.messages == st.messages && HasRead(next, r, c)
    ensures HasRead(st, r, c)
  {
    hide Readable;
  }

  /** A blocked check with a token wakes, registers a new channel and reads all the mail there is for it. */
  lemma WokenCheckReads(st: State, c: nat) returns (es: seq<Event>)
    requires c < |st.checkers| && st.checkers[c].wait == Blocked && c in st.tokens
    ensures Run(st, es) && HasRead(st, End(st, es), c)
    ensures c < |End(st, es).checkers|
    ensures End(st, es).checkers[c].wait == if MailWaits(st, st.checkers[c].reader) then Leaving(Return) else Blocked
  {
    hide Unread, Popped, Readable;
    var s1 := After(st, TokenTaken(c));
    var s2 := After(s1, Unregister(c));
    var s3 := After(s2, Register(c));
    var s4 := After(s3, Look(c, true));
    es := [TokenTaken(c)] + ([Unregister(c)] + ([Register(c)] + ([Look(c, true)] + [])));
    NoRun(s4);
    RunOf(s3, Look(c, true), s4, []);
    RunOf(s2, Register(c), s3, [Look(c, true)] + []);
    RunOf(s1, Unregister(c), s2, [Register(c)] + ([Look(c, true)] + []));
    RunOf(st, TokenTaken(c), s1, [Unregister(c)] + ([Register(c)] + ([Look(c, true)] + [])));
    LookReadsAll(s3, c, true);
    SameMail(st, s3, s4, c);
    FoundWhenWaiting(st, st.checkers[c].reader);
  }

  lemma FoundWhenWaiting(st: State, r: Reader)
    ensures Unread(st.messages, r) != [] <==> MailWaits(st, r)
  {
    hide Readable;
    UnreadAreReadable(st.messages, r);
    if Unread(st.messages, r) != [] {
      assert Unread(st.messages, r)[0] in Unread(st.messages, r);
    }
  }

  /** One whose time is up looks a last time before it is over, and so does not leave mail behind that came
      while it waited. */
  lemma LateCheckReads(st: State, c: nat) returns (es: seq<Event>)
    requires c < |st.checkers| && st.checkers[c].wait == Blocked
    ensures Run(st, es) && HasRead(st, End(st, es), c)
    ensures c < |End(st, es).checkers| && End(st, es).checkers[c].wait == Out
    ensures c !in WaitersOf(End(st, es).waiters, st.checkers[c].reader.project)
  {
    hide Unread, Popped, Readable;
    var s1 := After(st, GivesUp(c, true));
    var s2 := After(s1, Unregister(c));
    var s3 := After(s2, Look(c, false));
    es := [GivesUp(c, true)] + ([Unregister(c)] + ([Look(c, false)] + []));
    NoRun(s3);
    RunOf(s2, Look(c, false), s3, []);
    RunOf(s1, Unregister(c), s2, [Look(c, false)] + []);
    RunOf(st, GivesUp(c, true), s1, [Unregister(c)] + ([Look(c, false)] + []));
    LookReadsAll(s2, c, false);
    SameMail(st, s2, s3, c);
  }

  // ---------------------------------------------------------------- a send and an approval

  /** A whole send is such a run: a message for every origin, held or delivered as Stored says, and then, when one
      was delivered, a token for every check registered in the project. */
  lemma SendIsRun(st: State, s: nat, project: Project, origins: seq<Origin>) returns (es: seq<Event>)
    requires s < |st.senders| && st.senders[s].todo == [] && !st.senders[s].delivered && OfProject(origins, project)
    ensures Run(st, es)
    ensures var r := End(st, es);
            var some := exists i :: 0 <= i < |origins| && Stored(origins[i]).status == Delivered;
            && r.messages == st.messages + seq(|origins|, i requires 0 <= i < |origins| => Stored(origins[i]))
            && r.tokens == (if some then st.tokens + WaitersOf(st.waiters, project) else st.tokens)
            && |r.senders| == |st.senders| && r.senders[s].todo == [] && !r.senders[s].delivered
  {
    hide Stored;
    var s1 := After(st, SendBegins(s, project, origins));
    var more := StoringRun(s1, s);
    var s2 := End(s1, more);
    RunOf(st, SendBegins(s, project, origins), s1, more);
    es := [SendBegins(s, project, origins)] + more;
    if s2.senders[s].delivered {
      var s3 := After(s2, SendWakes(s));
      NoRun(s3);
      RunOf(s2, SendWakes(s), s3, []);
      RunsJoin(st, es, [SendWakes(s)] + []);
      es := es + ([SendWakes(s)] + []);
    }
  }

  lemma {:induction false} RunsJoin(st: State, a: seq<Event>, b: seq<Event>)
    requires Run(st, a) && Run(End(st, a), b)
    ensures Run(st, a + b) && End(st, a + b) == End(End(st, a), b)
    decreases |a|
  {
    hide Can, After;
    if a == [] {
      assert a + b == b;
    } else {
      assert (a + b)[1..] == a[1..] + b;
      RunsJoin(After(st, a[0]), a[1..], b);
    }
  }

  /** The messages a sender has to store, stored one after another. */
  lemma {:induction false} StoringRun(st: State, s: nat) returns (es: seq<Event>)
    requires s < |st.senders|
    ensures Run(st, es)
    ensures var r, todo := End(st, es), st.senders[s].todo;
            && r.messages == st.messages + seq(|todo|, i requires 0 <= i < |todo| => Stored(todo[i]))
            && r.tokens == st.tokens && r.waiters == st.waiters && |r.senders| == |st.senders|
            && r.senders[s].todo == [] && r.senders[s].project == st.senders[s].project
            && (r.senders[s].delivered
                <==> st.senders[s].delivered || exists i :: 0 <= i < |todo| && Stored(todo[i]).status == Delivered)
    decreases |st.senders[s].todo|
  {
    hide Stored;
    var todo := st.senders[s].todo;
    if todo == [] {
      NoRun(st);
      es := [];
    } else {
      var next := After(st, StoreNext(s));
      var rest := StoringRun(next, s);
      RunOf(st, StoreNext(s), next, rest);
      es := [StoreNext(s)] + rest;
      assert next.senders[s].todo == todo[1..];
      StoredInTurn(st.messages, todo);
      if i :| 0 <= i < |todo| && Stored(todo[i]).status == Delivered && i > 0 {
        assert todo[1..][i - 1] == todo[i];
      }
    }
  }

  lemma StoredInTurn(messages: seq<Message>, todo: seq<Origin>)
    requires todo != []
    ensures messages + [Stored(todo[0])]
            + seq(|todo[1..]|, i requires 0 <= i < |todo[1..]| => Stored(todo[1..][i]))
            == messages + seq(|todo|, i requires 0 <= i < |todo| => Stored(todo[i]))
  {
    hide Stored;
  }

  /** An approval: the message delivered, and every check registered in the project woken. */
  lemma ApprovalIsRun(st: State, d: nat, project: Project, i: nat, v: Viewer) returns (es: seq<Event>)
    requires d < |st.deciders| && st.deciders[d] == Rest && i < |st.messages| && st.messages[i].status == Held
    requires st.messages[i].origin.project == project && (v.admin || st.messages[i].origin.owner == Some(v.id))
    ensures Run(st, es)
    ensures var r := End(st, es);
            && r.messages == st.messages[i := st.messages[i].(status := Delivered, decider := Some(v))]
            && r.tokens == st.tokens + WaitersOf(st.waiters, project)
            && d < |r.deciders| && r.deciders[d] == Rest
  {
    var s1 := After(st, PersonDecides(d, project, i, v, true));
    var s2 := After(s1, ApprovalWakes(d));
    es := [PersonDecides(d, project, i, v, true)] + ([ApprovalWakes(d)] + []);
    NoRun(s2);
    RunOf(s1, ApprovalWakes(d), s2, []);
    RunOf(st, PersonDecides(d, project, i, v, true), s1, [ApprovalWakes(d)] + []);
  }
}
