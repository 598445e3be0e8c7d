/** What opens a session: a passcode of an account with one factor, or the ticket a passcode bought with its second
    factor; and that a passcode of an account with two never does alone. */
module SecondFactor {
  import opened Prelude
  import opened SignIn

  /** A passcode presented rightly: it is the account's, for the revision read, not expired, and the code fits. */
  predicate Right(d: Desk, e: Event) {
    && e.Presented? && e.account in d.otps && e.now <= d.otps[e.account].expires
    && d.otps[e.account].revision == e.revision && d.otps[e.account].code == e.code
  }

  /** e opens the session answer: a right passcode of an account without a second factor does, or the completion
      of a waiting ticket whose account still has the revision it was bought under. */
  predicate Opens(d: Desk, e: Event, answer: Answer) {
    || (Right(d, e) && !e.second && e.finishes
        && answer == Opened(d.otps[e.account].mint, e.account, e.revision))
    || (e.Completed? && e.finishes && e.ticket in d.waiting && e.ticket in d.tickets
        && e.current == Some(d.tickets[e.ticket].revision)
        && answer == Opened(d.tickets[e.ticket].mint, d.tickets[e.ticket].account, d.tickets[e.ticket].revision))
  }

  /** Sessions are opened by these and by nothing else. */
  lemma OpenedExactly(s: State, e: Event)
    requires Can(s, e)
    ensures s.sessions <= After(s, e).sessions && |After(s, e).sessions| <= |s.sessions| + 1
    ensures forall answer :: After(s, e).sessions == s.sessions + [answer] <==> Opens(s.desk, e, answer)
  {
    forall a: Answer, b: Answer | s.sessions + [a] == s.sessions + [b] ensures a == b {
      assert (s.sessions + [a])[|s.sessions|] == (s.sessions + [b])[|s.sessions|];
    }
  }

  /** A passcode of an account with a second factor opens nothing, whatever else holds: the right one buys a
      ticket, which waits for the second factor, and is spent. */
  lemma PasscodeAloneOpensNothing(s: State, e: Event)
    requires Can(s, e) && e.Presented? && e.second
    ensures After(s, e).sessions == s.sessions
    ensures var (_, answer) :=
              Present(s.desk, e.account, e.revision, e.second, e.code, e.now, e.finishes, e.ticket, e.kept);
            && (answer == Pending(e.ticket) <==> Right(s.desk, e))
            && !answer.Opened? && answer != NotOpened
    ensures Right(s.desk, e) ==>
              var d := After(s, e).desk;
              && e.account !in d.otps && e.ticket in d.waiting && e.ticket in d.tickets
              && d.tickets[e.ticket].mint == s.desk.otps[e.account].mint
              && d.tickets[e.ticket].account == e.account && d.tickets[e.ticket].revision == e.revision
  {
  }

  // ---------------------------------------------------------------- over whole runs

  /** The state a run comes to before its k-th event. */
  ghost predicate OpenedAt(s: State, es: seq<Event>, k: nat, answer: Answer)
    requires Run(s, es)
  {
    k < |es| && Run(s, es[..k]) && Opens(End(s, es[..k]).desk, es[k], answer)
  }

  lemma OpenedLater(s: State, es: seq<Event>, k: nat, answer: Answer)
    requires Run(s, es) && es != [] && OpenedAt(After(s, es[0]), es[1..], k, answer)
    ensures OpenedAt(s, es, k + 1, answer)
  {
    hide After, Can, Opens;
    assert es[..k + 1][0] == es[0] && es[..k + 1][1..] == es[1..][..k];
  }

  lemma NothingRun(s: State)
    ensures Run(s, []) && End(s, []) == s
  {
  }

  /** Every session of a run was opened by an event that opens it. */
  lemma {:induction false} SessionsAreOpened(s: State, es: seq<Event>, i: nat) returns (k: nat)
    requires Run(s, es) && |s.sessions| <= i < |End(s, es).sessions|
    ensures OpenedAt(s, es, k, End(s, es).sessions[i])
    decreases |es|
  {
    hide After, Can, Opens;
    var next := After(s, es[0]);
    OpenedExactly(s, es[0]);
    if i < |next.sessions| {
      k := 0;
      NothingRun(s);
      SessionsStay(next, es[1..]);
      assert es[..0] == [] && next.sessions == s.sessions + [next.sessions[i]];
    } else {
      k := SessionsAreOpened(next, es[1..], i);
      OpenedLater(s, es, k, End(s, es).sessions[i]);
      k := k + 1;
    }
  }

  lemma {:induction false} SessionsStay(s: State, es: seq<Event>)
    requires Run(s, es)
    ensures s.sessions <= End(s, es).sessions
    decreases |es|
  {
    hide After, Can, Opens;
    if es != [] {
      OpenedExactly(s, es[0]);
      SessionsStay(After(s, es[0]), es[1..]);
    }
  }

  /** A passcode that has opened a session buys no ticket afterwards. */
  ghost predicate BuysNone(s: State, mint: nat) {
    HasOpened(s, mint) && forall t :: t in s.desk.tickets ==> s.desk.tickets[t].mint != mint
  }

  lemma StepBuysNone(s: State, e: Event, mint: nat)
    requires Sound(s) && Can(s, e) && BuysNone(s, mint)
    ensures BuysNone(After(s, e), mint)
  {
    var i :| 0 <= i < |s.sessions| && s.sessions[i].Opened? && s.sessions[i].mint == mint;
    assert After(s, e).sessions[i] == s.sessions[i];
    if e.Presented? {
      assert OtpSound(s, e.account);
    }
  }

  lemma {:induction false} RunBuysNone(s: State, es: seq<Event>, mint: nat)
    requires Sound(s) && Run(s, es) && BuysNone(s, mint)
    ensures BuysNone(End(s, es), mint)
    decreases |es|
  {
    hide After, Can, Sound, BuysNone;
    if es != [] {
      StepBuysNone(s, es[0], mint);
      StepKeepsSound(s, es[0]);
      RunBuysNone(After(s, es[0]), es[1..], mint);
    }
  }

  lemma StepKeepsTickets(s: State, e: Event, t: TicketId)
    requires Can(s, e) && t in s.desk.tickets
    ensures t in After(s, e).desk.tickets && After(s, e).desk.tickets[t].mint == s.desk.tickets[t].mint
  {
  }

  lemma {:induction false} RunKeepsTickets(s: State, es: seq<Event>, t: TicketId)
    requires Run(s, es) && t in s.desk.tickets
    ensures t in End(s, es).desk.tickets && End(s, es).desk.tickets[t].mint == s.desk.tickets[t].mint
    decreases |es|
  {
    hide After, Can;
    if es != [] {
      StepKeepsTickets(s, es[0], t);
      RunKeepsTickets(After(s, es[0]), es[1..], t);
    }
  }

  lemma {:induction false} RunSplits(s: State, es: seq<Event>, k: nat)
    requires Run(s, es) && k <= |es|
    ensures Run(s, es[..k]) && Run(End(s, es[..k]), es[k..]) && End(End(s, es[..k]), es[k..]) == End(s, es)
    decreases |es|
  {
    hide After, Can;
    if k == 0 {
      assert es[..0] == [] && es[0..] == es;
    } else {
      RunSplits(After(s, es[0]), es[1..], k - 1);
      assert es[..k][0] == es[0] && es[..k][1..] == es[1..][..k - 1] && es[1..][k - 1..] == es[k..];
    }
  }

  /** A session of the passcode a ticket was bought with was opened by completing that ticket, and no other way. */
  lemma TicketOpensItsSession(es: seq<Event>, t: TicketId, i: nat) returns (k: nat)
    requires Run(EMPTY, es) && t in End(EMPTY, es).desk.tickets && i < |End(EMPTY, es).sessions|
    requires End(EMPTY, es).sessions[i].Opened?
    requires End(EMPTY, es).sessions[i].mint == End(EMPTY, es).desk.tickets[t].mint
    ensures k < |es| && es[k].Completed? && es[k].ticket == t && es[k].finishes
    ensures Run(EMPTY, es[..k]) && t in End(EMPTY, es[..k]).desk.waiting
  {
    hide Run, End, After, Can, Sound, HasOpened;
    EmptyIsNew();
    k := SessionsAreOpened(EMPTY, es, i);
    RunSplits(EMPTY, es, k);
    var s, e, rest := End(EMPTY, es[..k]), es[k], es[k..];
    FreshIsSound();
    RunKeepsSound(EMPTY, es[..k]);
    RunKeepsSound(s, rest);
    RunHead(s, rest);
    if e.Presented? {
      SpentBuysNone(s, e, End(EMPTY, es).sessions[i]);
      StepKeepsSound(s, e);
      RunBuysNone(After(s, e), rest[1..], End(EMPTY, es).sessions[i].mint);
    } else {
      RunKeepsTickets(s, rest, e.ticket);
      OneTicketEach(End(EMPTY, es), t, e.ticket);
    }
  }

  lemma EmptyIsNew()
    ensures EMPTY.sessions == []
  {
  }

  lemma RunHead(s: State, es: seq<Event>)
    requires Run(s, es) && es != []
    ensures Can(s, es[0]) && Run(After(s, es[0]), es[1..]) && End(After(s, es[0]), es[1..]) == End(s, es)
  {
  }

  lemma OneTicketEach(s: State, t: TicketId, u: TicketId)
    requires Sound(s) && t in s.desk.tickets && u in s.desk.tickets
    requires s.desk.tickets[t].mint == s.desk.tickets[u].mint
    ensures t == u
  {
    assert TicketSound(s, t);
  }

  lemma SpentBuysNone(s: State, e: Event, answer: Answer)
    requires Sound(s) && Can(s, e) && e.Presented? && Opens(s.desk, e, answer)
    ensures BuysNone(After(s, e), answer.mint)
  {
    assert OtpSound(s, e.account);
    assert After(s, e).sessions[|s.sessions|] == answer;
  }

  /** Once a passcode was presented rightly for an account with a second factor, its session is opened only
      afterwards, by completing the ticket it bought then. */
  lemma OnlyItsSecondFactorOpens(es: seq<Event>, b: nat, i: nat) returns (k: nat)
    requires Run(EMPTY, es) && b < |es| && Run(EMPTY, es[..b]) && i < |End(EMPTY, es).sessions|
    requires es[b].Presented? && es[b].second && Right(End(EMPTY, es[..b]).desk, es[b])
    requires End(EMPTY, es).sessions[i].Opened?
    requires End(EMPTY, es).sessions[i].mint == End(EMPTY, es[..b]).desk.otps[es[b].account].mint
    ensures b < k < |es| && es[k].Completed? && es[k].ticket == es[b].ticket && es[k].finishes
  {
    hide Run, End, After, Can, Sound, HasOpened, Right;
    RunSplits(EMPTY, es, b);
    var s, e, rest := End(EMPTY, es[..b]), es[b], es[b..];
    RunHead(s, rest);
    PasscodeAloneOpensNothing(s, e);
    RunKeepsTickets(After(s, e), rest[1..], e.ticket);
    k := TicketOpensItsSession(es, e.ticket, i);
    if k <= b {
      assert es[..b][..k] == es[..k];
      RunSplits(EMPTY, es[..b], k);
      FreshIsSound();
      RunKeepsSound(EMPTY, es[..k]);
      WaitingIsTicket(End(EMPTY, es[..k]), e.ticket);
      RunKeepsTickets(End(EMPTY, es[..k]), es[..b][k..], e.ticket);
      TicketIsNew(s, e);
    }
  }

  lemma WaitingIsTicket(s: State, t: TicketId)
    requires Sound(s) && t in s.desk.waiting
    ensures t in s.desk.tickets
  {
  }

  lemma TicketIsNew(s: State, e: Event)
    requires Can(s, e) && e.Presented?
    ensures e.ticket !in s.desk.tickets
  {
  }

  // ---------------------------------------------------------------- what each refusal means

  /** What presenting a passcode is answered, and what is left of it: the fifth wrong code burns it, and any of
      the first four leaves it with one guess fewer. */
  lemma PresentedExactly(d: Desk, e: Event)
    requires e.Presented?
    ensures var (d', answer) :=
              Present(d, e.account, e.revision, e.second, e.code, e.now, e.finishes, e.ticket, e.kept);
            var good := e.account in d.otps && e.now <= d.otps[e.account].expires
                        && d.otps[e.account].revision == e.revision;
            && (answer == ExpiredCode <==> !good)
            && (answer == TooManyAttempts <==> good && !Right(d, e) && d.otps[e.account].attempts >= 4)
            && (answer == BadCredentials <==> good && !Right(d, e) && d.otps[e.account].attempts < 4)
            && (answer == NotOpened <==> Right(d, e) && !e.second && !e.finishes)
            && (answer == BadCredentials ==>
                  d' == d.(otps := d.otps[e.account := d.otps[e.account].(attempts := d.otps[e.account].attempts + 1)]))
            && (answer == NotOpened ==> d' == d)
            && (answer != BadCredentials && answer != NotOpened ==> d'.otps == d.otps - {e.account})
            && (!answer.Pending? ==> d'.tickets == d.tickets && d'.waiting == d.waiting)
  {
  }

  /** A ticket may be used while it waits, up to the millisecond it expires; one that may not stops waiting. */
  lemma LookedExactly(d: Desk, ticket: TicketId, now: int)
    ensures var (d', good) := Look(d, ticket, now);
            && (good <==> ticket in d.waiting && ticket in d.tickets && now <= d.tickets[ticket].expires)
            && d' == if good then d else d.(waiting := d.waiting - {ticket})
  {
  }

  /** A wrong second factor is counted, and the fifth ends the ticket. */
  lemma MistakeExactly(d: Desk, ticket: TicketId)
    requires ticket in d.tickets
    ensures var (d', answer) := Mistake(d, ticket);
            && d'.tickets == d.tickets[ticket := d.tickets[ticket].(attempts := d.tickets[ticket].attempts + 1)]
            && answer == (if d.tickets[ticket].attempts >= 4 then TooManyAttempts else BadCredentials)
            && d'.waiting == (if d.tickets[ticket].attempts >= 4 then d.waiting - {ticket} else d.waiting)
            && d'.otps == d.otps
  {
  }

  /** The second factor given: a session of the ticket's account, once; a ticket that waits no more or whose
      account has changed is over; and one whose session could not be opened waits on. */
  lemma CompletedExactly(d: Desk, ticket: TicketId, current: Option<nat>, finishes: bool)
    requires ticket in d.tickets
    ensures var (d', answer) := Complete(d, ticket, current, finishes);
            var good := ticket in d.waiting && current == Some(d.tickets[ticket].revision);
            && (answer == ExpiredCode <==> !good) && (answer == NotOpened <==> good && !finishes)
            && (good && finishes ==>
                  answer == Opened(d.tickets[ticket].mint, d.tickets[ticket].account, d.tickets[ticket].revision))
            && d' == if answer == NotOpened then d else d.(waiting := d.waiting - {ticket})
  {
  }

  // ---------------------------------------------------------------- how long a ticket waits

  /** The tickets that wait and have not expired. */
  function Live(d: Desk, now: int): set<TicketId> {
    set t | t in d.waiting && t in d.tickets && now <= d.tickets[t].expires
  }

  /** A ticket bought waits five minutes; and for it go only those that have expired, or when 1024 wait that have
      not, the one or ones soonest to. */
  lemma TicketsGiveWay(s: State, e: Event)
    requires Can(s, e) && e.Presented? && e.second && Right(s.desk, e)
    ensures var d, d' := s.desk, After(s, e).desk;
            var live := Live(d, e.now);
            && d'.tickets == d.tickets[e.ticket := d'.tickets[e.ticket]]
            && d'.tickets[e.ticket].expires == e.now + 300_000 && d'.tickets[e.ticket].attempts == 0
            && d'.waiting - {e.ticket} <= live
            && (|live| < 1024 ==> d'.waiting == live + {e.ticket})
            && (|live| >= 1024 ==> |d'.waiting| == 1024)
            && forall t, u :: t in live - d'.waiting && u in d'.waiting - {e.ticket}
                              ==> d.tickets[t].expires <= d.tickets[u].expires
  {
    assert Unexpired(s.desk, e.now) == Live(s.desk, e.now);
    var kept := e.kept;
    assert e.ticket !in kept && After(s, e).desk.waiting == kept + {e.ticket} && kept + {e.ticket} - {e.ticket} == kept;
  }

  /** And there is always such room to make. */
  lemma RoomCanBeMade(d: Desk, now: int) returns (kept: set<TicketId>)
    ensures MakesRoom(d, kept, now)
  {
    var live := Unexpired(d, now);
    if |live| < MAX_PENDING_SIGN_INS {
      kept := live;
    } else {
      kept := LatestFew(d, live, MAX_PENDING_SIGN_INS - 1);
    }
  }

  lemma {:induction false} LatestFew(d: Desk, live: set<TicketId>, n: nat) returns (few: set<TicketId>)
    requires live <= d.tickets.Keys && n <= |live|
    ensures few <= live && |few| == n
    ensures forall t, u :: t in live - few && u in few ==> d.tickets[t].expires <= d.tickets[u].expires
  {
    few := {};
    if n > 0 {
      few := LatestFew(d, live, n - 1);
      SomeOver(few, live);
      var last := Latest(d, live - few);
      few := few + {last};
    }
  }

  lemma SomeOver(some: set<TicketId>, all: set<TicketId>)
    requires |some| < |all|
    ensures all - some != {}
  {
    if t :| t in all && t !in some {
      assert t in all - some;
    } else {
      SubsetCardinality(all, some);
    }
  }

  lemma {:induction false} Latest(d: Desk, live: set<TicketId>) returns (last: TicketId)
    requires live != {} && live <= d.tickets.Keys
    ensures last in live && forall t :: t in live ==> d.tickets[t].expires <= d.tickets[last].expires
    decreases |live|
  {
    last :| last in live;
    if live != {last} {
      var other := Latest(d, live - {last});
      if d.tickets[other].expires > d.tickets[last].expires {
        last := other;
      }
    }
  }

  /** An event that leaves a waiting ticket waiting. */
  predicate Leaves(d: Desk, e: Event, t: TicketId) {
    match e
    case Presented(_, _, second, _, _, _, _, kept) => Right(d, e) && second ==> t in kept
    case Looked(ticket, now) => ticket != t || (t in d.tickets && now <= d.tickets[t].expires)
    case Mistaken(ticket) => ticket != t || (t in d.tickets && d.tickets[t].attempts < 4)
    case Completed(ticket, current, finishes) =>
      ticket != t || (t in d.tickets && current == Some(d.tickets[t].revision) && !finishes)
    case Requested(_, _, _, _, _) => true
    case Restarted => false
  }

  /** A ticket stays waiting exactly through the events that leave it, and never waits again once it does not. */
  lemma StepLeavesExactly(s: State, e: Event, t: TicketId)
    requires Sound(s) && Can(s, e) && t in s.desk.tickets
    ensures t in After(s, e).desk.waiting <==> t in s.desk.waiting && Leaves(s.desk, e, t)
  {
    if e.Presented? {
      KeptWaits(s.desk, e.kept, e.now);
    }
  }

  // ---------------------------------------------------------------- guesses at the second factor

  /** How often a ticket's second factor was given wrongly. */
  function Mistakes(es: seq<Event>, t: TicketId): nat {
    if es == [] then 0 else (if es[0] == Mistaken(t) then 1 else 0) + Mistakes(es[1..], t)
  }

  lemma {:induction false} MistakesAreCounted(s: State, es: seq<Event>, t: TicketId)
    requires Run(s, es)
    ensures var d, r := s.desk, End(s, es).desk;
            && (t in d.tickets ==> t in r.tickets && r.tickets[t].attempts == d.tickets[t].attempts + Mistakes(es, t))
            && (t !in d.tickets && t in r.tickets ==> r.tickets[t].attempts == Mistakes(es, t))
    decreases |es|
  {
    hide Can, After;
    if es != [] {
      StepCountsMistakes(s, es[0], t);
      MistakesAreCounted(After(s, es[0]), es[1..], t);
    }
  }

  lemma StepCountsMistakes(s: State, e: Event, t: TicketId)
    requires Can(s, e)
    ensures var d, d', one := s.desk, After(s, e).desk, if e == Mistaken(t) then 1 else 0;
            && (t in d.tickets ==> t in d'.tickets && d'.tickets[t].attempts == d.tickets[t].attempts + one)
            && (t !in d.tickets ==> one == 0 && (t in d'.tickets ==> d'.tickets[t].attempts == 0))
  {
  }

  /** A ticket that waits has had fewer than five wrong second factors, however requests run side by side. */
  lemma SecondFactorGuessesAreBounded(es: seq<Event>, t: TicketId)
    requires Run(EMPTY, es) && t in End(EMPTY, es).desk.waiting
    ensures Mistakes(es, t) < 5
  {
    hide Run, End;
    FreshIsSound();
    RunKeepsSound(EMPTY, es);
    MistakesAreCounted(EMPTY, es, t);
    var s := End(EMPTY, es);
    assert TicketSound(s, t);
  }
}
