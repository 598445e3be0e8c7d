/** Mailed passcodes and the pending sign-ins they buy: the locked sections, and every interleaving of them. */
module SignIn {
  import opened Prelude

  type Account = nat
  type TicketId = nat

  const MAX_OTP_ATTEMPTS := 5
  const MAX_SECOND_FACTOR_ATTEMPTS := 5
  const MAX_PENDING_SIGN_INS := 1024
  const TICKET_TTL := 300_000

  /** A passcode, with a number of its own. */
  datatype Otp = Otp(mint: nat, code: nat, revision: nat, expires: int, attempts: nat)

  /** A pending sign-in and the passcode that bought it. */
  datatype Ticket = Ticket(mint: nat, account: Account, revision: nat, expires: int, attempts: nat)

  /** One passcode per account at most; the tickets there have ever been, and those still waiting. */
  datatype Desk = Desk(otps: map<Account, Otp>, tickets: map<TicketId, Ticket>, waiting: set<TicketId>)

  datatype Answer =
    | ExpiredCode
    | BadCredentials
    | TooManyAttempts
    | NotOpened
    | Pending(ticket: TicketId)
    | Opened(mint: nat, account: Account, revision: nat)

  function LiveOtps(otps: map<Account, Otp>, now: int): map<Account, Otp> {
    map a | a in otps && !(now > otps[a].expires) :: otps[a]
  }

  function Unexpired(d: Desk, now: int): set<TicketId> {
    set t | t in d.waiting && t in d.tickets && !(now > d.tickets[t].expires)
  }

  /** kept is what stays waiting when one more ticket is to wait: none expired, the latest first. */
  predicate MakesRoom(d: Desk, kept: set<TicketId>, now: int) {
    && kept <= Unexpired(d, now)
    && (if |Unexpired(d, now)| < MAX_PENDING_SIGN_INS then kept == Unexpired(d, now)
        else |kept| == MAX_PENDING_SIGN_INS - 1)
    && forall t, u :: t in Unexpired(d, now) - kept && u in kept ==> d.tickets[t].expires <= d.tickets[u].expires
  }

  /** A new passcode takes the place of the account's last one. */
  function Issue(d: Desk, account: Account, otp: Otp, now: int): Desk {
    d.(otps := LiveOtps(d.otps, now)[account := otp])
  }

  function WithoutOtp(d: Desk, account: Account): Desk {
    d.(otps := d.otps - {account})
  }

  predicate Matches(d: Desk, account: Account, revision: nat, now: int) {
    account in d.otps && !(now > d.otps[account].expires) && d.otps[account].revision == revision
  }

  /** The critical section of a passcode sign-in. revision and second are what the account's row held when
      it was read, before the lock; finishes says whether a session could be opened. */
  function Present(d: Desk, account: Account, revision: nat, second: bool, code: nat, now: int, finishes: bool,
                   ticket: TicketId, kept: set<TicketId>): (Desk, Answer)
  {
    if !Matches(d, account, revision, now) then (WithoutOtp(d, account), ExpiredCode)
    else
      var otp := d.otps[account];
      if otp.code != code then
        if otp.attempts + 1 >= MAX_OTP_ATTEMPTS then (WithoutOtp(d, account), TooManyAttempts)
        else (d.(otps := d.otps[account := otp.(attempts := otp.attempts + 1)]), BadCredentials)
      else if second then
        var pending := Ticket(otp.mint, account, revision, now + TICKET_TTL, 0);
        (Desk(d.otps - {account}, d.tickets[ticket := pending], kept + {ticket}), Pending(ticket))
      else if finishes then (WithoutOtp(d, account), Opened(otp.mint, account, revision))
      else (d, NotOpened)
  }

  /** A ticket presented with its second factor: it waits and has not expired, or it is forgotten. */
  function Look(d: Desk, ticket: TicketId, now: int): (Desk, bool) {
    if ticket in d.waiting && ticket in d.tickets && !(now > d.tickets[ticket].expires) then (d, true)
    else (d.(waiting := d.waiting - {ticket}), false)
  }

  /** A wrong second factor counts against the ticket even when another request has used it meanwhile. */
  function Mistake(d: Desk, ticket: TicketId): (Desk, Answer)
    requires ticket in d.tickets
  {
    var t := d.tickets[ticket];
    var d' := d.(tickets := d.tickets[ticket := t.(attempts := t.attempts + 1)]);
    if t.attempts + 1 >= MAX_SECOND_FACTOR_ATTEMPTS
    then (d'.(waiting := d'.waiting - {ticket}), TooManyAttempts) else (d', BadCredentials)
  }

  /** The last critical section of a two-factor sign-in; revision is what the account's row held, if it was there. */
  function Complete(d: Desk, ticket: TicketId, revision: Option<nat>, finishes: bool): (Desk, Answer)
    requires ticket in d.tickets
  {
    var t := d.tickets[ticket];
    if ticket !in d.waiting || revision != Some(t.revision) then (d.(waiting := d.waiting - {ticket}), ExpiredCode)
    else if finishes then (d.(waiting := d.waiting - {ticket}), Opened(t.mint, t.account, t.revision))
    else (d, NotOpened)
  }

  // ---------------------------------------------------------------- every interleaving

  datatype Mail = Mail(account: Account, revision: nat)

  /** The desk and its history: what each passcode was mailed for, the sessions opened in order, and the
      wrong comparisons made with each passcode. */
  datatype State = State(desk: Desk, mails: seq<Mail>, sessions: seq<Answer>, wrong: map<nat, nat>)

  /** Requests run side by side and what they read of an account beforehand may be stale, so each locked
      section may come at any time with any reading. A ticket may be looked at long before it is completed. */
  datatype Event =
    | Requested(account: Account, revision: nat, code: nat, expires: int, now: int)
    | Presented(account: Account, revision: nat, second: bool, code: nat, now: int, finishes: bool,
                ticket: TicketId, kept: set<TicketId>)
    | Looked(ticket: TicketId, now: int)
    | Mistaken(ticket: TicketId)
    | Completed(ticket: TicketId, current: Option<nat>, finishes: bool)
    | Restarted

  predicate Can(s: State, e: Event) {
    match e
    case Presented(_, _, _, _, now, _, ticket, kept) => ticket !in s.desk.tickets && MakesRoom(s.desk, kept, now)
    case Mistaken(ticket) => ticket in s.desk.tickets
    case Completed(ticket, _, _) => ticket in s.desk.tickets
    case _ => true
  }

  function Noted(s: State, d: Desk, answer: Answer): State {
    if answer.Opened? then s.(desk := d, sessions := s.sessions + [answer]) else s.(desk := d)
  }

  function Wrong(s: State, mint: nat): nat {
    if mint in s.wrong then s.wrong[mint] else 0
  }

  /** Whether presenting a code compares it with the passcode and finds it wrong. */
  predicate Misses(d: Desk, account: Account, revision: nat, code: nat, now: int) {
    Matches(d, account, revision, now) && d.otps[account].code != code
  }

  function After(s: State, e: Event): State
    requires Can(s, e)
  {
    match e
    case Requested(account, revision, code, expires, now) =>
      s.(desk := Issue(s.desk, account, Otp(|s.mails|, code, revision, expires, 0), now),
         mails := s.mails + [Mail(account, revision)])
    case Presented(account, revision, second, code, now, finishes, ticket, kept) =>
      var (d, answer) := Present(s.desk, account, revision, second, code, now, finishes, ticket, kept);
      var s' := Noted(s, d, answer);
      if Misses(s.desk, account, revision, code, now)
      then s'.(wrong := s.wrong[s.desk.otps[account].mint := Wrong(s, s.desk.otps[account].mint) + 1]) else s'
    case Looked(ticket, now) => s.(desk := Look(s.desk, ticket, now).0)
    case Mistaken(ticket) => s.(desk := Mistake(s.desk, ticket).0)
    case Completed(ticket, revision, finishes) =>
      var (d, answer) := Complete(s.desk, ticket, revision, finishes);
      Noted(s, d, answer)
    case Restarted => s.(desk := s.desk.(otps := map[], waiting := {}))
  }

  predicate Run(s: State, es: seq<Event>)
    decreases |es|
  {
    es == [] || (Can(s, es[0]) && Run(After(s, es[0]), es[1..]))
  }

  function End(s: State, es: seq<Event>): State
    requires Run(s, es)
    decreases |es|
  {
    if es == [] then s else End(After(s, es[0]), es[1..])
  }

  const EMPTY := State(Desk(map[], map[], {}), [], [], map[])

  // ---------------------------------------------------------------- what every step keeps

  ghost predicate HasOpened(s: State, mint: nat) {
    exists i :: 0 <= i < |s.sessions| && s.sessions[i].Opened? && s.sessions[i].mint == mint
  }

  /** A passcode still good has bought nothing, and knows how often it was missed. */
  ghost predicate OtpSound(s: State, a: Account) {
    a in s.desk.otps ==>
      var o := s.desk.otps[a];
      && o.mint < |s.mails| && s.mails[o.mint] == Mail(a, o.revision)
      && !HasOpened(s, o.mint)
      && o.attempts < MAX_OTP_ATTEMPTS && Wrong(s, o.mint) == o.attempts
      && (forall t :: t in s.desk.tickets ==> s.desk.tickets[t].mint != o.mint)
  }

  ghost predicate TicketSound(s: State, t: TicketId) {
    t in s.desk.tickets ==>
      var k := s.desk.tickets[t];
      && k.mint < |s.mails| && s.mails[k.mint] == Mail(k.account, k.revision)
      && (t in s.desk.waiting ==> !HasOpened(s, k.mint) && k.attempts < MAX_SECOND_FACTOR_ATTEMPTS)
      && (forall u :: u in s.desk.tickets && u != t ==> s.desk.tickets[u].mint != k.mint)
  }

  ghost predicate SessionSound(s: State, i: nat) {
    i < |s.sessions| ==>
      && s.sessions[i].Opened? && s.sessions[i].mint < |s.mails|
      && s.mails[s.sessions[i].mint] == Mail(s.sessions[i].account, s.sessions[i].revision)
      && forall j :: 0 <= j < i ==> s.sessions[j].Opened? && s.sessions[j].mint != s.sessions[i].mint
  }

  ghost predicate Sound(s: State) {
    && (forall a :: OtpSound(s, a))
    && (forall t :: TicketSound(s, t))
    && (forall i :: SessionSound(s, i))
    && (forall c :: c in s.wrong ==> c < |s.mails| && s.wrong[c] <= MAX_OTP_ATTEMPTS)
    && s.desk.waiting <= s.desk.tickets.Keys && |s.desk.waiting| <= MAX_PENDING_SIGN_INS
  }

  lemma NewMintIsUnused(s: State)
    requires Sound(s)
    ensures !HasOpened(s, |s.mails|) && Wrong(s, |s.mails|) == 0
    ensures forall t :: t in s.desk.tickets ==> s.desk.tickets[t].mint != |s.mails|
  {
    forall i | 0 <= i < |s.sessions| ensures s.sessions[i].Opened? ==> s.sessions[i].mint != |s.mails| {
      assert SessionSound(s, i);
    }
    forall t | t in s.desk.tickets ensures s.desk.tickets[t].mint != |s.mails| {
      assert TicketSound(s, t);
    }
  }

  lemma RequestKeepsSound(s: State, e: Event)
    requires Sound(s) && e.Requested?
    ensures Sound(After(s, e))
  {
    var s' := After(s, e);
    NewMintIsUnused(s);
    forall a ensures OtpSound(s', a) { assert OtpSound(s, a); }
    forall t ensures TicketSound(s', t) { assert TicketSound(s, t); }
    forall i: nat ensures SessionSound(s', i) { assert SessionSound(s, i); }
  }

  /** A sound desk stays sound when passcodes and waiting tickets only go. */
  lemma LeavingKeepsSound(s: State, d: Desk)
    requires Sound(s) && d.tickets == s.desk.tickets && d.waiting <= s.desk.waiting
    requires forall a :: a in d.otps ==> a in s.desk.otps && d.otps[a] == s.desk.otps[a]
    ensures Sound(s.(desk := d))
  {
    var s' := s.(desk := d);
    forall a ensures OtpSound(s', a) { assert OtpSound(s, a); }
    forall t ensures TicketSound(s', t) { assert TicketSound(s, t); }
    forall i: nat ensures SessionSound(s', i) { assert SessionSound(s, i); }
    SubsetCardinality(d.waiting, s.desk.waiting);
  }

  /** A miss is counted on the passcode and in its history alike, and the fifth burns it. */
  lemma MissKeepsSound(s: State, e: Event)
    requires Sound(s) && Can(s, e) && e.Presented? && Misses(s.desk, e.account, e.revision, e.code, e.now)
    ensures Sound(After(s, e))
  {
    var s' := After(s, e);
    assert OtpSound(s, e.account);
    forall a ensures OtpSound(s', a) { assert OtpSound(s, a); }
    forall t ensures TicketSound(s', t) { assert TicketSound(s, t); }
    forall i: nat ensures SessionSound(s', i) { assert SessionSound(s, i); }
  }

  lemma PurchaseKeepsSound(s: State, e: Event)
    requires Sound(s) && Can(s, e) && e.Presented? && e.second
    requires Matches(s.desk, e.account, e.revision, e.now) && s.desk.otps[e.account].code == e.code
    ensures Sound(After(s, e))
  {
    hide MakesRoom, HasOpened;
    var s' := After(s, e);
    assert OtpSound(s, e.account);
    forall a ensures OtpSound(s', a) { PurchaseKeepsOtp(s, e, a); }
    forall t ensures TicketSound(s', t) { PurchaseKeepsTicket(s, e, t); }
    forall i: nat ensures SessionSound(s', i) { assert SessionSound(s, i); }
    assert |s'.desk.waiting| <= MAX_PENDING_SIGN_INS by { RoomForOne(s.desk, e.kept, e.now, e.ticket); }
    assert s'.desk.waiting <= s'.desk.tickets.Keys by { KeptWaits(s.desk, e.kept, e.now); }
  }

  lemma PurchaseKeepsOtp(s: State, e: Event, a: Account)
    requires Sound(s) && Can(s, e) && e.Presented? && e.second
    requires Matches(s.desk, e.account, e.revision, e.now) && s.desk.otps[e.account].code == e.code
    ensures OtpSound(After(s, e), a)
  {
    hide MakesRoom;
    assert OtpSound(s, a) && OtpSound(s, e.account);
  }

  lemma PurchaseKeepsTicket(s: State, e: Event, t: TicketId)
    requires Sound(s) && Can(s, e) && e.Presented? && e.second
    requires Matches(s.desk, e.account, e.revision, e.now) && s.desk.otps[e.account].code == e.code
    ensures TicketSound(After(s, e), t)
  {
    assert TicketSound(s, t) && OtpSound(s, e.account);
    KeptWaits(s.desk, e.kept, e.now);
  }

  lemma RoomForOne(d: Desk, kept: set<TicketId>, now: int, ticket: TicketId)
    requires MakesRoom(d, kept, now)
    ensures |kept + {ticket}| <= MAX_PENDING_SIGN_INS
  {
  }

  lemma KeptWaits(d: Desk, kept: set<TicketId>, now: int)
    requires MakesRoom(d, kept, now)
    ensures kept <= d.waiting
  {
  }

  /** A session opens with a passcode that had bought nothing and buys nothing more. */
  lemma OpeningKeepsSound(s: State, d: Desk, answer: Answer)
    requires Sound(s) && answer.Opened? && !HasOpened(s, answer.mint)
    requires answer.mint < |s.mails| && s.mails[answer.mint] == Mail(answer.account, answer.revision)
    requires d.tickets == s.desk.tickets && d.waiting <= s.desk.waiting
    requires forall a :: a in d.otps
               ==> a in s.desk.otps && d.otps[a] == s.desk.otps[a] && d.otps[a].mint != answer.mint
    requires forall t :: t in d.waiting ==> d.tickets[t].mint != answer.mint
    ensures Sound(s.(desk := d, sessions := s.sessions + [answer]))
  {
    var s' := s.(desk := d, sessions := s.sessions + [answer]);
    forall a ensures OtpSound(s', a) { assert OtpSound(s, a); }
    forall t ensures TicketSound(s', t) { assert TicketSound(s, t); }
    forall i: nat ensures SessionSound(s', i) {
      assert SessionSound(s, i);
      if i == |s.sessions| {
        forall j | 0 <= j < i ensures s'.sessions[j].Opened? && s'.sessions[j].mint != answer.mint {
          assert SessionSound(s, j);
        }
      }
    }
    SubsetCardinality(d.waiting, s.desk.waiting);
  }

  lemma PresentationKeepsSound(s: State, e: Event)
    requires Sound(s) && Can(s, e) && e.Presented?
    ensures Sound(After(s, e))
  {
    if Misses(s.desk, e.account, e.revision, e.code, e.now) {
      MissKeepsSound(s, e);
    } else if !Matches(s.desk, e.account, e.revision, e.now) {
      LeavingKeepsSound(s, WithoutOtp(s.desk, e.account));
    } else if e.second {
      PurchaseKeepsSound(s, e);
    } else if e.finishes {
      assert OtpSound(s, e.account);
      forall a | a in s.desk.otps && a != e.account ensures s.desk.otps[a].mint != s.desk.otps[e.account].mint {
        assert OtpSound(s, a);
      }
      OpeningKeepsSound(s, WithoutOtp(s.desk, e.account), Opened(s.desk.otps[e.account].mint, e.account, e.revision));
    }
  }

  lemma MistakeKeepsSound(s: State, e: Event)
    requires Sound(s) && Can(s, e) && e.Mistaken?
    ensures Sound(After(s, e))
  {
    var s' := After(s, e);
    assert TicketSound(s, e.ticket);
    forall a ensures OtpSound(s', a) { assert OtpSound(s, a); }
    forall t ensures TicketSound(s', t) { assert TicketSound(s, t); }
    forall i: nat ensures SessionSound(s', i) { assert SessionSound(s, i); }
    SubsetCardinality(s'.desk.waiting, s.desk.waiting);
  }

  lemma CompletionKeepsSound(s: State, e: Event)
    requires Sound(s) && Can(s, e) && e.Completed?
    ensures Sound(After(s, e))
  {
    var (d, answer) := Complete(s.desk, e.ticket, e.current, e.finishes);
    assert TicketSound(s, e.ticket);
    if answer.Opened? {
      forall a | a in d.otps ensures d.otps[a].mint != answer.mint { assert OtpSound(s, a); }
      OpeningKeepsSound(s, d, answer);
    } else {
      LeavingKeepsSound(s, d);
    }
  }

  lemma StepKeepsSound(s: State, e: Event)
    requires Sound(s) && Can(s, e)
    ensures Sound(After(s, e))
  {
    hide Sound;
    match e
    case Requested(_, _, _, _, _) => RequestKeepsSound(s, e);
    case Presented(_, _, _, _, _, _, _, _) => PresentationKeepsSound(s, e);
    case Looked(ticket, now) => LeavingKeepsSound(s, Look(s.desk, ticket, now).0);
    case Mistaken(_) => MistakeKeepsSound(s, e);
    case Completed(_, _, _) => CompletionKeepsSound(s, e);
    case Restarted => LeavingKeepsSound(s, s.desk.(otps := map[], waiting := {}));
  }

  lemma {:induction false} RunKeepsSound(s: State, es: seq<Event>)
    requires Sound(s) && Run(s, es)
    ensures Sound(End(s, es))
    decreases |es|
  {
    hide Sound, After, Can;
    if es != [] {
      StepKeepsSound(s, es[0]);
      RunKeepsSound(After(s, es[0]), es[1..]);
    }
  }

  // ---------------------------------------------------------------- over whole runs

  lemma FreshIsSound()
    ensures Sound(EMPTY)
  {
    assert |EMPTY.desk.waiting| == 0;
  }

  /** No passcode ever opens two sessions, directly or through the ticket it buys, whatever requests run
      side by side; and each session is its account's, under the revision its passcode was mailed for. */
  lemma OneSessionPerPasscode(es: seq<Event>, i: nat)
    requires Run(EMPTY, es) && i < |End(EMPTY, es).sessions|
    ensures var s := End(EMPTY, es);
            && s.sessions[i].Opened? && s.sessions[i].mint < |s.mails|
            && s.mails[s.sessions[i].mint] == Mail(s.sessions[i].account, s.sessions[i].revision)
            && forall j :: 0 <= j < |s.sessions| && j != i
                 ==> s.sessions[j].Opened? && s.sessions[j].mint != s.sessions[i].mint
  {
    FreshIsSound();
    RunKeepsSound(EMPTY, es);
    var s := End(EMPTY, es);
    assert SessionSound(s, i);
    forall j | 0 <= j < |s.sessions| && j != i
      ensures s.sessions[j].Opened? && s.sessions[j].mint != s.sessions[i].mint
    {
      assert SessionSound(s, j);
    }
  }

  /** No passcode is guessed at wrongly more than five times, none buys two tickets, and the pending
      sign-ins are never more than their limit. */
  lemma GuessesAndTicketsAreBounded(es: seq<Event>, mint: nat, t: TicketId, u: TicketId)
    requires Run(EMPTY, es)
    ensures var s := End(EMPTY, es);
            && Wrong(s, mint) <= MAX_OTP_ATTEMPTS
            && (t in s.desk.tickets && u in s.desk.tickets && s.desk.tickets[t].mint == s.desk.tickets[u].mint
                ==> t == u)
            && |s.desk.waiting| <= MAX_PENDING_SIGN_INS
  {
    FreshIsSound();
    RunKeepsSound(EMPTY, es);
    assert TicketSound(End(EMPTY, es), t);
  }

  // ---------------------------------------------------------------- how long a passcode stays good

  /** An event that leaves the account's passcode as it is: nothing of another's, unless it sweeps the passcode
      away expired; and of the account's own, the right code whose session could not be opened. */
  predicate Spares(e: Event, a: Account, otp: Otp) {
    match e
    case Requested(account, _, _, _, now) => account != a && !(now > otp.expires)
    case Presented(account, revision, second, code, now, finishes, _, _) =>
      account != a
      || (revision == otp.revision && !(now > otp.expires) && code == otp.code && !second && !finishes)
    case Restarted => false
    case _ => true
  }

  predicate AllSpare(es: seq<Event>, a: Account, otp: Otp) {
    forall i :: 0 <= i < |es| ==> Spares(es[i], a, otp)
  }

  predicate Holds(s: State, a: Account, otp: Otp) {
    otp.mint < |s.mails| && a in s.desk.otps && s.desk.otps[a] == otp
  }

  /** The account has no passcode, or a later one, or the same missed once more. */
  predicate PastIt(s: State, a: Account, otp: Otp) {
    && otp.mint < |s.mails|
    && (a in s.desk.otps && s.desk.otps[a].mint == otp.mint ==> s.desk.otps[a].attempts > otp.attempts)
  }

  lemma StepHoldsExactly(s: State, e: Event, a: Account, otp: Otp)
    requires Can(s, e) && Holds(s, a, otp)
    ensures if Spares(e, a, otp) then Holds(After(s, e), a, otp) else PastIt(After(s, e), a, otp)
  {
  }

  lemma StepStaysPast(s: State, e: Event, a: Account, otp: Otp)
    requires Can(s, e) && PastIt(s, a, otp)
    ensures PastIt(After(s, e), a, otp)
  {
  }

  lemma {:induction false} RunStaysPast(s: State, es: seq<Event>, a: Account, otp: Otp)
    requires Run(s, es) && PastIt(s, a, otp)
    ensures PastIt(End(s, es), a, otp)
    decreases |es|
  {
    hide After, Can, PastIt;
    if es != [] {
      StepStaysPast(s, es[0], a, otp);
      RunStaysPast(After(s, es[0]), es[1..], a, otp);
    }
  }

  lemma {:induction false} RunHoldsExactly(s: State, es: seq<Event>, a: Account, otp: Otp)
    requires Run(s, es) && Holds(s, a, otp)
    ensures Holds(End(s, es), a, otp) <==> AllSpare(es, a, otp)
    decreases |es|
  {
    hide After, Can, Spares;
    if es != [] {
      StepHoldsExactly(s, es[0], a, otp);
      assert AllSpare(es, a, otp) <==> Spares(es[0], a, otp) && AllSpare(es[1..], a, otp) by {
        FirstSpares(es, a, otp);
      }
      if Spares(es[0], a, otp) {
        RunHoldsExactly(After(s, es[0]), es[1..], a, otp);
      } else {
        RunStaysPast(After(s, es[0]), es[1..], a, otp);
      }
    }
  }

  lemma FirstSpares(es: seq<Event>, a: Account, otp: Otp)
    requires es != []
    ensures AllSpare(es, a, otp) <==> Spares(es[0], a, otp) && AllSpare(es[1..], a, otp)
  {
    hide Spares;
    if AllSpare(es[1..], a, otp) && Spares(es[0], a, otp) {
      forall i | 0 <= i < |es| ensures Spares(es[i], a, otp) {
        if i > 0 { assert es[i] == es[1..][i - 1]; }
      }
    }
  }

  /** A passcode is still good, unmissed since, exactly when everything that happened spared it: right codes
      whose session could not be opened do, any number of times. And while it is good, the code opens. */
  lemma GoodUntilSpent(before: seq<Event>, during: seq<Event>, a: Account, now: int, ticket: TicketId,
                       kept: set<TicketId>)
    requires Run(EMPTY, before) && Run(End(EMPTY, before), during) && a in End(EMPTY, before).desk.otps
    ensures var otp, t := End(EMPTY, before).desk.otps[a], End(End(EMPTY, before), during);
            && (a in t.desk.otps && t.desk.otps[a] == otp <==> AllSpare(during, a, otp))
            && (AllSpare(during, a, otp) && !(now > otp.expires)
                ==> Present(t.desk, a, otp.revision, false, otp.code, now, true, ticket, kept).1
                    == Opened(otp.mint, a, otp.revision))
  {
    hide Run, End, AllSpare, Sound;
    FreshIsSound();
    RunKeepsSound(EMPTY, before);
    var s := End(EMPTY, before);
    MintedBefore(s, a);
    RunHoldsExactly(s, during, a, s.desk.otps[a]);
    MoreMails(s, during);
  }

  lemma MintedBefore(s: State, a: Account)
    requires Sound(s) && a in s.desk.otps
    ensures s.desk.otps[a].mint < |s.mails|
  {
    assert OtpSound(s, a);
  }

  lemma {:induction false} MoreMails(s: State, es: seq<Event>)
    requires Run(s, es)
    ensures |s.mails| <= |End(s, es).mails|
    decreases |es|
  {
    hide Can;
    if es != [] {
      MoreMails(After(s, es[0]), es[1..]);
    }
  }
}
