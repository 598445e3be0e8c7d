/** The passcodes and pending sign-ins of the running server, changed in place under its lock. */
module SignInDesk {
  import opened Prelude
  import opened SignIn

  class SignInDesk {
    var otps: map<Account, Otp>
    var tickets: map<TicketId, Ticket>
    var waiting: set<TicketId>

    constructor ()
      ensures D() == EMPTY.desk
    {
      otps, tickets, waiting := map[], map[], {};
    }

    ghost function D(): Desk
      reads this
    {
      Desk(otps, tickets, waiting)
    }

    method SweepOtps(now: int)
      modifies `otps
      ensures otps == LiveOtps(old(otps), now)
    {
      var left := otps.Keys;
      while left != {}
        invariant left <= old(otps).Keys
        invariant otps.Keys == LiveOtps(old(otps), now).Keys + left
        invariant forall a :: a in otps ==> otps[a] == old(otps)[a]
      {
        var account :| account in left;
        if now > otps[account].expires {
          otps := otps - {account};
        }
        left := left - {account};
      }
    }

    method RequestPasscode(account: Account, otp: Otp, now: int)
      modifies `otps
      ensures D() == Issue(old(D()), account, otp, now)
    {
      SweepOtps(now);
      otps := otps[account := otp];
    }

    method ForgetExpired(now: int)
      requires waiting <= tickets.Keys
      modifies `waiting
      ensures waiting == Unexpired(old(D()), now)
    {
      var left := waiting;
      while left != {}
        invariant left <= old(waiting) && waiting <= old(waiting)
        invariant waiting == Unexpired(old(D()), now) + left
      {
        var ticket :| ticket in left;
        if now > tickets[ticket].expires {
          waiting := waiting - {ticket};
        }
        left := left - {ticket};
      }
    }

    method Earliest() returns (first: TicketId)
      requires waiting != {} && waiting <= tickets.Keys
      ensures first in waiting && forall t :: t in waiting ==> tickets[first].expires <= tickets[t].expires
    {
      first :| first in waiting;
      var left := waiting - {first};
      while left != {}
        invariant left <= waiting && first in waiting
        invariant forall t :: t in waiting && t !in left ==> tickets[first].expires <= tickets[t].expires
      {
        var ticket :| ticket in left;
        if tickets[ticket].expires < tickets[first].expires {
          first := ticket;
        }
        left := left - {ticket};
      }
    }

    /** Forgets what has expired, and then the earliest to expire until one more fits. */
    method MakeRoom(now: int)
      requires waiting <= tickets.Keys
      modifies `waiting
      ensures MakesRoom(old(D()), waiting, now)
    {
      ForgetExpired(now);
      ghost var current := waiting;
      while |waiting| >= MAX_PENDING_SIGN_INS
        invariant waiting <= current && (waiting != current ==> |waiting| >= MAX_PENDING_SIGN_INS - 1)
        invariant |current| >= MAX_PENDING_SIGN_INS || waiting == current
        invariant forall t, u :: t in current - waiting && u in waiting ==> tickets[t].expires <= tickets[u].expires
        decreases |waiting|
      {
        var first := Earliest();
        waiting := waiting - {first};
      }
    }

    method Present(account: Account, revision: nat, second: bool, code: nat, now: int, finishes: bool, ticket: TicketId)
        returns (answer: Answer, ghost kept: set<TicketId>)
      requires waiting <= tickets.Keys && ticket !in tickets
      modifies this
      ensures answer.Pending? ==> MakesRoom(old(D()), kept, now)
      ensures (D(), answer) == SignIn.Present(old(D()), account, revision, second, code, now, finishes, ticket, kept)
    {
      kept := {};
      if account !in otps || now > otps[account].expires || otps[account].revision != revision {
        otps := otps - {account};
        return ExpiredCode, kept;
      }
      var otp := otps[account];
      if otp.code != code {
        otps := otps[account := otp.(attempts := otp.attempts + 1)];
        if otp.attempts + 1 >= MAX_OTP_ATTEMPTS {
          otps := otps - {account};
          assert otps == old(otps) - {account};
          return TooManyAttempts, kept;
        }
        return BadCredentials, kept;
      }
      if second {
        otps := otps - {account};
        MakeRoom(now);
        kept := waiting;
        tickets := tickets[ticket := Ticket(otp.mint, account, revision, now + TICKET_TTL, 0)];
        waiting := waiting + {ticket};
        return Pending(ticket), kept;
      }
      if !finishes {
        return NotOpened, kept;
      }
      otps := otps - {account};
      return Opened(otp.mint, account, revision), kept;
    }

    method Look(ticket: TicketId, now: int) returns (good: bool)
      requires waiting <= tickets.Keys
      modifies `waiting
      ensures (D(), good) == SignIn.Look(old(D()), ticket, now)
    {
      if ticket !in waiting || now > tickets[ticket].expires {
        waiting := waiting - {ticket};
        return false;
      }
      return true;
    }

    method Mistake(ticket: TicketId) returns (answer: Answer)
      requires ticket in tickets
      modifies `tickets, `waiting
      ensures (D(), answer) == SignIn.Mistake(old(D()), ticket)
    {
      var t := tickets[ticket];
      tickets := tickets[ticket := t.(attempts := t.attempts + 1)];
      if t.attempts + 1 >= MAX_SECOND_FACTOR_ATTEMPTS {
        waiting := waiting - {ticket};
        return TooManyAttempts;
      }
      return BadCredentials;
    }

    method Complete(ticket: TicketId, revision: Option<nat>, finishes: bool) returns (answer: Answer)
      requires ticket in tickets
      modifies `waiting
      ensures (D(), answer) == SignIn.Complete(old(D()), ticket, revision, finishes)
    {
      var t := tickets[ticket];
      if ticket !in waiting || revision != Some(t.revision) {
        waiting := waiting - {ticket};
        return ExpiredCode;
      }
      if !finishes {
        return NotOpened;
      }
      waiting := waiting - {ticket};
      return Opened(t.mint, t.account, t.revision);
    }
  }
}
