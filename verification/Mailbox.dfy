/** Mail between agents: senders and people deciding held mail on one side, inbox long polls on the other. */
module Mailbox {
  import opened Prelude

  type Account = nat
  type Project = nat

  /** An inbox key mail is addressed to. */
  type Alias = nat

  datatype Status = Held | Delivered | Rejected

  /** What Send knows of a message when it stores it: whose it is, when its recipient's session was known;
      whether that session holds its mail, and is a run's; and whether a run, or the hub itself, sends it. */
  datatype Origin = Origin(project: Project, recipient: Alias, owner: Option<Account>, holds: bool, toRun: bool,
                           fromRun: bool, system: bool)

  datatype Message = Message(origin: Origin, status: Status, read: bool, decider: Option<Viewer>)

  datatype Viewer = Viewer(id: Account, admin: bool)

  predicate MayDecide(v: Viewer, m: Message) {
    v.admin || m.origin.owner == Some(v.id)
  }

  /** Mail that waits for a person: for a session that holds its mail, or from a run to one that is not. */
  predicate NeedsApproval(o: Origin) {
    !o.system && (o.holds || (o.fromRun && !o.toRun))
  }

  function Stored(o: Origin): Message {
    Message(o, if NeedsApproval(o) then Held else Delivered, false, None)
  }

  /** Who checks an inbox: the keys it is read under, and the account it is read for. */
  datatype Reader = Reader(project: Project, aliases: set<Alias>, account: Account)

  predicate Readable(m: Message, r: Reader) {
    && m.origin.project == r.project && !m.read && m.status == Delivered && m.origin.recipient in r.aliases
    && (m.origin.owner == None || m.origin.owner == Some(r.account))
  }

  /** The places of the messages r may read, in order. */
  function Unread(messages: seq<Message>, r: Reader): seq<nat> {
    if messages == [] then []
    else Unread(messages[..|messages| - 1], r) + if Readable(messages[|messages| - 1], r) then [|messages| - 1] else []
  }

  function Popped(messages: seq<Message>, r: Reader): (messages': seq<Message>)
    ensures |messages'| == |messages|
  {
    seq(|messages|, i requires 0 <= i < |messages| =>
      if Readable(messages[i], r) then messages[i].(read := true) else messages[i])
  }

  datatype Outcome = NotFound | NotHeld | Decided

  predicate Decidable(messages: seq<Message>, project: Project, i: nat, v: Viewer) {
    i < |messages| && messages[i].origin.project == project && MayDecide(v, messages[i])
  }

  function Decide(messages: seq<Message>, project: Project, i: nat, v: Viewer, approve: bool): (seq<Message>, Outcome) {
    if !Decidable(messages, project, i, v) then (messages, NotFound)
    else if messages[i].status != Held then (messages, NotHeld)
    else (messages[i := messages[i].(status := if approve then Delivered else Rejected, decider := Some(v))], Decided)
  }

  // ---------------------------------------------------------------- the wakeup protocol

  /** What a check does once unregistered: return, register again, or look one last time. */
  datatype Next = Return | Again | Last

  /** Where a check stands: about to register a new channel; registered and about to look; blocked on its
      channel, having found nothing; about to unregister; or about to look once more, its time being up. */
  datatype Wait = Out | Starting | Registered | Blocked | Leaving(next: Next) | LastLook

  datatype Checker = Checker(reader: Reader, wait: Wait)

  /** A send with messages yet to store; delivered once one of them was stored as delivered. */
  datatype Sender = Sender(project: Project, todo: seq<Origin>, delivered: bool)

  /** A person's approval that has yet to wake the waiters of its project. */
  datatype Decider = Rest | Waking(project: Project)

  /** A message returned: its place, the check that returned it, and whom the check read for then. */
  datatype Receipt = Receipt(check: nat, place: nat, reader: Reader)

  /** waiters are the channels registered by project, one to a check; tokens those that hold a token.
      receipts is history: each message returned. */
  datatype State = State(messages: seq<Message>, waiters: map<Project, set<nat>>, tokens: set<nat>,
                         checkers: seq<Checker>, senders: seq<Sender>, deciders: seq<Decider>,
                         receipts: seq<Receipt>)

  datatype Event =
    | CheckBegins(c: nat, reader: Reader)
    | Register(c: nat)
    | Look(c: nat, patient: bool)
    | TokenTaken(c: nat)
    | GivesUp(c: nat, timeUp: bool)
    | Unregister(c: nat)
    | SendBegins(s: nat, project: Project, origins: seq<Origin>)
    | StoreNext(s: nat)
    | SendWakes(s: nat)
    | PersonDecides(d: nat, project: Project, i: nat, viewer: Viewer, approve: bool)
    | ApprovalWakes(d: nat)

  function WaitersOf(waiters: map<Project, set<nat>>, project: Project): set<nat> {
    if project in waiters then waiters[project] else {}
  }

  function Joined(waiters: map<Project, set<nat>>, project: Project, c: nat): map<Project, set<nat>> {
    waiters[project := WaitersOf(waiters, project) + {c}]
  }

  function Parted(waiters: map<Project, set<nat>>, project: Project, c: nat): map<Project, set<nat>> {
    if project in waiters then waiters[project := waiters[project] - {c}] else waiters
  }

  predicate OfProject(origins: seq<Origin>, project: Project) {
    forall i :: 0 <= i < |origins| ==> origins[i].project == project
  }

  predicate Can(st: State, e: Event) {
    match e
    case CheckBegins(c, _) => c < |st.checkers| && st.checkers[c].wait.Out?
    case Register(c) => c < |st.checkers| && st.checkers[c].wait.Starting?
    case Look(c, patient) => c < |st.checkers| && (st.checkers[c].wait.Registered? || st.checkers[c].wait.LastLook?)
    case TokenTaken(c) => c < |st.checkers| && st.checkers[c].wait.Blocked? && c in st.tokens
    case GivesUp(c, _) => c < |st.checkers| && st.checkers[c].wait.Blocked?
    case Unregister(c) => c < |st.checkers| && st.checkers[c].wait.Leaving?
    case SendBegins(s, project, origins) =>
      s < |st.senders| && st.senders[s].todo == [] && !st.senders[s].delivered && OfProject(origins, project)
    case StoreNext(s) => s < |st.senders| && st.senders[s].todo != []
    case SendWakes(s) => s < |st.senders| && st.senders[s].todo == [] && st.senders[s].delivered
    case PersonDecides(d, _, _, _, _) => d < |st.deciders| && st.deciders[d].Rest?
    case ApprovalWakes(d) => d < |st.deciders| && st.deciders[d].Waking?
  }

  function Waits(st: State, c: nat, wait: Wait): State
    requires c < |st.checkers|
  {
    st.(checkers := st.checkers[c := st.checkers[c].(wait := wait)])
  }

  function Receipts(c: nat, places: seq<nat>, reader: Reader): (r: seq<Receipt>)
    ensures |r| == |places|
  {
    seq(|places|, k requires 0 <= k < |places| => Receipt(c, places[k], reader))
  }

  /** A look takes everything there is to read, in one step. */
  function Looked(st: State, c: nat, patient: bool): State
    requires c < |st.checkers| && (st.checkers[c].wait.Registered? || st.checkers[c].wait.LastLook?)
  {
    var reader := st.checkers[c].reader;
    var found := Unread(st.messages, reader);
    var wait := if st.checkers[c].wait.LastLook? then Out
                else if found != [] || !patient then Leaving(Return) else Blocked;
    Waits(st, c, wait).(messages := Popped(st.messages, reader), receipts := st.receipts + Receipts(c, found, reader))
  }

  function After(st: State, e: Event): State
    requires Can(st, e)
  {
    match e
    case CheckBegins(c, reader) => st.(checkers := st.checkers[c := Checker(reader, Starting)])
    case Register(c) =>
      Waits(st, c, Registered).(waiters := Joined(st.waiters, st.checkers[c].reader.project, c),
                                tokens := st.tokens - {c})
    case Look(c, patient) => Looked(st, c, patient)
    case TokenTaken(c) => Waits(st, c, Leaving(Again)).(tokens := st.tokens - {c})
    case GivesUp(c, timeUp) => Waits(st, c, Leaving(if timeUp then Last else Return))
    case Unregister(c) =>
      var next := match st.checkers[c].wait.next case Return => Out case Again => Starting case Last => LastLook;
      Waits(st, c, next).(waiters := Parted(st.waiters, st.checkers[c].reader.project, c))
    case SendBegins(s, project, origins) => st.(senders := st.senders[s := Sender(project, origins, false)])
    case StoreNext(s) =>
      var m := Stored(st.senders[s].todo[0]);
      st.(messages := st.messages + [m],
          senders := st.senders[s := Sender(st.senders[s].project, st.senders[s].todo[1..],
                                            st.senders[s].delivered || m.status == Delivered)])
    case SendWakes(s) =>
      st.(tokens := st.tokens + WaitersOf(st.waiters, st.senders[s].project),
          senders := st.senders[s := st.senders[s].(delivered := false)])
    case PersonDecides(d, project, i, viewer, approve) =>
      var (messages, outcome) := Decide(st.messages, project, i, viewer, approve);
      st.(messages := messages,
          deciders := st.deciders[d := if outcome == Decided && approve then Waking(project) else Rest])
    case ApprovalWakes(d) =>
      st.(tokens := st.tokens + WaitersOf(st.waiters, st.deciders[d].project), deciders := st.deciders[d := Rest])
  }

  predicate Run(st: State, es: seq<Event>)
    decreases |es|
  {
    es == [] || (Can(st, es[0]) && Run(After(st, es[0]), es[1..]))
  }

  function End(st: State, es: seq<Event>): State
    requires Run(st, es)
    decreases |es|
  {
    if es == [] then st else End(After(st, es[0]), es[1..])
  }

  predicate Fresh(st: State) {
    && st.messages == [] && st.waiters == map[] && st.tokens == {} && st.receipts == []
    && (forall c :: 0 <= c < |st.checkers| ==> st.checkers[c].wait.Out?)
    && (forall s :: 0 <= s < |st.senders| ==> st.senders[s].todo == [] && !st.senders[s].delivered)
    && (forall d :: 0 <= d < |st.deciders| ==> st.deciders[d].Rest?)
  }

  // ---------------------------------------------------------------- no lost wakeup

  ghost predicate SenderWired(st: State, s: nat) {
    s < |st.senders| ==> OfProject(st.senders[s].todo, st.senders[s].project)
  }

  ghost predicate CheckerWired(st: State, c: nat) {
    (c < |st.checkers|
     && (st.checkers[c].wait.Registered? || st.checkers[c].wait.Blocked? || st.checkers[c].wait.Leaving?))
    ==> c in WaitersOf(st.waiters, st.checkers[c].reader.project)
  }

  /** Somebody has stored mail of the project and has yet to wake its waiters. */
  ghost predicate WakeComing(st: State, project: Project) {
    || (exists s :: 0 <= s < |st.senders| && st.senders[s].delivered && st.senders[s].project == project)
    || (exists d :: 0 <= d < |st.deciders| && st.deciders[d] == Waking(project))
  }

  ghost predicate MailWaits(st: State, r: Reader) {
    exists i :: 0 <= i < |st.messages| && Readable(st.messages[i], r)
  }

  ghost predicate Awake(st: State, c: nat) {
    (c < |st.checkers| && st.checkers[c].wait.Blocked? && MailWaits(st, st.checkers[c].reader))
    ==> c in st.tokens || WakeComing(st, st.checkers[c].reader.project)
  }

  ghost predicate Wired(st: State) {
    && (forall s :: SenderWired(st, s))
    && (forall c :: CheckerWired(st, c))
    && (forall c :: Awake(st, c))
  }

  lemma {:induction false} UnreadAreReadable(messages: seq<Message>, r: Reader)
    ensures forall i :: 0 <= i < |messages| ==> (i in Unread(messages, r) <==> Readable(messages[i], r))
    ensures forall k :: 0 <= k < |Unread(messages, r)| ==> Unread(messages, r)[k] < |messages|
    ensures forall j, k :: 0 <= j < k < |Unread(messages, r)| ==> Unread(messages, r)[j] < Unread(messages, r)[k]
  {
    hide Readable;
    if messages != [] {
      UnreadAreReadable(messages[..|messages| - 1], r);
    }
  }

  /** A look returns exactly the mail that is there for the reader, delivered and not returned before, and
      marks that read and nothing else. */
  lemma LookExactly(messages: seq<Message>, r: Reader, i: nat)
    ensures i in Unread(messages, r)
            <==> i < |messages| && messages[i].status == Delivered && !messages[i].read
                 && messages[i].origin.project == r.project && messages[i].origin.recipient in r.aliases
                 && messages[i].origin.owner in {None, Some(r.account)}
    ensures i < |messages|
            ==> Popped(messages, r)[i] == messages[i].(read := messages[i].read || i in Unread(messages, r))
  {
    UnreadAreReadable(messages, r);
  }

  lemma StepKeepsSenders(st: State, e: Event, s: nat)
    requires SenderWired(st, s) && Can(st, e)
    ensures SenderWired(After(st, e), s)
  {
    hide Unread, Popped;
  }

  lemma StepKeepsCheckers(st: State, e: Event, c: nat)
    requires CheckerWired(st, c) && Can(st, e)
    ensures CheckerWired(After(st, e), c)
  {
    hide Unread, Popped, Decide;
  }

  /** A step after which a check is blocked as before, with no more to read, and still to be woken. */
  lemma StillAwake(st: State, st': State, c: nat)
    requires Awake(st, c) && c < |st.checkers| && |st'.checkers| == |st.checkers| && st'.checkers[c] == st.checkers[c]
    requires MailWaits(st', st.checkers[c].reader) ==> MailWaits(st, st.checkers[c].reader)
    requires c in st.tokens ==> c in st'.tokens
    requires WakeComing(st, st.checkers[c].reader.project) ==> WakeComing(st', st.checkers[c].reader.project)
    ensures Awake(st', c)
  {
  }

  lemma SameWake(st: State, st': State, project: Project)
    requires st'.senders == st.senders && st'.deciders == st.deciders
    ensures WakeComing(st, project) <==> WakeComing(st', project)
  {
  }

  lemma LookKeepsAwake(st: State, e: Event, c: nat)
    requires Awake(st, c) && c < |st.checkers| && Can(st, e) && e.Look?
    ensures Awake(After(st, e), c)
  {
    hide Unread, Readable, WakeComing;
    var st' := After(st, e);
    var own := st.checkers[e.c].reader;
    UnreadAreReadable(st.messages, own);
    SameWake(st, st', st.checkers[c].reader.project);
    forall i, r | 0 <= i < |st.messages| && Readable(st'.messages[i], r)
      ensures Readable(st.messages[i], r) && !Readable(st.messages[i], own)
    {
      ReadOnce(st.messages[i], own, r);
    }
    if c != e.c {
      StillAwake(st, st', c);
    }
  }

  lemma ReadOnce(m: Message, own: Reader, r: Reader)
    ensures !Readable(m.(read := true), r)
  {
  }

  lemma StoreKeepsAwake(st: State, e: Event, c: nat)
    requires Awake(st, c) && c < |st.checkers| && Can(st, e) && e.StoreNext? && SenderWired(st, e.s)
    ensures Awake(After(st, e), c)
  {
    var st' := After(st, e);
    var project := st.checkers[c].reader.project;
    var m := Stored(st.senders[e.s].todo[0]);
    assert st'.senders[e.s].project == st.senders[e.s].project;
    if WakeComing(st, project) {
      WakeStays(st, st', e.s, project);
    }
    if Readable(m, st.checkers[c].reader) {
      assert st'.senders[e.s].delivered && st'.senders[e.s].project == project;
    } else {
      assert forall i :: 0 <= i < |st.messages| ==> st'.messages[i] == st.messages[i];
    }
  }

  lemma WakeStays(st: State, st': State, s: nat, project: Project)
    requires s < |st.senders| == |st'.senders| && st'.senders == st.senders[s := st'.senders[s]]
    requires st'.deciders == st.deciders && WakeComing(st, project)
    requires st.senders[s].delivered && st.senders[s].project == project
             ==> st'.senders[s].delivered && st'.senders[s].project == project
    ensures WakeComing(st', project)
  {
    if t :| 0 <= t < |st.senders| && st.senders[t].delivered && st.senders[t].project == project {
      assert st'.senders[t].delivered && st'.senders[t].project == project;
    }
  }

  lemma WakingKeepsAwake(st: State, e: Event, c: nat)
    requires Awake(st, c) && CheckerWired(st, c) && c < |st.checkers| && Can(st, e)
    requires e.SendWakes? || e.ApprovalWakes?
    ensures Awake(After(st, e), c)
  {
    hide Readable;
    var st' := After(st, e);
    var project := st.checkers[c].reader.project;
    var woken := if e.SendWakes? then st.senders[e.s].project else st.deciders[e.d].project;
    if project != woken && WakeComing(st, project) {
      if t :| 0 <= t < |st.senders| && st.senders[t].delivered && st.senders[t].project == project {
        assert st'.senders[t] == st.senders[t];
      } else {
        var d :| 0 <= d < |st.deciders| && st.deciders[d] == Waking(project);
        assert st'.deciders[d] == st.deciders[d];
      }
    }
  }

  lemma DecisionKeepsAwake(st: State, e: Event, c: nat)
    requires Awake(st, c) && c < |st.checkers| && Can(st, e) && e.PersonDecides?
    ensures Awake(After(st, e), c)
  {
    var st' := After(st, e);
    var project := st.checkers[c].reader.project;
    if WakeComing(st, project) {
      if t :| 0 <= t < |st.senders| && st.senders[t].delivered && st.senders[t].project == project {
        assert st'.senders[t] == st.senders[t];
      } else {
        var d :| 0 <= d < |st.deciders| && st.deciders[d] == Waking(project);
        assert st'.deciders[d] == st.deciders[d];
      }
    }
    if MailWaits(st', st.checkers[c].reader) && !MailWaits(st, st.checkers[c].reader) {
      var i :| 0 <= i < |st'.messages| && Readable(st'.messages[i], st.checkers[c].reader);
      assert st'.deciders[e.d] == Waking(project);
    }
  }

  lemma StepKeepsAwake(st: State, e: Event, c: nat)
    requires Wired(st) && Can(st, e)
    ensures Awake(After(st, e), c)
  {
    assert Awake(st, c) && CheckerWired(st, c);
    hide MailWaits, WakeComing, Readable, Unread;
    if c < |st.checkers| {
      match e
      case Look(_, _) => LookKeepsAwake(st, e, c);
      case StoreNext(s) => assert SenderWired(st, s); StoreKeepsAwake(st, e, c);
      case SendWakes(_) => WakingKeepsAwake(st, e, c);
      case ApprovalWakes(_) => WakingKeepsAwake(st, e, c);
      case PersonDecides(_, _, _, _, _) => DecisionKeepsAwake(st, e, c);
      case SendBegins(s, _, _) => BeginningKeepsAwake(st, e, c);
      case _ => WaitingKeepsAwake(st, e, c);
    }
  }

  lemma BeginningKeepsAwake(st: State, e: Event, c: nat)
    requires Awake(st, c) && c < |st.checkers| && Can(st, e) && e.SendBegins?
    ensures Awake(After(st, e), c)
  {
    hide Readable;
    var project := st.checkers[c].reader.project;
    if WakeComing(st, project) {
      WakeStays(st, After(st, e), e.s, project);
    }
    StillAwake(st, After(st, e), c);
  }

  lemma WaitingKeepsAwake(st: State, e: Event, c: nat)
    requires Awake(st, c) && c < |st.checkers| && Can(st, e)
    requires e.CheckBegins? || e.Register? || e.TokenTaken? || e.GivesUp? || e.Unregister?
    ensures Awake(After(st, e), c)
  {
    hide Readable;
    SameWake(st, After(st, e), st.checkers[c].reader.project);
    if c != e.c {
      StillAwake(st, After(st, e), c);
    }
  }

  lemma StepKeepsWired(st: State, e: Event)
    requires Wired(st) && Can(st, e)
    ensures Wired(After(st, e))
  {
    hide SenderWired, CheckerWired, Awake, After, Can;
    forall s ensures SenderWired(After(st, e), s) { StepKeepsSenders(st, e, s); }
    forall c ensures CheckerWired(After(st, e), c) { StepKeepsCheckers(st, e, c); }
    forall c ensures Awake(After(st, e), c) { StepKeepsAwake(st, e, c); }
  }

  // ---------------------------------------------------------------- what is returned

  /** A message's life: it is read only once delivered, and one that needed a person's approval is delivered
      only by a person who may decide it. */
  predicate Proper(m: Message) {
    && (m.read ==> m.status == Delivered)
    && (m.status != Delivered ==> NeedsApproval(m.origin))
    && (NeedsApproval(m.origin) && m.status != Held ==> m.decider.Some? && MayDecide(m.decider.value, m))
  }

  /** Mail sent within the reader's project to one of the reader's keys, to no account or to the reader's. */
  predicate Addressed(o: Origin, r: Reader) {
    o.project == r.project && o.recipient in r.aliases && o.owner in {None, Some(r.account)}
  }

  ghost predicate Receipted(st: State, k: nat) {
    k < |st.receipts| ==>
      && st.receipts[k].place < |st.messages| && st.messages[st.receipts[k].place].read
      && Addressed(st.messages[st.receipts[k].place].origin, st.receipts[k].reader)
      && forall j :: 0 <= j < k ==> st.receipts[j].place != st.receipts[k].place
  }

  ghost predicate HasReceipt(st: State, i: nat) {
    i < |st.messages| && st.messages[i].read ==> exists k :: 0 <= k < |st.receipts| && st.receipts[k].place == i
  }

  ghost predicate Kept(st: State) {
    && (forall i :: HasReceipt(st, i))
    && (forall i :: 0 <= i < |st.messages| ==> Proper(st.messages[i]))
    && (forall k :: Receipted(st, k))
  }

  lemma LookKeepsKept(st: State, e: Event)
    requires Kept(st) && Can(st, e) && e.Look?
    ensures Kept(After(st, e))
  {
    hide Unread;
    var st' := After(st, e);
    var reader := st.checkers[e.c].reader;
    var found := Unread(st.messages, reader);
    UnreadAreReadable(st.messages, reader);
    forall k: nat ensures Receipted(st', k) {
      assert Receipted(st, k);
      if |st.receipts| <= k < |st'.receipts| {
        var place := found[k - |st.receipts|];
        assert place in found && st'.receipts[k].place == place && Readable(st.messages[place], reader);
        forall j | 0 <= j < k ensures st'.receipts[j].place != place {
          assert Receipted(st, j);
        }
      }
    }
    forall i: nat ensures HasReceipt(st', i) {
      if i < |st.messages| && Readable(st.messages[i], reader) {
        var k :| 0 <= k < |found| && found[k] == i;
        assert st'.receipts[|st.receipts| + k].place == i;
      } else {
        StillReceipted(st, st', i);
      }
    }
  }

  lemma StillReceipted(st: State, st': State, i: nat)
    requires HasReceipt(st, i) && st.receipts <= st'.receipts
    requires i < |st'.messages| && st'.messages[i].read ==> i < |st.messages| && st.messages[i].read
    ensures HasReceipt(st', i)
  {
    if i < |st'.messages| && st'.messages[i].read {
      var k :| 0 <= k < |st.receipts| && st.receipts[k].place == i;
      assert st'.receipts[k].place == i;
    }
  }

  lemma DecisionKeepsKept(st: State, e: Event)
    requires Kept(st) && Can(st, e) && e.PersonDecides?
    ensures Kept(After(st, e))
  {
    var st' := After(st, e);
    forall k: nat ensures Receipted(st', k) { assert Receipted(st, k); }
    forall i: nat ensures HasReceipt(st', i) { StillReceipted(st, st', i); }
  }

  lemma OthersKeepKept(st: State, e: Event)
    requires Kept(st) && Can(st, e) && !e.Look? && !e.PersonDecides?
    requires e.StoreNext? ==> Proper(Stored(st.senders[e.s].todo[0]))
    ensures Kept(After(st, e))
  {
    hide Proper;
    var st' := After(st, e);
    forall k: nat ensures Receipted(st', k) { assert Receipted(st, k); }
    forall i: nat ensures HasReceipt(st', i) { StillReceipted(st, st', i); }
  }

  lemma StepKeepsKept(st: State, e: Event)
    requires Kept(st) && Can(st, e)
    ensures Kept(After(st, e))
  {
    hide Proper;
    match e
    case Look(_, _) => LookKeepsKept(st, e);
    case PersonDecides(_, _, _, _, _) => DecisionKeepsKept(st, e);
    case StoreNext(s) =>
      ProperAtFirst(st.senders[s].todo[0]);
      OthersKeepKept(st, e);
    case _ => OthersKeepKept(st, e);
  }

  lemma ProperAtFirst(o: Origin)
    ensures Proper(Stored(o))
  {
  }

  // ---------------------------------------------------------------- over whole runs

  ghost predicate Sound(st: State) {
    Wired(st) && Kept(st)
  }

  lemma FreshIsSound(st: State)
    requires Fresh(st)
    ensures Sound(st)
  {
  }

  lemma {:induction false} RunKeepsSound(st: State, es: seq<Event>)
    requires Sound(st) && Run(st, es)
    ensures Sound(End(st, es))
    decreases |es|
  {
    hide Wired, Kept, After, Can;
    if es != [] {
      StepKeepsWired(st, es[0]);
      StepKeepsKept(st, es[0]);
      RunKeepsSound(After(st, es[0]), es[1..]);
    }
  }

  /** No lost wakeup: whenever a check is blocked while mail it may read waits, its channel holds a token or
      whoever stored the mail is still to wake it. */
  lemma NoLostWakeup(st: State, es: seq<Event>, c: nat)
    requires Fresh(st) && Run(st, es)
    requires c < |End(st, es).checkers| && End(st, es).checkers[c].wait.Blocked?
    requires MailWaits(End(st, es), End(st, es).checkers[c].reader)
    ensures c in End(st, es).tokens || WakeComing(End(st, es), End(st, es).checkers[c].reader.project)
  {
    hide MailWaits, WakeComing;
    FreshIsSound(st);
    RunKeepsSound(st, es);
    assert Awake(End(st, es), c);
  }

  /** So once no send and no approval is under way, a check that stays blocked has no mail to read. */
  lemma NoMailAtRest(st: State, es: seq<Event>, c: nat, i: nat)
    requires Fresh(st) && Run(st, es)
    requires c < |End(st, es).checkers| && End(st, es).checkers[c].wait.Blocked? && c !in End(st, es).tokens
    requires forall s :: 0 <= s < |End(st, es).senders| ==> !End(st, es).senders[s].delivered
    requires forall d :: 0 <= d < |End(st, es).deciders| ==> End(st, es).deciders[d].Rest?
    requires i < |End(st, es).messages|
    ensures !Readable(End(st, es).messages[i], End(st, es).checkers[c].reader)
  {
    hide Readable;
    if MailWaits(End(st, es), End(st, es).checkers[c].reader) {
      NoLostWakeup(st, es, c);
    }
  }

  /** Mail marked read was returned to somebody. */
  lemma ReadMeansReturned(st: State, es: seq<Event>, i: nat)
    requires Fresh(st) && Run(st, es) && i < |End(st, es).messages| && End(st, es).messages[i].read
    ensures exists k :: 0 <= k < |End(st, es).receipts| && End(st, es).receipts[k].place == i
  {
    FreshIsSound(st);
    RunKeepsSound(st, es);
    assert HasReceipt(End(st, es), i);
  }

  /** A decision is taken exactly on held mail, by the account it belongs to or an administrator; anybody else, or
      on other mail, changes nothing and is told whether there is such mail to decide at all. */
  lemma DecideExactly(messages: seq<Message>, project: Project, i: nat, v: Viewer, approve: bool)
    ensures var (messages', outcome) := Decide(messages, project, i, v, approve);
            var theirs := i < |messages| && messages[i].origin.project == project
                          && (v.admin || messages[i].origin.owner == Some(v.id));
            && (outcome == NotFound <==> !theirs)
            && (outcome == Decided <==> theirs && messages[i].status == Held)
            && |messages'| == |messages|
            && forall k :: 0 <= k < |messages| ==>
                 messages'[k] == if k != i || outcome != Decided then messages[k]
                                 else messages[k].(status := if approve then Delivered else Rejected,
                                                   decider := Some(v))
  {
  }

  lemma StepKeepsDecided(st: State, e: Event, i: nat)
    requires Can(st, e) && i < |st.messages| && st.messages[i].status != Held
    ensures i < |After(st, e).messages| && After(st, e).messages[i].status == st.messages[i].status
  {
    hide Unread;
  }

  lemma {:induction false} RunKeepsDecided(st: State, es: seq<Event>, i: nat)
    requires Run(st, es) && i < |st.messages| && st.messages[i].status != Held
    ensures i < |End(st, es).messages| && End(st, es).messages[i].status == st.messages[i].status
    decreases |es|
  {
    hide After, Can;
    if es != [] {
      StepKeepsDecided(st, es[0], i);
      RunKeepsDecided(After(st, es[0]), es[1..], i);
    }
  }

  /** And a decision once taken stands: approved mail is delivered and rejected mail is not, ever after. */
  lemma DecisionStands(st: State, e: Event, later: seq<Event>)
    requires Can(st, e) && e.PersonDecides? && Run(After(st, e), later)
    requires e.i < |st.messages| && st.messages[e.i].status == Held && st.messages[e.i].origin.project == e.project
    requires e.viewer.admin || st.messages[e.i].origin.owner == Some(e.viewer.id)
    ensures var r := End(After(st, e), later);
            e.i < |r.messages| && r.messages[e.i].status == if e.approve then Delivered else Rejected
  {
    hide Run, End;
    RunKeepsDecided(After(st, e), later, e.i);
  }

  /** Whatever was returned was addressed to a key its check read, in its project, and belongs to the account
      it read for or to none. */
  lemma ReturnedToItsReader(st: State, es: seq<Event>, k: nat)
    requires Fresh(st) && Run(st, es) && k < |End(st, es).receipts|
    ensures var r, got := End(st, es), End(st, es).receipts[k];
            && got.place < |r.messages|
            && var o := r.messages[got.place].origin;
               && o.project == got.reader.project && o.recipient in got.reader.aliases
               && (o.owner == None || o.owner == Some(got.reader.account))
  {
    FreshIsSound(st);
    RunKeepsSound(st, es);
    assert Receipted(End(st, es), k);
  }

  /** And that reader is the one the check looked for: a look's receipts are of the check and its reader. */
  lemma LookReceipts(st: State, c: nat, patient: bool, k: nat)
    requires Can(st, Look(c, patient)) && |st.receipts| <= k < |After(st, Look(c, patient)).receipts|
    ensures var got := After(st, Look(c, patient)).receipts[k];
            got.check == c && got.reader == st.checkers[c].reader && got.place in Unread(st.messages, got.reader)
  {
    hide Unread;
  }

  /** Each message is returned by at most one check, once; and mail that a session holds, or that a run sends
      to no run, only after a person gave approval whose mail it is, or an administrator. */
  lemma ReturnedOnceAndApproved(st: State, es: seq<Event>, k: nat)
    requires Fresh(st) && Run(st, es) && k < |End(st, es).receipts|
    ensures var r := End(st, es);
            && (forall j :: 0 <= j < |r.receipts| && j != k ==> r.receipts[j].place != r.receipts[k].place)
            && r.receipts[k].place < |r.messages|
            && var m := r.messages[r.receipts[k].place];
               m.status == Delivered && (!m.origin.system && (m.origin.holds || (m.origin.fromRun && !m.origin.toRun))
                                         ==> Approved(es, r.receipts[k].place, m.origin))
  {
    hide Run, End, Approved;
    FreshIsSound(st);
    RunKeepsSound(st, es);
    var r := End(st, es);
    assert Receipted(r, k);
    forall j | 0 <= j < |r.receipts| && j != k ensures r.receipts[j].place != r.receipts[k].place {
      assert Receipted(r, j);
    }
    if NeedsApproval(r.messages[r.receipts[k].place].origin) {
      assert |st.messages| == 0;
      DeliveryWasApproved(st, es, r.receipts[k].place);
    }
  }

  /** A person to whom the mail belongs, or an administrator, approved the message at place i. */
  ghost predicate Approved(es: seq<Event>, i: nat, o: Origin) {
    exists k :: 0 <= k < |es| && Approves(es[k], i, o)
  }

  predicate Approves(e: Event, i: nat, o: Origin) {
    e.PersonDecides? && e.i == i && e.approve && e.project == o.project
    && (e.viewer.admin || o.owner == Some(e.viewer.id))
  }

  lemma StepDelivers(st: State, e: Event, i: nat)
    requires Can(st, e) && i < |After(st, e).messages| && After(st, e).messages[i].status == Delivered
    requires i < |st.messages| ==> st.messages[i].status != Delivered
    ensures NeedsApproval(After(st, e).messages[i].origin) ==> Approves(e, i, After(st, e).messages[i].origin)
  {
    hide Unread;
  }

  lemma StepKeepsOrigins(st: State, e: Event)
    requires Can(st, e)
    ensures |st.messages| <= |After(st, e).messages|
    ensures forall i :: 0 <= i < |st.messages| ==> After(st, e).messages[i].origin == st.messages[i].origin
  {
    hide Unread;
  }

  lemma {:induction false} RunKeepsOrigins(st: State, es: seq<Event>)
    requires Run(st, es)
    ensures |st.messages| <= |End(st, es).messages|
    ensures forall i :: 0 <= i < |st.messages| ==> End(st, es).messages[i].origin == st.messages[i].origin
    decreases |es|
  {
    hide After, Can;
    if es != [] {
      StepKeepsOrigins(st, es[0]);
      RunKeepsOrigins(After(st, es[0]), es[1..]);
    }
  }

  lemma {:induction false} DeliveryWasApproved(st: State, es: seq<Event>, i: nat)
    requires Run(st, es) && i < |End(st, es).messages| && End(st, es).messages[i].status == Delivered
    requires i < |st.messages| ==> st.messages[i].status != Delivered
    ensures NeedsApproval(End(st, es).messages[i].origin) ==> Approved(es, i, End(st, es).messages[i].origin)
    decreases |es|
  {
    hide After, Can, NeedsApproval, Approves;
    if es != [] {
      var next := After(st, es[0]);
      if i < |next.messages| && next.messages[i].status == Delivered {
        StepDelivers(st, es[0], i);
        RunKeepsOrigins(next, es[1..]);
      } else {
        DeliveryWasApproved(next, es[1..], i);
        if k :| 0 <= k < |es| - 1 && Approves(es[1..][k], i, End(st, es).messages[i].origin) {
          assert Approves(es[k + 1], i, End(st, es).messages[i].origin);
        }
      }
    }
  }

  /** Mail of any other kind needs nobody: it is delivered as it is stored. */
  lemma OtherMailIsDelivered(o: Origin)
    ensures Stored(o).status == Delivered <==> o.system || !(o.holds || (o.fromRun && !o.toRun))
    ensures Stored(o).origin == o && !Stored(o).read && Stored(o).status in {Held, Delivered}
  {
  }
}
