# Nodevas, verified

A Dafny model of the parts of Nodevas whose promises depend on several functions, several threads or a
restart working together, with proofs of those promises. `dafny verify dfyconfig.toml` checks all of it.

- **Asks** (`AskShape`, `AskStore`, `AskProtocol`, `AskWiring`, `AskProvenance`, `AskNoGap`, `AskDelivery`,
  `AskExpiry`, `AskAnswers`, `AskTheorems`, `AskRuns`, `AskHub`). An agent asks a person; an allow may cover the rest
  of a run. The protocol is a state machine of asking calls, answering calls and run expiry, one critical section a
  step. The class `Hub` holds the locked sections themselves.
- **Sign-in sessions** (`Sessions`, `SessionAuth`, `SessionRuns`, `SignIn`, `SignInDesk`, `SecondFactor`, `Totp`,
  `Budgets`, `BudgetBook`, `HourlyPasscodes`). Sessions in memory mirrored in a table, through failures, crashes and
  restarts; passcodes and the tickets they buy; second factors and authenticator codes; rate budgets.
- **Audit queue** (`AuditQueue`, `AuditProgress`, `AuditWriter`). Callers, one writer, flushes and Close in every
  interleaving.
- **Agent hub** (`Registry`, `Presence`, `Heartbeats`, `RegistryHub`, `Mailbox`, `MailRuns`, `MailHub`). Who owns a
  session name and who is online; mail and its long polls.
- **Config files** (`TomlText`, `TomlTable`, `TomlFile`, `TomlEdit`, `TomlReading`, `TomlRemoval`, `TomlEndings`,
  `HookGroups`, `HookMerge`, `ShellQuote`). Edits to a person's own files and what they keep of the rest, and command
  lines a shell reads back.
- **Analytics** (`Scorecards`, `Units`, `Insights`, `Reports`). A cache that agrees with recomputing, runs split into
  units, and costs that add up.

Where the source changes state in place, a class does too, and its methods are proved to make the steps the
lemmas speak of. A critical section is one step; what a thread read before taking the lock may be stale.
Accounts, projects, runs and other ids that are only compared are numbers, and an account's number stands for
every spelling of it. Times are integers.

## What holds only under conditions

- `finishSignInLocked` says it never revokes and then refuses. That holds exactly under `RefusalIsHarmless`;
  the server's own bounds are enough for it (`BoundsAreEnough`), but a seat cap lowered below the accounts already
  signed in breaks it (`HarmfulRefusal`, `LoweredCapHarms`).
- Right after a start, a crash and restart bring back only sessions that are live exactly when the start cleaned the
  table and read all it kept, or left no unexpired row (`OnlyTheLiveExactly`); in the first case that stays so
  whatever happens before the crash (`RestartBringsBackOnlyTheLive`). A start whose cleanup fails serves no session and
  still keeps the rows (`FailedCleanupHidesASession`).
- A budget holds exactly while its window is no longer, to the nanosecond, than the five minutes after which an idle
  bucket is swept (`NoWindowOverLimit`, `ForgottenTooSoon`); the passcode budget of twelve an hour is longer,
  and the sweep each request begins with lets a thirteenth through (`HourlyPasscodesExceeded`).
- The audit queue says the trail keeps the order. A caller's own rows keep it exactly when the caller never wrote one
  itself while an earlier one of its own was still on its way (`OrderIsKeptUnlessOvertaken`), which takes a timed-out
  wait or a call after Close (`CallersOrderIsKept`, `CloseLosesOrder`).
- Putting a table at a file's end twice equals once unless the file has no CRLF and ends in a lone carriage return,
  which the newline added after it turns into one (`AddedAtTheEnd`). The comment on `replaceTOMLTable` promises
  everything else byte for byte. A removal keeps that promise exactly when what is left has no run of three line ends,
  does not end in two, and is empty or more than white space (`RemovalKeepsAllElse`): it collapses blank lines all over
  the file, inside other tables' multi-line strings too (`RemovalShortensAString`), and nothing else
  (`RemovalLeavesNoTable`).
- The comment on `mergeHookGroups` says only handlers of ours are removed. An event ours is taken out of also loses
  groups whose own list of handlers was empty (`AddThenRemoveIff` has the exact condition).
- Following retries gives a run and the run it retries one root unless both are on a cycle of two or more runs.

## Model

| member | source | states |
|---|---|---|
| AskShape.CapBytes | internal/agents/asks.go:325-332 | the input shown is the longest prefix of whole characters within the byte limit, and shorter than the input exactly when that is over the limit |
| AskShape.ShapeOptions | internal/agents/asks.go:355-377 | a choice is accepted exactly when none of its trimmed options is blank, over 200 characters or listed before, and then it keeps exactly those, in order |
| AskShape.ShapedKeysFit | internal/agents/asks.go:307-346 | the keys of a prompt fit its tool: a shell prompt always has a key and looks up that same key; any other has none, or one that matches nothing; only permission prompts have a tool |
| AskShape.KeyForm | internal/agents/asks.go:199-223 | which of the three forms a prompt's key has is decided by whether the whole call was seen, and for a shell the key is the digest of the tool and the whole canonical command |
| AskShape.LookupIsRelease | internal/agents/asks.go:666-691 | the test the lookup of an earlier allow makes and the test the release of waiting prompts makes are the same relation on prompts that can be built |
| AskShape.CommandKeys | internal/agents/asks.go:214-223 | with an injective digest, equal keys mean equal canonical commands |
| AskShape.CoverageIsOneRelation | internal/agents/asks.go:741-765 | lookup, release and what "allow for this run" is meant to cover agree, both ways, on every pair of prompts shapeAsk can build: same tool, a call seen whole, and for a shell the same whole command |
| AskShape.ScopeShownIsScopeApplied | internal/agents/asks.go:154-168 | the scope shown to the person is the scope applied: once covers no other prompt, tool every prompt of the tool, command exactly the prompts for the same whole command |
| AskShape.WidthExactly | internal/agents/asks.go:325-332 | a character takes one to four bytes by its code point (section 3 of RFC 3629) |
| AskShape.KindExactly | internal/agents/asks.go:307-318 | the kind an ask names, in any letter case; an approval when it names none |
| AskShape.AcceptedExactly | internal/agents/asks.go:307-377 | exactly which asks are accepted: what each kind must have and must not have |
| AskShape.ShapedExactly | internal/agents/asks.go:307-377 | and what is kept of one that is: its options, its call cut at the limit and marked as cut, its question |
| AskShape.ScopeShownExactly | internal/agents/asks.go:154-168 | the scope shown is the command for a shell's whole command, the tool for any other call seen whole, once for one that was cut |
| AskStore.AskTimeout | internal/agents/asks.go:382-391 | a wait is positive, at most five minutes for a permission prompt and ten for anything else, and what was asked for when that is no longer |
| AskStore.Resolve | internal/agents/asks.go:967-1016 | a decision only settles an ask: denied exactly by a denial, answered exactly by an answer (trimmed, not empty, at most 4000 characters, one of the options of a choice), and stored as an allow for the run only for a prompt a person allowed for it |
| AskStore.DecideMoves | internal/agents/asks.go:1094-1143 | deciding changes only a pending ask, or late an expired one that is no permission prompt |
| AskStore.ExpireOneMoves | internal/agents/asks.go:920-941 | expiring one ask changes only a pending one |
| AskStore.ExpireStaleMoves | internal/agents/asks.go:845-903 | the sweep of overdue asks changes only pending ones |
| AskExpiry.SweepExactly | internal/agents/asks.go:845-903 | a pending ask of a named project expires at the first sweep at or after its expiry time, or ten minutes after it was made when it has none, and not before; every other ask stays as it is |
| AskExpiry.SweptAtItsTime | internal/agents/asks.go:395-470 | over any run: the sweep expires a waiting ask exactly once the wait its asker was given is over, counted from when the ask was made |
| AskRuns.RoomExactly | internal/agents/asks.go:600-661 | there is room exactly while the session has fewer than eight prompts, or no other ask, pending and the account fewer than 160 |
| AskRuns.DecidedExactly | internal/agents/asks.go:1094-1143 | which asks a decision is taken on, what it stores, and that it changes no other |
| AskRuns.ExpiredExactly | internal/agents/asks.go:920-941 | expiring ends the wait of a pending ask and of no other, and returns what is stored then |
| AskRuns.LookedUpExactly | internal/agents/asks.go:666-691 | an earlier allow found is a person's allow for the run of a prompt of that project, run, tool and key |
| AskRuns.AnswersExactly | internal/agents/asks.go:666-691 | a lookup answers with the person behind one of the allows that match, and with nobody exactly when none does |
| AskRuns.ListedExactly | internal/agents/asks.go:741-771 | what an allow for the run releases: waiting prompts of its run and tool under its key, and those seen cut too when it is for every call of a tool that is no shell; and what the end of a run expires |
| AskRuns.AllowedExactly | internal/agents/asks.go:695-714 | a prompt allowed without asking is stored as approved for the run by the person who allowed it |
| AskHub.Hub.RunAllowedBy | internal/agents/asks.go:666-691 | answers with the person behind some stored allow that matches, and with nobody exactly when none does |
| AskHub.Hub.AllowForRun | internal/agents/asks.go:695-714 | stores the prompt as allowed by that person and changes nothing else |
| AskHub.Hub.ExpireStaleAsks | internal/agents/asks.go:845-903 | exactly the overdue pending asks of the named projects (of all when no project is given) expire, and their projects are reported |
| AskHub.Hub.CountPending | internal/agents/asks.go:618-642 | the two counts are the numbers of pending asks against the session and against the account |
| AskHub.Hub.InsertPendingAsk | internal/agents/asks.go:600-661 | after the sweep the ask is stored exactly when session and account have room |
| AskHub.Hub.DecideAsk | internal/agents/asks.go:1094-1143 | the one new form of the ask, or the ask as it is when it can no longer be decided |
| AskHub.Hub.ExpireAsk | internal/agents/asks.go:920-941 | a pending ask expires; a settled one is returned as it is |
| AskHub.Hub.CoveredPrompts | internal/agents/asks.go:741-771 | the list is exactly the waiting prompts the allow covers |
| AskHub.Hub.Send | internal/agents/asks.go:1166-1176 | a channel that already holds a decision keeps it |
| AskHub.Hub.ReleaseRunPrompts | internal/agents/asks.go:741-782 | alone, it leaves no waiting prompt the allow covers, changes no other ask, and puts each released prompt in the channel of its registered asker unless that holds a decision already |
| AskHub.Hub.PendingOfRun | internal/agents/runasks.go:205-226 | the list is exactly the pending asks of the run |
| AskWiring.WiredKept | internal/agents/asks.go:395-544 | every step keeps each asking call, its stored ask, its registration and its channel in agreement |
| AskWiring.EffectMoves | internal/agents/asks.go:395-544 | no step of any thread changes a settled ask, but for one late decision on an expired ask that is no prompt |
| AskWiring.DecidersKept | internal/agents/asks.go:1032-1075 | a decision on its way fits the ask it will be made on |
| AskWiring.OnceSettledKept | internal/agents/asks.go:1094-1112 | the first settled form of every ask is remembered rightly by every step |
| AskProvenance.ProvenanceKept | internal/agents/asks.go:741-782 | every step keeps every stored allow traced to a person's own allow that covers it |
| AskNoGap.NoGapKept | internal/agents/asks.go:442-523 | every step keeps this: a waiting prompt a person's allow covers is still to be looked at again by its asker or released by the answerer |
| AskNoGap.CapsKept | internal/agents/asks.go:600-661 | every step keeps the caps on pending asks |
| AskDelivery.GenuineKept | internal/agents/asks.go:1148-1157 | every step keeps what is in a channel, or on its way to one, a true form of its ask |
| AskDelivery.NoneLostKept | internal/agents/asks.go:526-543 | every step keeps a decision its asker waits for either in its channel or carried by an answerer |
| AskTheorems.AlwaysGood | internal/agents/asks.go:395-544 | all of these hold in every state of every run of askers, answerers and run expiry |
| AskTheorems.NoPromptLeftBehind | internal/agents/asks.go:507-523 | there is no gap: whenever a stored allow covers a waiting prompt, its asker is still to look again or an answerer still has it to release |
| AskTheorems.NoGapAtRest | internal/agents/asks.go:1066-1073 | once those threads have passed these steps, no waiting prompt is covered by a stored allow |
| AskTheorems.AllowsTraceToPersons | internal/agents/asks.go:666-714 | every prompt allowed for its run was allowed by a person who may answer it, or is covered by one in the same project, run and tool which the person named on it allowed |
| AskTheorems.AllowedAsIntended | internal/agents/asks.go:330-342 | said of the calls themselves: what a person did not allow outright is a call the one they allowed was meant to cover |
| AskTheorems.ReturnsItsDecision | internal/agents/asks.go:526-543 | a call that asks returns the decision that moved its ask out of pending; only a question that expired first may return its expiry or the one late answer |
| AskTheorems.DecisionReachesAsker | internal/agents/asks.go:1148-1176 | a decision its asker still waits for is in its channel once no answerer carries it |
| AskTheorems.SettledOnce | internal/agents/asks.go:1094-1112 | over any run a settled ask changes at most once more: an expired ask that is no prompt, decided late |
| AskTheorems.PendingAlwaysCapped | internal/agents/asks.go:600-642 | in every state a session has at most one question and eight prompts pending and an account at most 160 asks |
| AskAnswers.EntitledMayAnswer | internal/agents/files.go:408-424 | who may answer: never an agent; a person an ask of their own account; an administrator any that is no permission prompt; and where there are no accounts the local person a prompt |
| AskAnswers.FitsExactly | internal/agents/asks.go:967-1016 | which answers fit which kind of ask, and what each makes of it |
| AskAnswers.TakenUpExactly | internal/agents/asks.go:1032-1075 | an answer is taken up exactly when a person entitled to it gives one that fits to an ask of the project that waits, or has expired and is no permission prompt |
| AskAnswers.DecisionsArePersons | internal/agents/asks.go:1032-1075 | over any run: every decision stored is what a person entitled to answer that ask said, under that person's name, or an allow for the run of a permission prompt |
| AskAnswers.AllowsTraceToAnswers | internal/agents/asks.go:741-782 | and behind every allow for a run stands an answer in which a person entitled to it said "allow for this run" of this prompt or of one whose allow covers it |
| AskRuns.AskComesToWait | internal/agents/asks.go:395-470 | with no earlier allow and with room, a call comes to wait with its ask stored as pending and a channel of its own |
| AskRuns.AllowedWithoutAsking | internal/agents/asks.go:442-470 | a prompt that finds an earlier allow returns allowed by that person, recorded so, and asks nobody |
| AskRuns.AllowedOnLookingAgain | internal/agents/asks.go:495-525 | one that finds an allow only once its own ask is stored allows that ask and returns it |
| AskRuns.AnswerReachesAsker | internal/agents/asks.go:1148-1176 | an answer that fits is stored, and the call that waits returns it |
| AskRuns.WaitRunsOut | internal/agents/asks.go:526-543 | a wait that runs out ends the ask and the call returns what is stored then; one given up ends it and returns nothing |
| AskRuns.AllowFreesTheRun | internal/agents/asks.go:741-782 | an allow for the run carried through alone allows every waiting prompt it covers, changes no other ask, and sends each released prompt to the call that waits for it |
| AskRuns.RunEndExpires | internal/agents/runasks.go:197-226 | the end of a run taken alone ends every ask of the run that waits, and no other, and the calls that wait for them are sent it |
| AskRuns.ExpirerEndsListed | internal/agents/runasks.go:197-226 | a step of a run's expiry, whatever comes between, ends only an ask it listed that still waits |
| Sessions.EvictOutcome | internal/auth/session.go:571-583 | eviction takes the oldest sessions and nothing else, no more than makes room, and none when none must go |
| Sessions.FinishedSignIn | internal/auth/totp_session.go:233-252 | a finished sign-in leaves the account exactly one session, the new one, with sessions and seats within their limits and nobody else's changed |
| Sessions.RefusedSignIn | internal/auth/totp_session.go:233-252 | under the exact condition below a refused sign-in signs nobody out |
| Sessions.HarmfulRefusal | internal/auth/totp_session.go:233-252 | when the condition fails, a refusal that signs somebody out is exhibited |
| Sessions.LoweredCapHarms | internal/auth/totp_session.go:233-252 | two accounts signed in under a cap since lowered to one: signing in again can sign the account out and be refused |
| Sessions.NeverRevokesThenRefuses | internal/auth/totp_session.go:238-251 | a sign-in never revokes and then refuses if and only if the account's own seat is within the cap and its place needs no eviction (or it had none and needs at most one) |
| Sessions.BoundsAreEnough | internal/auth/session.go:165-174 | active accounts within the seat cap and sessions within 4096 are enough for that condition |
| Sessions.SignInFinishesExactly | internal/auth/totp_session.go:233-252 | a sign-in may finish exactly when there is no cap or, the account counted, no more accounts are signed in than the cap |
| Sessions.SweptExactly | internal/auth/session.go:561-569 | a session is good through the instant it expires and is swept only after it, its row with it |
| Sessions.RevokedExactly | internal/auth/otp.go:437-454 | revoking an account takes its sessions and rows, all of them and no other's, or nothing |
| Sessions.RoomCanBeMade | internal/auth/session.go:397-401 | evicting the oldest can always make room |
| SessionAuth.SessionAuth.RemoveSessions | internal/auth/session.go:588-597 | rows and sessions go together or not at all, and removing nothing cannot fail |
| SessionAuth.SessionAuth.Sweep | internal/auth/session.go:561-569 | exactly the expired sessions are removed, durably first |
| SessionAuth.SessionAuth.ActiveUserIds | internal/auth/session.go:176-185 | the accounts that hold an unexpired session |
| SessionAuth.SessionAuth.HasSeat | internal/auth/session.go:165-174 | whether the account may open a session under the cap |
| SessionAuth.SessionAuth.EvictOldest | internal/auth/session.go:571-583 | the session removed is one created earliest |
| SessionAuth.SessionAuth.MakeRoom | internal/auth/session.go:397-401 | oldest sessions go one after another until one more fits or a delete fails |
| SessionAuth.SessionAuth.OpenSession | internal/auth/session.go:390-412 | sweep, seat check, eviction and insertion as one relation between the old and new map and table |
| SessionAuth.SessionAuth.Save | internal/auth/sessionstore.go:53-74 | a row is written or nothing changes |
| SessionAuth.SessionAuth.RevokeUser | internal/auth/otp.go:437-454 | the account's rows and sessions go, or a failed delete leaves both |
| SessionAuth.SessionAuth.FinishSignIn | internal/auth/totp_session.go:233-252 | the common end of every sign-in as one relation, the subject of the two outcome lemmas |
| SessionAuth.SessionAuth.Logout | internal/auth/session.go:417-422 | an error means the session is still in both places |
| SessionRuns.StepKeepsSound | internal/auth/sessionstore.go:28-40 | every insert, removal, revocation, renewal, late touch, crash and restart, failing or not, keeps the map and the table in agreement |
| SessionRuns.RemovedNeverReturns | internal/auth/session.go:585-597 | a session reported as removed is never again in the map or the table, whatever fails, crashes or restarts afterwards |
| SessionRuns.MirrorNeverAhead | internal/auth/sessionstore.go:157-190 | after a start whose cleanup and read succeeded every row has its live session, in every reachable state, and there are never more than 4096 sessions |
| SessionRuns.RestartBringsBackOnlyTheLive | internal/auth/sessionstore.go:191-238 | a crash and restart then bring back only sessions that were live, for the same account and revision and no longer than before |
| SessionRuns.OnlyTheLiveExactly | internal/auth/sessionstore.go:155-238 | right after any start, every crash and restart from then on brings back only live sessions exactly when the start cleaned the table and read all it kept, or left no unexpired row |
| SessionRuns.FailedCleanupHidesASession | internal/auth/sessionstore.go:185-190 | a run from the first start in which that fails: a session that was not live comes back |
| SessionRuns.OpeningRun | internal/auth/session.go:390-412 | opening a session is a run of those steps, so all of this holds of it |
| SessionRuns.SignInRun | internal/auth/totp_session.go:233-252 | and so is a whole sign-in |
| SessionRuns.CleanedExactly | internal/auth/sessionstore.go:157-190 | the startup cleanup keeps the rows that have not expired: all up to 4096, beyond that the newest 4096 |
| SessionRuns.RenewedExactly | internal/auth/session.go:283-300 | a session is renewed only when less than eleven of its twelve hours are left, and a row write that fails changes no row |
| SessionRuns.RenewalIsStored | internal/auth/session.go:283-300 | a renewal gives twelve hours and reaches the row when that is next written |
| SignIn.StepKeepsSound | internal/auth/otp.go:343-381 | every request, sign-in, ticket and completion step, in any interleaving, keeps passcodes, tickets, sessions and guesses consistent |
| SignIn.OneSessionPerPasscode | internal/auth/otp.go:368-381 | no passcode opens two sessions, directly or through its ticket, and each session is its account's under the revision the passcode was mailed for |
| SignIn.GuessesAndTicketsAreBounded | internal/auth/otp.go:353-363 | no passcode takes more than five wrong guesses or buys two tickets, and at most 1024 sign-ins are pending |
| SignIn.GoodUntilSpent | internal/auth/otp.go:341-382 | over any run: a passcode is still there, unmissed since, exactly when nothing replaced, swept, missed, spent or lost it, where right codes whose session could not be opened leave it; and while it is there its code opens a session |
| SecondFactor.PasscodeAloneOpensNothing | internal/auth/otp.go:366-372 | a passcode presented for an account with a second factor leaves the sessions as they were, whatever else holds; the right one is spent on a ticket that waits |
| SecondFactor.OnlyItsSecondFactorOpens | internal/auth/otp.go:341-382 | over any run: once such a passcode was presented rightly, its session is opened only later, by completing the ticket it bought then |
| SecondFactor.TicketOpensItsSession | internal/auth/totp_session.go:214-227 | over any run: a session of a passcode that bought a ticket was opened by completing that ticket, in no other way |
| SecondFactor.SessionsAreOpened | internal/auth/otp.go:341-382 | over any run: every session was opened by a right passcode of an account with one factor or by a completed ticket |
| SecondFactor.PresentedExactly | internal/auth/otp.go:343-363 | a wrong code is one guess fewer and the fifth burns the passcode; an expired or replaced one opens nothing |
| SecondFactor.LookedExactly | internal/auth/totp_session.go:177-188 | a ticket may be used while it waits, through the instant it expires, and stops waiting otherwise |
| SecondFactor.MistakeExactly | internal/auth/totp_session.go:194-208 | a wrong second factor is counted and the fifth ends the ticket |
| SecondFactor.CompletedExactly | internal/auth/totp_session.go:214-227 | the second factor of a waiting ticket of an unchanged account opens a session of that account and uses the ticket; a changed account ends it; one that could not be opened waits on |
| SecondFactor.TicketsGiveWay | internal/auth/totp_session.go:256-271 | for a new ticket only expired ones go, or when 1024 live ones wait those soonest to expire |
| SecondFactor.RoomCanBeMade | internal/auth/totp_session.go:256-271 | and there is always such room to make |
| SecondFactor.StepLeavesExactly | internal/auth/totp_session.go:177-227 | a ticket waits on exactly through the events that leave it, and never again once it does not |
| SecondFactor.SecondFactorGuessesAreBounded | internal/auth/totp_session.go:194-208 | over any run: a ticket that waits has had fewer than five wrong second factors, in any interleaving |
| SignInDesk.SignInDesk.SweepOtps | internal/auth/otp.go:456-462 | exactly the expired passcodes go |
| SignInDesk.SignInDesk.RequestPasscode | internal/auth/otp.go:231-238 | a new passcode replaces the account's last one |
| SignInDesk.SignInDesk.MakeRoom | internal/auth/totp_session.go:256-271 | expired tickets go, then those earliest to expire, until one more fits |
| SignInDesk.SignInDesk.Present | internal/auth/otp.go:343-381 | every branch of the passcode check: expired, wrong, burned, ticket bought (and no session) for an account with a second factor, opened, or left good |
| SignInDesk.SignInDesk.Look | internal/auth/totp_session.go:177-188 | a ticket that waits and has not expired, or it is forgotten |
| SignInDesk.SignInDesk.Mistake | internal/auth/totp_session.go:194-208 | the fifth wrong second factor burns the ticket |
| SignInDesk.SignInDesk.Complete | internal/auth/totp_session.go:214-227 | a ticket is used only while it waits and the account is as it was |
| AuditQueue.StepKeepsOrder | internal/audit/queue.go:124-154 | every step keeps the queued rows, the one in hand and the finished ones in sequence |
| AuditQueue.StepKeepsCallers | internal/audit/queue.go:124-154 | every step keeps each caller's rows complete, and in order while it never wrote without waiting |
| AuditQueue.QueuedRowsInOrder | internal/audit/queue.go:94-103 | queued rows are finished once each in sequence order, and written is the last of a gap-free finished prefix |
| AuditQueue.FlushSeesEarlierRows | internal/audit/queue.go:158-189 | a flush that returns nil has seen every row queued before it began finished |
| AuditQueue.CloseSeesEveryRow | internal/audit/queue.go:194-207 | Close returns nil only when every queued row is finished |
| AuditQueue.NothingDropped | internal/audit/queue.go:13-23 | every event handed over is in the trail or on its way, once, whatever overflowed, timed out or came after Close |
| AuditQueue.OrderIsKeptUnlessOvertaken | internal/audit/queue.go:121-154 | over any run: a caller's rows are in its own order, and those written the first of them, exactly when it never wrote one itself while an earlier one of its own was still on its way |
| AuditQueue.CallersOrderIsKept | internal/audit/queue.go:142-153 | a caller whose overflow waits did not time out and that wrote nothing after Close never does that |
| AuditQueue.CloseLosesOrder | internal/audit/queue.go:124-154 | after Close a direct write does not wait: a run in which it passes an earlier row of the same caller |
| AuditProgress.WriterCatchesUp | internal/audit/queue.go:94-119 | from any state the writer's own steps come to where every queued row is finished and reported |
| AuditProgress.NobodyWaitsForEver | internal/audit/queue.go:142-207 | so a flush, a caller whose queue was full and Close can always go on without anybody else moving |
| AuditWriter.AuditWriter.Offer | internal/audit/queue.go:124-145 | queued in sequence when open and not full; waiting for the rows ahead when full; written at once when closed |
| AuditWriter.AuditWriter.WriteDirect | internal/audit/queue.go:153-153 | the caller's own row reaches the trail |
| AuditWriter.AuditWriter.WaitFor | internal/audit/queue.go:165-189 | nil exactly when some reading reached the target, at the first that did |
| AuditWriter.AuditWriter.WriteNext | internal/audit/queue.go:94-119 | one row taken, finished and reported, in that order |
| AuditWriter.AuditWriter.Drain | internal/audit/queue.go:94-103 | the closed queue is written out in order to its last row |
| AuditWriter.AuditWriter.Close | internal/audit/queue.go:194-201 | nothing more is queued |
| Registry.UniqueNameIsFree | internal/agents/registry.go:629-660 | the name a session gets is not "web" and is no other account's, online or not |
| Registry.JoinStaysWithinLimits | internal/agents/registry.go:481-502 | making room keeps every account within 64 sessions a project |
| Registry.TouchKeepsSound | internal/agents/registry.go:259-446 | a heartbeat keeps names owned and sessions within their limit |
| Registry.StepKeepsSound | internal/agents/registry.go:508-543 | so do leaving, pruning and setting the mail policy |
| Registry.NamesBelongToOneAccount | internal/agents/registry.go:259-446 | in every reachable state sessions of one name belong to one account, none is "web", and no account is over its limit |
| Registry.FirstMatchIsEnough | internal/agents/registry.go:692-702 | the search that stops at its first match answers the same in whatever order, and says whether any session of the name is another's |
| Registry.NameIsKeptForItsAccount | internal/agents/registry.go:622-645 | a remembered name is given to no other account, and back to its own exactly when none of its sessions is online under it |
| Registry.BindingsHold | internal/agents/registry.go:361-391 | a heartbeat never changes a remembered session's account, whether it is a run's, or which run's |
| Presence.PrunedExactly | internal/agents/registry.go:704-716 | a session is remembered for a day and ninety seconds after it was last seen and online for the ninety seconds, and pruning changes nothing else |
| Presence.LeftIsOffline | internal/agents/registry.go:508-543 | a session that left is offline at every later pruning, and remembered for exactly a day |
| Presence.LeftStaysOffline | internal/agents/registry.go:508-543 | over any run: it stays offline until it is heard of again |
| Presence.HeardStaysOnline | internal/agents/registry.go:481-502 | over any run: a session just heard of stays, online, for ninety seconds unless it leaves; nothing another session or account does takes it away |
| Heartbeats.HeldExactly | internal/agents/registry.go:629-660 | which names are not free |
| Heartbeats.PickedIsFirst | internal/agents/registry.go:629-660 | the name asked for when it is free, else the first free one numbered from 2 to 999, else the one with a random ending |
| Heartbeats.KnownExactly | internal/agents/registry.go:259-446 | a heartbeat of a remembered session in every case: whom it is refused, what it changes, and that others are only pruned |
| Heartbeats.JoinedExactly | internal/agents/registry.go:392-446 | a heartbeat of a new session in every case: refused exactly when its account has 64 online, at most one offline session of the account forgotten to make room, the mail policy it starts with |
| Heartbeats.InboundExactly | internal/agents/registry.go:601-621 | who sets a mail policy, and that nothing else happens |
| RegistryHub.RegistryHub.PruneExpired | internal/agents/registry.go:704-716 | exactly the sessions offline too long go; the rest are online or not by their last heartbeat |
| RegistryHub.RegistryHub.PickName | internal/agents/registry.go:629-660 | the first free candidate, or the fallback when all are taken |
| RegistryHub.RegistryHub.MakeRoom | internal/agents/registry.go:481-502 | room when under the limit; else the session offline longest goes; else refused, all being online |
| RegistryHub.RegistryHub.InheritedHold | internal/agents/registry.go:549-564 | the policy of the most recent offline session whose name is taken over |
| RegistryHub.RegistryHub.Touch | internal/agents/registry.go:259-446 | the whole heartbeat: joined, refreshed or refused, and the new map |
| RegistryHub.RegistryHub.Leave | internal/agents/registry.go:508-543 | offline at once and backdated, so that no later pruning brings it back; another account's session refused |
| RegistryHub.RegistryHub.SetInbound | internal/agents/registry.go:601-621 | only the session's account or an admin sets it |
| RegistryHub.RegistryHub.NameHeldByOther | internal/agents/registry.go:692-702 | a first-match answer, which under owned names is the right one |
| Mailbox.LookExactly | internal/agents/messages.go:695-760 | a look returns exactly the messages of the reader's project that were delivered, not returned before, addressed to one of the reader's names, and owned by the reader's account or by nobody, and marks exactly those read |
| Mailbox.UnreadAreReadable | internal/agents/messages.go:695-716 | what a look returns is in the order the mail was stored, and nothing twice |
| Mailbox.StepKeepsWired | internal/agents/messages.go:643-688 | every step keeps registrations right and every blocked check with mail awake or about to be woken |
| Mailbox.NoLostWakeup | internal/agents/messages.go:913-944 | whenever a check is blocked while mail it may read waits, its channel holds a token or whoever stored the mail has yet to wake it |
| Mailbox.NoMailAtRest | internal/agents/messages.go:643-688 | with no send or approval under way, a check that stays blocked has nothing to read |
| Mailbox.ReadMeansReturned | internal/agents/messages.go:695-716 | mail marked read was returned to some check |
| Mailbox.ReturnedOnceAndApproved | internal/agents/files.go:262-325 | each message is returned at most once, and mail that needs a person's approval only after its own account or an administrator approved that very message |
| Mailbox.ReturnedToItsReader | internal/agents/messages.go:695-716 | over any run: what was returned was addressed to a name its check read for, in its project, and belongs to the account it read for or to none |
| Mailbox.LookReceipts | internal/agents/messages.go:643-688 | and that reader is the one the check looked for |
| Mailbox.DeliveryWasApproved | internal/agents/files.go:262-325 | over any run: held mail that was delivered was approved by its own account or an administrator |
| Mailbox.OtherMailIsDelivered | internal/agents/messages.go:269-325 | mail that needs nobody's approval is delivered as it is stored |
| Mailbox.DecideExactly | internal/agents/files.go:266-328 | a decision is taken exactly on held mail by its account or an administrator, and what everybody else is told |
| Mailbox.DecisionStands | internal/agents/files.go:266-328 | over any run: approved mail stays delivered and rejected mail is never delivered |
| MailRuns.WokenCheckReads | internal/agents/messages.go:643-688 | a blocked check with a token reads all the mail there is for it |
| MailRuns.LateCheckReads | internal/agents/messages.go:643-688 | one whose time is up looks a last time and leaves nothing behind |
| MailRuns.SendIsRun | internal/agents/messages.go:269-325 | a whole send: a message for every recipient, and a token for every check registered when one was delivered |
| MailRuns.ApprovalIsRun | internal/agents/files.go:266-328 | an approval delivers the message and wakes every check registered |
| MailHub.MailHub.Register | internal/agents/messages.go:913-924 | a fresh, empty channel among its project's |
| MailHub.MailHub.Unregister | internal/agents/messages.go:926-932 | that channel and no other leaves |
| MailHub.MailHub.Wake | internal/agents/messages.go:934-944 | every channel of the project holds a token afterwards, and no other gains one |
| MailHub.MailHub.PopUnread | internal/agents/messages.go:695-716 | returns exactly the delivered unread mail of the project addressed to the reader's names and owned by the reader's account or nobody, and marks exactly that read |
| MailHub.MailHub.DecideHeld | internal/agents/files.go:266-328 | only a held message is decided, by one who may, and an approval wakes the project |
| MailHub.MailHub.Send | internal/agents/messages.go:269-325 | one message stored for each recipient, held or delivered by the policy, then one wake if any was delivered |
| TomlText.SplitThenJoin | internal/agentsetup/codex.go:128-131 | splitting a file into lines loses nothing |
| TomlText.JoinThenSplit | internal/agentsetup/codex.go:128-131 | and joining lines loses none of them |
| TomlText.CrlfOnALine | internal/agentsetup/codex.go:123-127 | a file has a CRLF exactly when one of its lines ends in one |
| TomlText.CollapseBlankRuns | internal/agentsetup/codex.go:232-241 | the loops compute the collapse, and terminate |
| TomlText.CollapseRemovesOnlyBlanks | internal/agentsetup/codex.go:232-241 | no triple line end is left and none doubled at the end, only line ends went, texts with neither are untouched exactly, and a second time changes nothing |
| TomlTable.ForeignIsForeign | internal/agentsetup/codex.go:141-176 | what is left once the table is out holds no part of it and is read as it was |
| TomlTable.PutInPlace | internal/agentsetup/codex.go:190-222 | the block is the whole table afterwards, every other line is kept in order, and putting it in again changes nothing |
| TomlTable.PutInPlaceIsNotRefused | internal/agentsetup/codex.go:173-175 | an accepted file is accepted again |
| TomlTable.RefusedExactly | internal/agentsetup/codex.go:141-176 | a file is refused exactly when some line outside multi-line strings and outside the table defines it by its name in the table it is nested in, or by a dotted name at the top |
| TomlReading.StringsExactly | internal/agentsetup/codex.go:151-172 | a line begins inside a multi-line string exactly when one was opened before it and not closed since |
| TomlReading.OwnedExactly | internal/agentsetup/codex.go:190-207 | a line is the table's exactly when it stands in it, or is its header, and is none of the blank and comment lines that lead up to another header |
| TomlReading.ForeignExactly | internal/agentsetup/codex.go:190-221 | what is left without the table is exactly the other lines, each in its place among them |
| TomlFile.ReplacedWhereItWas | internal/agentsetup/codex.go:122-228 | on the file: the table exactly once, all other lines byte for byte and in order, twice equals once, and removal afterwards equals removal before |
| TomlFile.AddedAtTheEnd | internal/agentsetup/codex.go:178-188 | a table that was absent: the text is a prefix of the result but for line ends before the block, and twice equals once exactly when the text has CRLF line ends or does not end in a lone carriage return |
| TomlFile.AddedThenRemoved | internal/agentsetup/codex.go:223-227 | taking out an added table leaves the text without runs of blank lines, or nothing when that is all it had |
| TomlEndings.EndingsAreKept | internal/agentsetup/codex.go:122-241 | a file whose every line ends in CRLF has only such line ends after any edit |
| TomlRemoval.RemovalKeepsAllElse | internal/agentsetup/codex.go:188-228 | taking a table out of any file leaves all else byte for byte exactly when that has no run of three line ends, does not end in two, and is empty or more than white space |
| TomlRemoval.RemovalLeavesNoTable | internal/agentsetup/codex.go:188-228 | always: the lines of the result are the lines outside the table in order, less empty ones (nothing when they are white space alone); none is part of the table; and removing again changes nothing |
| TomlRemoval.RemovalShortensAString | internal/agentsetup/codex.go:220-241 | a file whose other table loses a line of a multi-line string when ours is taken out, with the exact result |
| TomlEdit.Scanned | internal/agentsetup/codex.go:136-176 | the pass over the lines notes exactly the spans of the table, and refuses exactly the files that define it inline |
| TomlEdit.Tightened | internal/agentsetup/codex.go:192-207 | a span gives back the blank and comment lines before the next header and nothing more |
| TomlEdit.SpansAreOwned | internal/agentsetup/codex.go:190-207 | the spans cover exactly the lines the table owns |
| TomlEdit.Rebuilt | internal/agentsetup/codex.go:209-221 | what is between the spans, with the block in the first one's place |
| TomlEdit.Edit | internal/agentsetup/codex.go:122-228 | the whole loop computes ReplaceTable, of which the results above are proved |
| HookGroups.MergeGet | internal/agentsetup/jsondoc.go:244-334 | what merging makes of each event, whatever the others hold |
| HookGroups.MergeTwice | internal/agentsetup/jsondoc.go:240-243 | a second merge changes nothing, key order included, when isOurs recognises each wanted command |
| HookGroups.MergeKeepsForeign | internal/agentsetup/jsondoc.go:244-319 | every handler that is not ours stays, in order, with the rest of its group; what is not a list stays as it is |
| HookGroups.AddThenRemoveIff | internal/agentsetup/jsondoc.go:244-334 | adding ours and removing them again is the identity if and only if the map holds none of ours and, in the events ours go to, no empty list, no group with an empty hooks list and no odd group of ours |
| HookGroups.MineExactly | internal/agentsetup/jsondoc.go:249-259 | a handler is ours exactly when it is an object whose command is text that is ours, and not empty |
| HookGroups.GroupExactly | internal/agentsetup/jsondoc.go:265-283 | the handlers of a group are the list under its "hooks" |
| HookGroups.LastInExactly | internal/agentsetup/jsondoc.go:265-283 | the group the last handler of ours was seen in |
| HookMerge.OrderedObject.SetKey | internal/agentsetup/jsondoc.go:26-31 | a key keeps its place; a new one goes last |
| HookMerge.OrderedObject.DelKey | internal/agentsetup/jsondoc.go:33-44 | the key goes and the others keep their order |
| HookMerge.CountOurs | internal/agentsetup/jsondoc.go:265-283 | how many handlers are ours and the group the last is in |
| HookMerge.StripList | internal/agentsetup/jsondoc.go:291-314 | the groups with ours taken out |
| HookMerge.StripEvent | internal/agentsetup/jsondoc.go:260-319 | one event's turn: settled, left alone, stripped in place or deleted |
| HookMerge.AddWanted | internal/agentsetup/jsondoc.go:321-333 | each wanted group last in its event unless settled or not a list |
| HookMerge.MergeHookGroups | internal/agentsetup/jsondoc.go:244-334 | the method on the ordered object computes Merge, of which the results above are proved, of the groups wanted; of an event named twice the last group, put there twice |
| Budgets.SpacedIsWithinLimit | internal/auth/session.go:491-508 | accepted charges spaced a window apart put at most the limit in any window |
| Budgets.NoWindowOverLimit | internal/auth/session.go:454-541 | over any run with a clock that never goes back, no window of a key's length holds more accepted charges than its limit, while its bucket is not evicted and the window is at most as long as a bucket may stand idle |
| Budgets.BucketsAreCapped | internal/auth/session.go:543-557 | there are never more than 2048 buckets |
| Budgets.RefusedSpendsNothing | internal/auth/session.go:488-496 | a refused call leaves every key what it had |
| Budgets.RoomExactly | internal/auth/session.go:543-557 | room is made only from 2048 buckets on, leaves 2047, and takes none touched later than one that stays |
| Budgets.ForgottenTooSoon | internal/auth/session.go:534-541 | for every longer window a run that exceeds the limit: the sweep forgets the bucket while its charges still count |
| HourlyPasscodes.HourlyPasscodesExceeded | internal/auth/otp.go:390-429 | a run as the server makes it, each request a sweep and then the minute's and the hour's charge together, at least the cooldown apart: thirteen passcodes in an hour whose budget is twelve |
| BudgetBook.BudgetBook.Sweep | internal/auth/session.go:534-541 | exactly the buckets idle too long go |
| BudgetBook.BudgetBook.RecentAttempts | internal/auth/session.go:518-532 | the times that still count, the others forgotten |
| BudgetBook.BudgetBook.MakeRoom | internal/auth/session.go:543-557 | the buckets idle longest go, and only when room is needed |
| BudgetBook.BudgetBook.Spend | internal/auth/session.go:497-506 | one more time in one key's bucket |
| BudgetBook.BudgetBook.ChargeAll | internal/auth/session.go:491-508 | all budgets checked before any is spent |
| BudgetBook.LoopGuard.Check | internal/agents/messages.go:342-373 | a person is never held back; an agent at twenty a minute or at twelve turns in a thread is; the histories afterwards; and what each agent has been let send is what the guard lets through of its calls |
| BudgetBook.AgentsStayWithinTheMinute | internal/agents/messages.go:344-357 | no minute holds more of what the guard lets an agent send, which is what `Check` has let it send, than twenty |
| Scorecards.ScorecardCache.Invalidate | internal/analytics/scorecard_cache.go:48-53 | a new generation and no entries |
| Scorecards.ScorecardCache.Lookup | internal/analytics/scorecard_cache.go:57-65 | a hit exactly for a fresh entry of this generation, and the generation to store under |
| Scorecards.ScorecardCache.Store | internal/analytics/scorecard_cache.go:69-90 | kept only in its own generation; expired entries, then all, make room |
| Scorecards.HitEqualsRecomputing | internal/analytics/scorecard_cache.go:12-16 | once the last change of the data was followed by an invalidation, a hit equals recomputing from the current data in every interleaving; and there are at most 512 entries |
| Scorecards.OvertakenAnswerIsDropped | internal/analytics/metrics.go:62-72 | over any run: an answer asked for before an invalidation is never kept after it |
| Scorecards.StoredExactly | internal/analytics/scorecard_cache.go:69-90 | which answers are kept, until when, and which entries go to make room |
| Scorecards.FoundExactly | internal/analytics/scorecard_cache.go:48-65 | what is found, and that nothing is after an invalidation |
| Scorecards.AnswerIsKept | internal/analytics/metrics.go:54-72 | an answer computed undisturbed is found from then on until its time is over |
| Totp.DigitsAreUnique | internal/auth/totp.go:92-96 | codes are equal exactly when their values are |
| Totp.Hotp | internal/auth/totp.go:77-97 | six digits that write the truncated value modulo a million (section 5.3 of RFC 4226), read from within the twenty-byte code |
| Totp.Normalize | internal/auth/totp.go:103-123 | six digits and separators only, or nothing |
| Totp.MatchStep | internal/auth/totp.go:144-165 | the latest step within one of the clock whose code it is, and none exactly when there is none |
| Totp.LatestMatchEndsReplay | internal/auth/totp.go:158-162 | after the latest match is taken the same code gives no later step while the clock has not moved on |
| Totp.StepsAcceptedOnce | internal/auth/totp_store.go:221-296 | within an enrollment the accepted steps, the confirming one first, strictly increase over racing verifications (section 5.2 of RFC 6238) |
| Totp.RaceHasOneWinner | internal/auth/totp_store.go:280-295 | of two verifications that matched one step at most one is accepted |
| Totp.TruncatedExample | internal/auth/totp.go:77-97 | the example of section 5.4 of RFC 4226 gives 0x50ef7f19 and the code 872921 |
| Totp.TruncatedIsWord | internal/auth/totp.go:86-92 | the four bytes read are a number without its highest bit |
| Totp.TypedExactly | internal/auth/totp.go:103-123 | spaces, dashes and tabs make no difference wherever they stand, and anything else is kept |
| Totp.NormalExactly | internal/auth/totp.go:103-123 | what is kept is a code exactly when it is six digits |
| Totp.MatchedExactly | internal/auth/totp.go:67-73 | the steps looked at and their order, time before the epoch counting as the first step |
| Totp.SkewIsTolerated | internal/auth/totp.go:144-165 | a code read off at one time is found at any other up to thirty seconds from it |
| Totp.RecordedExactly | internal/auth/totp_store.go:280-295 | a verification is accepted exactly when the authenticator is on and its step is later than the last one accepted |
| Totp.EnrolledExactly | internal/auth/totp_store.go:181-263 | enrolling anew, confirming and turning off: when each is possible and what it leaves |
| ShellQuote.WordIsRead | internal/agentsetup/shell.go:58-64 | a word as written is read as itself by the POSIX shell's quoting rules, whatever it holds |
| ShellQuote.PosixRoundTrip | internal/agentsetup/shell.go:55-66 | splitting the line (section 2.2 of the Shell Command Language) gives back the executable, its backslashes slashes on Windows, and the arguments |
| ShellQuote.SlashedHasNoBackslash | internal/agentsetup/shell.go:55-57 | every backslash became a slash and nothing else changed |
| ShellQuote.PsQuoteIsRead | internal/agentsetup/shell.go:99-101 | a doubled quote read as one undoes psQuote |
| ShellQuote.PowerShellRoundTrip | internal/agentsetup/shell.go:39-54 | the PowerShell line gives its words back, and a quoted executable is called |
| ShellQuote.UnescapedRoundTrip | internal/agentsetup/shell.go:81-97 | a line is refused exactly when a word cannot be written without a backslash (on Windows without any quoting); otherwise it holds none and gives its words back |
| ShellQuote.UnquotedExactly | internal/agentsetup/shell.go:58-64 | a word is written as it is exactly when it is not empty and has only plain characters |
| ShellQuote.SlashedExactly | internal/agentsetup/shell.go:55-57 | on Windows alone the POSIX line has slashes for the backslashes of its executable |
| ShellQuote.ShellCmd | internal/agentsetup/shell.go:37-66 | the loop builds that line |
| Units.LineageRoot | internal/analytics/units.go:135-147 | following retries ends on any relation, at the root, which the rows below say is a run of the chain |
| Units.RetriesShareTheirRoot | internal/analytics/units.go:134-147 | a run and the run it retries have the same root if and only if no retry cycle of two or more runs goes through it |
| Units.BackExactly | internal/analytics/units.go:138-145 | one step back is to the run of the history whose id the run names as the one it retries |
| Units.RootIsReached | internal/analytics/units.go:135-147 | the root is a run of the chain, and retries none of the history exactly when the chain ends |
| Units.EndIsRoot | internal/analytics/units.go:135-147 | a chain that ends has the run it ends at as its root |
| Units.CommonRoot | internal/analytics/units.go:135-147 | runs that share a root have retried back to a common run, and runs that have share it when the chain ends |
| Insights.ByCreatedSorts | internal/analytics/units.go:54-54 | a unit's runs are its runs, ordered by creation |
| Insights.GroupRuns | internal/analytics/units.go:33-51 | each key's runs in order, and no run of the history left out |
| Insights.BuildUnits | internal/analytics/units.go:32-102 | exactly one unit for each key, settled by its pipeline or its runs, together all the history's runs |
| Insights.EveryRunInOneUnit | internal/analytics/units.go:32-51 | every run is in exactly one unit |
| Insights.UnitsAreLines | internal/analytics/units.go:32-51 | two runs are one unit's only when they are of one pipeline, or of none and retrying leads back from both to one run; and always then, when those chains end |
| Reports.UnitExactly | internal/analytics/units.go:50-101 | a unit's runs are all of its pipeline or line by creation; when it ended, when it delivered, and how many revisions it took |
| Reports.CountedExactly | internal/analytics/insights.go:87-101 | the runs counted are those of ended units but for checks of another's work, each once |
| Reports.TotalsExactly | internal/analytics/insights.go:87-98 | how many units ended, delivered, delivered without a revision, and how many revisions there were |
| Reports.TypesExactly | internal/analytics/insights.go:115-119 | runs are counted at their node's type, those of none at the unknown one |
| Reports.EstimatedExactly | internal/analytics/insights.go:104-106 | the estimated cost is the cost of the runs whose cost is an estimate |
| Insights.SumAdd | internal/analytics/insights.go:44-46 | adding a cost to one value adds it to the sum over all values |
| Insights.Dimension.Count | internal/analytics/insights.go:44-53 | each value's cost and runs stay those of the runs counted there, and their sums the whole |
| Insights.CountUnit | internal/analytics/insights.go:99-119 | an ended unit's runs, checks of other work aside, counted along all four dimensions |
| Insights.ComputeInsights | internal/analytics/insights.go:75-133 | costs and run counts by role, by agent, by model and by node type each add up to the totals |

## Left out

- SQL: the hub's in-memory branches are modelled; the table of sessions is a map whose writes may fail. What the
  database branches add (errors swallowed by background updates) is not.
- Cryptography: digests are assumed injective where a lemma says so, tokens and random suffixes fresh; HMAC, sealing
  and password hashing are left open.
- Text: letter case is folded for ASCII only, and bytes that are no valid UTF-8 do not occur. Patterns (`tomlHeader`,
  the inline definitions, `nodevasHook`) are a classification of a line or a command; `TomlTable.Understands` says what
  is asked of it: a line ending does not change it, and no blank or comment line opens a multi-line string.
- AskStore.Resolve: a decision is one of four; how its words are spelled (`normalizeDecision`) is not modelled.
- AskHub.Hub.ReleaseRunPrompts: notices about released prompts, and the approval forwarded for one, are left out.
- Late answers: the mail a late answer goes out as, and the notices to observers.
- Registry.TouchKeepsSound: assumes the name with a random ending is nobody's. What a session says of its work (agent,
  repository, branch, state, node, model) and presence events are left out; it decides no name and no limit.
- RegistryHub.RegistryHub.Touch: a session's state, task, node, model and presence event are left out.
- RegistryHub.RegistryHub.Leave: the reset of state, task and node, and the presence event, are left out.
- Registry.NameIsKeptForItsAccount: what the mail sent under a name says of its owner after a restart is one flag.
- Mailbox.NoLostWakeup: assumes that storing one message of a broadcast does not fail part way; the in-memory branch
  cannot. Addresses, aliases and message bodies are numbers.
- MailHub.MailHub.Send: starts from the recipients; resolving addresses, threads, files and notices are left out, and
  the loop guard before it is `BudgetBook.LoopGuard.Check`.
- Mailbox.ReturnedOnceAndApproved: a message is known by its place, so two messages never share an id.
- Budgets.NoWindowOverLimit: says nothing of a key whose bucket was evicted to make room.
- SessionRuns.MirrorNeverAhead: rows edited by hand, and rows of unreadable form, are left out; step-up times too.
- SessionRuns.StepKeepsSound: a renewal is stored within an hour of the check that found it due.
- SignIn.OneSessionPerPasscode: the throttles charged before a passcode is looked at, and step-up passcodes, are apart.
- Totp.StepsAcceptedOnce: recovery codes and the per-account failure budgets are left out.
- AuditQueue.QueuedRowsInOrder: a row is finished when it is written or its fallback line is; which of the two is left
  open.
- HookGroups.MergeTwice: equality of JSON stands for equality of its encodings; parsing and encoding are left out, and
  nested values are changed by value, so that two groups share no object.
- ShellQuote.PosixRoundTrip: about words only; that an executable holding "=" would be read as an assignment is not
  modelled, nor PowerShell's other quotation marks.
- Insights.BuildUnits: a unit's owners, its difficulty and its test discipline are left out.
- Insights.Dimension.Count: the delivered units kept for each value are left out.
- Insights.ComputeInsights: costs before rounding; deliveries per value, rates and waste are left out.
- Scorecards.HitEqualsRecomputing: the copy made of an answer's rows, since answers are values.
- Everything in `cmd/`, HTTP handling, terminals, processes, git and the browser side: input and output.
