# Verified model of the agent harness

This project models, in Dafny, the stateful cores of the agent harness and proves what they keep over whole runs:

- the **channel gateway**: per-account message queues, the round-robin supervisor over accounts, durable records, crash
  recovery, route selection, the notification budget and the webhook replay guard;
- the **command worker** of the terminal client, which remembers, loses and resends commands across reconnects;
- the **managed event stream**, which hands over from retained frames to live ones;
- the **dependency policy** searches;
- the terminal client's **text layout**, **composer** and **pending prompts**;
- **desktop updates**: staging, key pinning, activation and rollback at every crash point;
- the **browser session table** and its mutation limiter.

Code that computes a value is a function. Code that changes things step by step is a class or a method with loops, proved
equal to a function on values; the run properties are lemmas about those functions. Time, randomness, the network and the
file system are inputs: a clock reading, a fresh name, "this write succeeds" or "this call fails" is a parameter that the
lemmas quantify over, so every property holds whatever they do. Strings are sequences of characters; where the source
works on bytes (the composer and its cursor) so does the model, with UTF-8 as in section 3 of RFC 3629.

`dafny verify dfyconfig.toml` checks the whole project.

## How the files fit together

| file | what it holds |
|---|---|
| `Seqs.dfy`, `Text.dfy`, `Utf8.dfy` | shared values: options and results, newest-of-a-list, white space and text order, UTF-8 |
| `GatewayQueue.dfy` | one account's queue, as an index and as the list of waiting messages |
| `Routes.dfy` | route selection and event resolution |
| `Accounts.dfy`, `Restore.dfy` | one account's tables: durable record, contexts, queue, in-flight; rebuilding them after a restart |
| `Supervisor.dfy`, `SupervisorRuns.dfy` | all accounts: scheduling, agreement of the tables, persistence, recovery |
| `Answers.dfy`, `Permissions.dfy` | what the supervisor answers over runs; the permissions that messages are handed out with |
| `Restarts.dfy`, `FailingRuns.dfy` | crash after crash; runs in which agreement is lost or an account cannot be restored |
| `Gateway.dfy` | the supervisor as it runs |
| `NotificationBudget.dfy`, `ReplayGuard.dfy` | the fixed-window budget; the bounded replay guard |
| `CommandWorker.dfy` | the worker as a state machine and as loops |
| `SseHandover.dfy` | publisher, broadcast channel and clients that resume |
| `DependencyPolicy.dfy` | both worklist searches |
| `EditorLayout.dfy`, `WordWrap.dfy` | editor rows and cursor; word wrapping |
| `Composer.dfy`, `PendingPrompts.dfy` | editing and history; optimistic prompts |
| `DesktopUpdate.dfy` | update activation and rollback |
| `BrowserSecurity.dfy` | sessions and the mutation limiter |

## What does not hold without a condition

Some properties that the code suggests hold only under a condition. Each has the exact condition and a concrete failing case.

- *The account tables always agree.* A queue remembers only its newest accepted keys, so a message that is still pending can
  be accepted again once its key is forgotten and both bounds leave room. An operation keeps agreement exactly when it is not
  such a redelivery (`Accounts.AcceptAgreesIff`, `SupervisorRuns.RunSoundIff`). `FailingRuns.RedeliveryHappens` is a run that
  ends in one; afterwards, completing the first copy erases the context of the second, which the scheduler then drops
  (`FailingRuns.ForgottenRedeliveryIsLost`). What a restart recovers is proved for every run, redeliveries included; with
  them it is not everything pending, as the next item says.
- *A message is handed out with the permissions of its own sender.* It is in every run without a redelivery
  (`Permissions.HandedOutAsEntitled`). The key of a message does not name its sender, so a message of the same identity from
  another sender, accepted after the key is forgotten, replaces the permissions of the one that still waits. Accepting a message
  leaves the others their permissions exactly when it is not such a redelivery with other permissions
  (`Accounts.ContextsKeptIff`); `FailingRuns.BorrowedPermissions` is a run in which a message is handed out with tools that
  its sender does not have.
- *A restart always restores an account, with everything pending.* Messages in flight wait again after a restart, so a full
  queue with one message in flight cannot be restored; nor can an account whose last adapter error had a blank message, which
  is stored unchecked and then fails validation. Restoring queues the pending messages one by one, and drops each whose key is
  among the newest kept before it, as many as the queue remembers (`Restore.Requeued`). A stored record is restored exactly
  when its health validates, its bounds are positive, every pending message is admissible and the kept ones fit the bounds
  (`Restore.RestoreExact`); a key then has the context of its last pending entry (`Restore.LastContext`). Nothing is dropped
  when no key is pending twice (`Restore.RestoreDistinct`), so in every run without a redelivery
  (`SupervisorRuns.UndisturbedRecovery`). `FailingRuns.UnrestorableHappens` and `FailingRuns.BlankErrorCannotReopen` leave
  accounts that cannot be restored; `FailingRuns.DoubledIsRestoredOnce` leaves a record with one message twice, which is
  restored with one copy even where two do not fit.
- *A tie between routes is reported.* Only the runner-up is compared (`Routes.ThirdTieHappens`); ambiguity is reported
  exactly when the runner-up ties and leads elsewhere (`Routes.SelectRouteMeaning`).
- *Wrapping keeps indentation wherever it fits.* Every row starts with the line's indentation exactly when there is none, or
  it is narrower than the width, or no word follows it, or it is as wide as the row and the one word that follows takes no
  column (`WordWrap.IndentationKeptIff`). Two combining accents after an indentation as wide as the row lose it
  (`WordWrap.EdgeIndentationIsDropped`).
- *The composer's cursor is drawn at its character.* The byte offset into the raw text is looked up in the sanitized text. That
  finds the right character exactly when the bytes that replacement adds before it are fewer than its own
  (`EditorLayout.ScreenCursorExact`); one control character before an ASCII letter is enough to miss it
  (`EditorLayout.ControlMisplacesCursor`).
- *Pending prompts of equal text are numbered consecutively.* A failed prompt breaks this unless it is the newest of its text,
  and a failed prompt that is accepted after all breaks it unless it is next in line (`PendingPrompts.FailureKeepsNumberingIff`,
  `PendingPrompts.RevivalKeepsNumberingIff`, with `PendingPrompts.RunNumberedIff` for whole runs and `PendingPrompts.StuckAfterFailure` and `PendingPrompts.RetiredTogether` as the failing cases).
- *An installed update can be run.* The staged copy is verified again, its target is not, so an update whose source changes
  during the copy may be activated and then refused at every start. It can be run exactly when the copy's manifest is for this
  host (`DesktopUpdate.ActivatedLaunchesIff`, with `DesktopUpdate.ChangedTargetHappens` as the failing case).
- *An interrupted activation can be repeated.* It can exactly when it left neither half a key nor the version itself behind
  (`DesktopUpdate.RepeatIff`). A process that stops between creating and writing the key file leaves half a key, and no later
  activation succeeds (`DesktopUpdate.RunKeepsPin`); one that stops between the rename and the new active record leaves an
  installed version that no later run makes active (`DesktopUpdate.StrandedForEver`). `DesktopUpdate.UnrepeatableHappens`
  shows both.

## Model

| member | source | states |
|---|---|---|
| GatewayQueues.KeyDistinguishes | crates/channel-core/src/lib.rs:78-87 | without embedded NULs two messages share a key exactly when channel, account, conversation, thread part and message id are equal |
| GatewayQueues.EnqueueRefines | crates/channel-core/src/lib.rs:1000-1026 | a message is queued exactly when it is well formed, its key is not remembered and both bounds leave room; it joins the end of the waiting list; any other answer changes nothing |
| GatewayQueues.EnqueueAnswers | crates/channel-core/src/lib.rs:1000-1026 | each answer has its exact reason: incomplete, attachments too many or too large, key remembered, no room, or queued |
| GatewayQueues.TakeRefines | crates/channel-core/src/lib.rs:1029-1043 | a message is handed out exactly when the concurrency bound leaves room and some idle session waits; it is that session's oldest |
| GatewayQueues.CompleteRefines | crates/channel-core/src/lib.rs:1050-1064 | completion succeeds exactly for a session in flight and releases only that one |
| GatewayQueues.RunRepresents | crates/channel-core/src/lib.rs:957-1078 | after every run the per-session index, counter, ready list and windows represent the arrival-ordered waiting list |
| GatewayQueues.RunWindow | crates/channel-core/src/lib.rs:1070-1078 | after every run the remembered keys are the newest accepted ones, up to the bound |
| GatewayQueues.RunConserves | crates/channel-core/src/lib.rs:1000-1064 | over every run, per session and in order: waiting plus accepted is handed out plus still waiting |
| GatewayQueues.FirstInFirstOut | crates/channel-core/src/lib.rs:1000-1078 | every session gets its accepted messages first in, first out; a key is remembered exactly while it is among the newest accepted |
| GatewayQueues.RunTurns | crates/channel-core/src/lib.rs:1000-1064 | over every run, sessions are handed messages in the order in which they became due: due before plus become due is handed one plus still due |
| GatewayQueues.ServedInTurn | crates/channel-core/src/lib.rs:1029-1064 | a session with i others due before it is handed the (i+1)-st of the next messages, whatever is offered and settled meanwhile, or is still due |
| GatewayQueues.GatewayQueue.constructor | crates/channel-core/src/lib.rs:973-992 | a new queue with positive bounds is the empty one |
| GatewayQueues.GatewayQueue.RememberKey | crates/channel-core/src/lib.rs:1070-1078 | the loop that forgets old keys leaves the newest ones |
| GatewayQueues.GatewayQueue.Add | crates/channel-core/src/lib.rs:1000-1026 | the method changes the fields as the specified enqueue does and keeps the representation |
| GatewayQueues.GatewayQueue.Push | crates/channel-core/src/lib.rs:1016-1024 | the backlog, counter and ready-list updates followed by remembering the key are one append |
| GatewayQueues.GatewayQueue.Take | crates/channel-core/src/lib.rs:1029-1043 | the ready-list loop returns what the specified dispatch returns |
| GatewayQueues.GatewayQueue.Release | crates/channel-core/src/lib.rs:1050-1064 | the method changes the fields as the specified completion does |
| Routes.SelectRouteMeaning | apps/channel-gateway/src/lib.rs:1203-1244 | no route exactly when nothing matches; ambiguity exactly when the runner-up ties with another target; otherwise the maximum by priority, specificity and smallest id |
| Routes.BestIsUnique | apps/channel-gateway/src/lib.rs:1225-1235 | the best matching rule is unique |
| Routes.RunnerUpIsUnique | apps/channel-gateway/src/lib.rs:1225-1240 | the runner-up is unique |
| Routes.BestIsHighest | apps/channel-gateway/src/lib.rs:1203-1244 | a rule is best exactly when it is enabled, asks for nothing the message is not, and no other such rule has a higher priority, or the same and more conditions, or both the same and a smaller id |
| Routes.OrderDoesNotMatter | apps/channel-gateway/src/lib.rs:1203-1244 | with unique ids, every ordering of the rule list gives the same answer |
| Routes.ThirdTieIsNotChecked | apps/channel-gateway/src/lib.rs:1236-1243 | a third rule tied with the chosen one may lead elsewhere without being reported |
| Routes.ThirdTieHappens | apps/channel-gateway/src/lib.rs:1236-1243 | three concrete rules for which it happens |
| Routes.ResolvedByBest | apps/channel-gateway/src/lib.rs:1136-1201 | an event is accepted as a message exactly when it is what the event says, for this account, by its best and unambiguous route past the mention and participant rules; profile, session and route id are the route's, tools and schedules hold exactly for a direct event or a sender that the route names for them, proactive posts likewise, shared memory only in a group |
| Routes.RefusedBecause | apps/channel-gateway/src/lib.rs:1136-1201 | each refusal has its exact reason |
| Accounts.AcceptAgreesIff | apps/channel-gateway/src/lib.rs:681-709 | accepting a message keeps record, contexts, queue and in-flight table in agreement exactly unless it is pending, admissible, no longer remembered, and both bounds leave room |
| Accounts.ContextsKeptIff | apps/channel-gateway/src/lib.rs:681-709 | accepting a message leaves every pending one its own permissions exactly unless it is a forgotten pending one accepted with others |
| Accounts.VisitAgrees | apps/channel-gateway/src/lib.rs:721-746 | under agreement a scheduler visit never loses a message, serves exactly when the account is runnable and has one ready, and serves the session's oldest pending message in its accepted context |
| Accounts.FinishAgrees | apps/channel-gateway/src/lib.rs:791-816 | under agreement completion succeeds exactly for a session in flight and removes that message, and no other, from every table |
| Restore.RestoreExact | apps/channel-gateway/src/lib.rs:442-507 | any stored record is restored exactly when its health validates, its bounds are positive, all pending messages are admissible and those left after dropping repeated keys fit; it then waits with exactly those, in order, and its tables agree exactly when no key is pending twice |
| Restore.LastContext | apps/channel-gateway/src/lib.rs:478-497 | the context that a pending key is restored with is that of the last pending entry of that key |
| Restore.RestoreDistinct | apps/channel-gateway/src/lib.rs:442-507 | when no key is pending twice, an admissible record is restored exactly when its health validates and all pending messages fit, and then waits with all of them, in arrival order and accepted context, in full agreement |
| Restore.RestoredRuns | apps/channel-gateway/src/lib.rs:451-475 | a restored account is its record but for the lifecycle: served exactly when enabled, not failed and no longer throttled; taking events exactly when enabled and not failed |
| Restore.FullWithOneInFlightFails | apps/channel-gateway/src/lib.rs:478-497 | a full queue with a message in flight cannot be restored |
| Supervisor.TakeFairRotates | apps/channel-gateway/src/lib.rs:714-747 | a scheduler call only rotates the order, and changes nothing when it skips every account |
| Supervisor.StepOrderValid | apps/channel-gateway/src/lib.rs:522-816 | every operation keeps the order a duplicate-free list of exactly the accounts |
| Supervisor.RunOrderValid | apps/channel-gateway/src/lib.rs:522-1102 | so does every run |
| Supervisor.StepMovesUp | apps/channel-gateway/src/lib.rs:591-747 | no operation moves a ready account back, and a call that does not serve it moves it up |
| Supervisor.BoundedWaiting | apps/channel-gateway/src/lib.rs:714-747 | while an account at index i is ready and unserved, at most i scheduler calls pass and each moves it up, with accounts added, removed, paused and fed in between |
| Supervisor.ServedInTime | apps/channel-gateway/src/lib.rs:714-747 | an account at index i that stays ready until it is served is served by one of the next i+1 scheduler calls |
| SupervisorRuns.StepSoundIff | apps/channel-gateway/src/lib.rs:655-816 | one operation keeps all accounts' tables in agreement exactly when it is not a redelivery of a forgotten pending message |
| SupervisorRuns.TakeSound | apps/channel-gateway/src/lib.rs:714-747 | the scheduler hands out a message exactly when some account is ready, and it is a pending one of that account |
| SupervisorRuns.RunSoundIff | apps/channel-gateway/src/lib.rs:655-816 | the tables agree in every state of a run exactly when no operation of it was such a redelivery |
| SupervisorRuns.StoreFollows | apps/channel-gateway/src/lib.rs:339-368 | after every run, each account whose latest write succeeded has its pending messages on disk |
| SupervisorRuns.PendingIsOutstanding | apps/channel-gateway/src/lib.rs:681-816 | over every run, redeliveries included, an account's pending messages are the accepted and not completed ones, in order |
| SupervisorRuns.RunStocked | apps/channel-gateway/src/lib.rs:522-816 | over every run each queue has its account's configured bounds, they are positive, and every pending message is admissible |
| SupervisorRuns.CrashRecovery | apps/channel-gateway/src/lib.rs:442-507 | after any run, redeliveries included, an account whose latest write succeeded has the accepted and not completed messages on disk; restoring it succeeds exactly when the health validates and those left after dropping repeated keys fit, and it then waits with exactly those, in order, each key in the context of its last entry |
| SupervisorRuns.UndisturbedRecovery | apps/channel-gateway/src/lib.rs:442-507 | after a run without a redelivery nothing is dropped: the account waits with all accepted and not completed messages, each in its accepted context, with tables in agreement, exactly when they fit and the health validates |
| Answers.RunMembers | apps/channel-gateway/src/lib.rs:522-602 | over every run the accounts, in memory and on disk, are those added under a usable and accepted configuration and not removed since, going by the operations alone |
| Answers.AddedRuns | apps/channel-gateway/src/lib.rs:522-602 | a new account has nothing pending, comes last in the order, and takes events and is served exactly when enabled |
| Answers.RunRemembers | crates/channel-core/src/lib.rs:1070-1078 | over every run, redeliveries included, an account remembers exactly the newest keys it accepted, up to its bound |
| Answers.DeliveryAnswers | apps/channel-gateway/src/lib.rs:655-711 | under agreement an event is queued exactly when the account takes events, the event entitles it to a complete message within the attachment bounds, its key is not remembered and both bounds leave room; duplicate, backpressure and unavailable are exact too |
| Answers.ServedIff | apps/channel-gateway/src/lib.rs:714-747 | under agreement a visit serves exactly an account that is starting, running or reconnecting, below its concurrency bound, with a message waiting for a session that has none in flight |
| Answers.AcceptedIsServed | apps/channel-gateway/src/lib.rs:681-747 | accepting a message makes its account run, and the next visit serves it if bound and session allow |
| Answers.CompletionAnswers | apps/channel-gateway/src/lib.rs:791-816 | in any state, completion succeeds exactly for a session whose message was handed out and removes that message; a session whose message was lost is only released, in memory; any other changes nothing |
| Answers.ChangeTakesEffect | apps/channel-gateway/src/lib.rs:823-965 | pausing, resuming and recording errors take effect in memory even when the write fails, touch no message and no other account, and decide whether events are taken and messages served |
| Restarts.RunKept | apps/channel-gateway/src/lib.rs:339-816 | over every run without such a redelivery the store has exactly the accounts, and every stored record is valid, duplicate-free and admissible |
| Restarts.ReopenedKept | apps/channel-gateway/src/lib.rs:436-515 | whatever such a run left, a supervisor reopened from its store satisfies everything a run starts from |
| Restarts.EveryLifeStartsSound | apps/channel-gateway/src/lib.rs:436-515 | over any number of crashes and reopenings every life starts with tables that agree and a store that holds them, if no life had such a redelivery |
| Restarts.ReopenedReady | apps/channel-gateway/src/lib.rs:436-515 | whatever store it opened, a supervisor starts with a valid order, exactly the stored accounts, configured and positive bounds, admissible messages, and every account on disk |
| Restarts.RecoversLastWrite | apps/channel-gateway/src/lib.rs:442-507 | whatever was redelivered and whatever writes failed, a stored account has the messages accepted and not completed as of its last successful write, and is restored from them as after a run whose writes all succeeded |
| Restarts.EveryLifeRecovers | apps/channel-gateway/src/lib.rs:436-515 | over any number of crashes and reopenings this holds of every life, with redeliveries and failed writes in any of them |
| Restarts.UndisturbedLastWrite | apps/channel-gateway/src/lib.rs:442-507 | after a run without a redelivery, with any writes failed, a restore recovers all messages accepted and not completed as of the last successful write, or fails, exactly when they exceed the bounds or the health is invalid |
| Permissions.RunSourced | apps/channel-gateway/src/lib.rs:655-747 | over every run everything pending, waiting and stored was pending at the start or entitled by an event delivered to the account, and every route context is one of the same key |
| Permissions.HandedOutMeaning | apps/channel-gateway/src/lib.rs:714-747 | so, whatever is delivered again, a message handed out is one an event entitled, with the permissions of one of its key |
| Permissions.HandedOutAsEntitled | apps/channel-gateway/src/lib.rs:714-747 | without a redelivery it has exactly the place and permissions that its own event, sender and best route entitle it to |
| Permissions.EveryLifeIsEntitled | apps/channel-gateway/src/lib.rs:436-515 | over any number of crashes, whatever an account starts a life with was entitled by an event delivered to it in an earlier one |
| FailingRuns.ForgottenRedelivery | apps/channel-gateway/src/lib.rs:655-711 | add, deliver, take, deliver, redeliver: with one remembered key the tables agree up to the redelivery and not after it |
| FailingRuns.ForgottenRedeliveryIsLost | apps/channel-gateway/src/lib.rs:728-744 | after completing the first copy the next scheduler call takes the second from the queue and hands nothing out |
| FailingRuns.RedeliveryHappens | crates/channel-core/src/lib.rs:1070-1078 | a concrete account and two events for which it happens |
| FailingRuns.FullQueueCannotReopen | apps/channel-gateway/src/lib.rs:478-497 | after the same operations with room for one waiting message, the stored record cannot be restored |
| FailingRuns.UnrestorableHappens | apps/channel-gateway/src/lib.rs:478-497 | a concrete account for which it happens |
| FailingRuns.BlankErrorCannotReopen | apps/channel-gateway/src/lib.rs:920-965 | in any state, any account whose adapter error was just stored with a blank message, whatever else changed, cannot be restored |
| FailingRuns.DoubledIsRestoredOnce | apps/channel-gateway/src/lib.rs:478-497 | add, deliver, take, deliver, take, complete, redeliver: with one remembered key the first message is stored twice, and a restart waits with one copy although two exceed a bound of one message a session |
| FailingRuns.BorrowedPermissions | apps/channel-gateway/src/lib.rs:681-747 | a concrete group account: a message of a sender without tools waits, its key is forgotten, another sender with tools posts one of the same identity, and the first is handed out with tools |
| Gateway.RestoreRuntime | apps/channel-gateway/src/lib.rs:442-507 | the restore loop computes the specified restore |
| Gateway.Open | apps/channel-gateway/src/lib.rs:436-515 | opening succeeds exactly when every stored account validates, health included, is accepted by the adapter catalogue and restores, and then holds all of them in stored order |
| Gateway.ChannelGatewaySupervisor.Put | apps/channel-gateway/src/lib.rs:339-354 | a failed write puts the previous record back |
| Gateway.ChannelGatewaySupervisor.AddAccount | apps/channel-gateway/src/lib.rs:522-602 | adding an account acts as specified and keeps the order valid |
| Gateway.ChannelGatewaySupervisor.RemoveAccount | apps/channel-gateway/src/lib.rs:1086-1102 | removing an account acts as specified and keeps the order valid |
| Gateway.ChannelGatewaySupervisor.EnqueueEvent | apps/channel-gateway/src/lib.rs:655-711 | an event changes memory and store as specified, write failures included |
| Gateway.ChannelGatewaySupervisor.TakeFair | apps/channel-gateway/src/lib.rs:714-747 | the loop over the order hands out what the specified scheduler does and rotates as it does |
| Gateway.ChannelGatewaySupervisor.CompleteSession | apps/channel-gateway/src/lib.rs:791-816 | completion changes memory and store as specified, write failures included |
| NotificationBudget.RunKeeps | apps/channel-gateway/src/lib.rs:1048-1079 | over every run with failed writes and restarts, windows in memory, on disk and in the grants never overlap and what is left of each is covered by its capacity |
| NotificationBudget.WindowLimit | apps/channel-gateway/src/lib.rs:1048-1134 | every window grants at most its capacity |
| NotificationBudget.IntervalLimit | apps/channel-gateway/src/lib.rs:1048-1134 | any interval as long as a window grants at most twice the capacity |
| NotificationBudget.RunExact | apps/channel-gateway/src/lib.rs:1048-1134 | over every run, whatever writes fail and whenever it restarts: grants, what failed writes took and what is left make up the capacity, in memory and on disk |
| NotificationBudget.AnswersExact | apps/channel-gateway/src/lib.rs:1048-1079 | a reservation is refused as exhausted exactly in a window that grants and failed writes have used up, and one that is granted is answered with what it leaves; without a route, or one that allows proactive posts, nothing changes |
| NotificationBudget.ExhaustedOnlyWhenSpent | apps/channel-gateway/src/lib.rs:1048-1079 | when all writes succeed, exactly in a window that has granted its whole capacity |
| NotificationBudget.AccountBudget.ReserveNotification | apps/channel-gateway/src/lib.rs:1048-1079 | the method refreshes, charges and persists as specified |
| ReplayGuard.VerifiedIff | apps/channel-gateway/src/lib.rs:1321-1341 | a delivery is verified exactly when identity and id are well formed, it is signed, its body is within bounds and not empty, and it was received within a positive skew |
| ReplayGuard.StepKeeps | apps/channel-gateway/src/lib.rs:1399-1515 | the remembered set is the set of the order, duplicate-free, within capacity and the newest of what is on disk; an operation that fails, failed flushes included, changes nothing; restarts under another capacity are operations |
| ReplayGuard.RunKeeps | apps/channel-gateway/src/lib.rs:1399-1515 | so over every run |
| ReplayGuard.ReopenRestores | apps/channel-gateway/src/lib.rs:1399-1449 | whatever a run with restarts persisted is accepted on opening under any positive capacity: under a smaller one it restores the newest remembered deliveries, under a larger one all of them |
| ReplayGuard.ReplayRefused | apps/channel-gateway/src/lib.rs:1468-1515 | an admitted delivery is refused as long as no removal of its account succeeds and fewer admissions follow than the least capacity in use, through failed flushes, failed removals and restarts |
| ReplayGuard.RefusedWasAdmitted | apps/channel-gateway/src/lib.rs:1399-1515 | only a delivery that was admitted, with its account not removed since, is remembered in memory or on disk |
| ReplayGuard.RegisteredIff | apps/channel-gateway/src/lib.rs:1451-1488 | the accounts are those registered under a name that is not blank and not removed since, going by the operations alone |
| ReplayGuard.AnswerOverRuns | apps/channel-gateway/src/lib.rs:1490-1515 | over every run: a delivery is unknown exactly when its account is not registered; refused as a replay only if admitted before with its account not removed since; and otherwise admitted, unless the write fails |
| ReplayGuard.ChangeAnswers | apps/channel-gateway/src/lib.rs:1451-1488 | registration fails exactly for a blank name or a failed write, removal exactly for a failed write |
| ReplayGuard.Trim | apps/channel-gateway/src/lib.rs:1419-1421 | the loop keeps the newest entries |
| ReplayGuard.Check | apps/channel-gateway/src/lib.rs:1422-1442 | the entry loop accepts exactly duplicate-free, well-formed entries of registered accounts |
| ReplayGuard.OpenFile | apps/channel-gateway/src/lib.rs:1399-1449 | opening succeeds exactly under a positive capacity on a version 1 file whose newest entries are distinct, named and of registered accounts, all named, and restores those entries |
| ReplayGuard.WebhookIngressRouter.RegisterAccount | apps/channel-gateway/src/lib.rs:1451-1466 | registration with undo on a failed flush acts as specified |
| ReplayGuard.WebhookIngressRouter.RemoveAccount | apps/channel-gateway/src/lib.rs:1468-1488 | removal with undo on a failed flush acts as specified |
| ReplayGuard.WebhookIngressRouter.Push | apps/channel-gateway/src/lib.rs:1500-1508 | remembering with expiry of the oldest keeps set and order together |
| ReplayGuard.WebhookIngressRouter.AdmitDelivery | apps/channel-gateway/src/lib.rs:1490-1515 | admission with undo on a failed flush acts as specified |
| CommandWorker.EveryRunIsSafe | apps/agent-tui/src/connection.rs:325-429 | in every run, whenever the worker waits or announces a reconnection each command taken and not answered was sent on the connection in use; no connection carries a command twice; each carries its connection's protocol |
| CommandWorker.EveryRunConverses | apps/agent-tui/src/connection.rs:325-429 | in every run each act follows what it should: a command is sent at once or reported; a wait ends in what was heard; each message, result or other, is handed on at once as what it is, unless the worker stopped there, and nothing else is handed on as one; each recovery reports every command without a result once and ends in its announcement; a failed attempt is reported at once; giving up after a failed receive is reported. Commands taken, messages heard, connections opened or refused and commands sent are exactly what the outside world did, in order |
| CommandWorker.StopsIff | apps/agent-tui/src/connection.rs:325-429 | the worker stops exactly when its queue or its listener is gone or it is shut down |
| CommandWorker.TenLooks | apps/agent-tui/src/connection.rs:413-426 | between two attempts it looks ten times for a shutdown while it rests, and once more |
| CommandWorker.RunKeeps | apps/agent-tui/src/connection.rs:325-429 | the invariant of every state of the machine, mid-replay included |
| CommandWorker.CommandLoop | apps/agent-tui/src/connection.rs:325-429 | the loops produce the machine's log, so it is safe and each act follows what it should |
| CommandWorker.Worker.RecoverConnection | apps/agent-tui/src/connection.rs:383-429 | the recovery loop follows the machine through connecting, resending, announcing and giving up |
| CommandWorker.Worker.ResendAll | apps/agent-tui/src/connection.rs:404-412 | the replay loop sends the remembered commands in order and stops at the first failure |
| CommandWorker.Worker.Work | apps/agent-tui/src/connection.rs:325-381 | the main loop follows the machine |
| CommandWorker.Worker.SendOne | apps/agent-tui/src/connection.rs:335-354 | a taken command is remembered and sent, or recovered from |
| CommandWorker.Worker.Receive | apps/agent-tui/src/connection.rs:359-380 | results settle their command and are handed on like any other message, time-outs are ignored, other errors are recovered from |
| SseHandover.ReplayExact | crates/acp/src/transport.rs:176-198 | a cursor is rejected exactly when it is ahead of the history or a frame after it is no longer retained; otherwise the replay is every frame past it |
| SseHandover.StartsAtOldest | apps/agent-acp/src/managed_transport.rs:230-253 | a client without a cursor is given every frame retained when it reads |
| SseHandover.NoGapNoDuplicate | apps/agent-acp/src/managed_transport.rs:230-276 | in every interleaving of publishing, broadcasting, subscribing, reading and resuming, a client has received consecutive frames of the history from its cursor on |
| SseHandover.CaughtUp | apps/agent-acp/src/managed_transport.rs:230-276 | a client that has drained replay and broadcast has received every frame since its start |
| SseHandover.RunPublishes | crates/acp/src/transport.rs:137-174 | over every run the history is exactly the lines that are not empty, within the byte bound and valid, taken while the connection is open and ids last |
| SseHandover.TurnedAwayIff | apps/agent-acp/src/managed_transport.rs:230-253 | over every run a client that reads is turned away exactly when it asks for what is not published yet or no longer retained, and otherwise given everything past its cursor |
| SseHandover.DroppedIff | apps/agent-acp/src/managed_transport.rs:254-276 | over every run a client is dropped exactly when more frames than the channel holds were broadcast since it last took one, or subscribed |
| SseHandover.Filter | crates/acp/src/transport.rs:176-198 | the filter keeps exactly the frames past the cursor, in order |
| SseHandover.AcpTransportConnection.PublishLine | crates/acp/src/transport.rs:137-174 | publication bounds the frame in bytes, assigns the next id and retains as specified, errors included |
| SseHandover.AcpTransportConnection.Retain | crates/acp/src/transport.rs:137-174 | the loop keeps the newest frames |
| SseHandover.AcpTransportConnection.RetainedAfter | crates/acp/src/transport.rs:176-198 | reading the replay answers as specified |
| DependencyPolicy.RejectReachable | apps/xtask/src/main.rs:827-848 | on every finite graph the search ends; it errs exactly when a forbidden package is reached by a non-empty path, and names one |
| DependencyPolicy.QueueAllowed | apps/xtask/src/main.rs:838-845 | the inner loop stops at a forbidden dependency or queues all |
| DependencyPolicy.RejectReachableExceptVia | apps/xtask/src/main.rs:850-878 | the search ends and errs exactly when some first hop reaches a forbidden package that does not approve it |
| DependencyPolicy.EmptyBridgesAgree | apps/xtask/src/main.rs:827-878 | with no approved bridges the two policies refuse the same graphs |
| DependencyPolicy.BridgesOnlyRelax | apps/xtask/src/main.rs:850-878 | the bridged policy never refuses more than the plain one |
| Utf8.DecodeEncoded | apps/agent-tui/src/lib.rs:2199-2243 | decoding at an encoded character gives it back, with its length |
| Utf8.BoundaryIff | apps/agent-tui/src/lib.rs:2474-2480 | the character boundaries are exactly the lengths of encoded prefixes |
| Utf8.EncodeInjective | apps/agent-tui/src/lib.rs:2257-2276 | texts are equal exactly when their bytes are, so comparing history entries as bytes compares texts |
| EditorLayout.EditorLines | apps/agent-tui/src/render.rs:582-603 | the loop computes the greedy layout |
| EditorLayout.LayIsBreaking | apps/agent-tui/src/render.rs:582-603 | the rows break the text only at newlines and by width, lose nothing else, and fit when every character fits |
| EditorLayout.GreedyIsOptimal | apps/agent-tui/src/render.rs:582-603 | no breaking that respects newlines and the width has fewer rows |
| EditorLayout.EditorCursor | apps/agent-tui/src/render.rs:605-625 | the locator's row and column are the last row and its width of laying out the text before the cursor |
| EditorLayout.BoundaryCursor | apps/agent-tui/src/render.rs:605-625 | at a character boundary that text is exactly the prefix up to it |
| EditorLayout.PrefixLayout | apps/agent-tui/src/render.rs:582-625 | the layout of a prefix is an initial part of the layout of the whole |
| EditorLayout.ScreenCursorExact | apps/agent-tui/src/render.rs:508-533 | looking the raw byte offset up in the sanitized text measures the right characters exactly when the bytes that replacement adds before the last of them are fewer than its own, and never too many |
| EditorLayout.ScreenCursorWithoutControls | apps/agent-tui/src/render.rs:875-886 | it is right when nothing before the last character was replaced |
| EditorLayout.SafeIsExact | apps/agent-tui/src/render.rs:875-886 | what is drawn has no control character but newlines and tabs; each other one is replaced, and nothing else is |
| EditorLayout.ControlMisplacesCursor | apps/agent-tui/src/render.rs:508-533 | a control character before an ASCII letter misplaces the cursor after both |
| WordWrap.WordsAreInk | apps/agent-tui/src/render.rs:391-433 | words are non-empty runs of non-white-space and are together all of it |
| WordWrap.WordsAreMaximal | apps/agent-tui/src/render.rs:391-433 | the line is its words with white space before, between and after them, and some between any two |
| WordWrap.AppendWrappedWord | apps/agent-tui/src/render.rs:435-452 | the character loop adds a word as specified |
| WordWrap.WrapLogical | apps/agent-tui/src/render.rs:394-431 | the word loop wraps one line as specified |
| WordWrap.WrapPreservingIndentation | apps/agent-tui/src/render.rs:391-433 | the line loop wraps the sanitized text as specified |
| WordWrap.WrappingKeepsInk | apps/agent-tui/src/render.rs:391-452 | wrapping keeps the sequence of non-white-space characters of the sanitized text |
| WordWrap.RowsAreTidy | apps/agent-tui/src/render.rs:391-452 | the rows of a line are its words in order, the first row after the indentation and the others after what continues it; words that share a row are whole, no word that fits after the indentation is cut, and every row is full: the next word after a blank, or the next character of a cut word, does not fit |
| WordWrap.RowsKeepIndentation | apps/agent-tui/src/render.rs:391-452 | where the indentation is narrower than the width, all rows start with it |
| WordWrap.FewestRows | apps/agent-tui/src/render.rs:391-452 | where every word fits after the indentation, no arrangement of the words in order with single blanks and rows that fit has fewer rows |
| WordWrap.NoWordsRow | apps/agent-tui/src/render.rs:394-431 | an empty line is an empty row; any other line without words is its indentation, or nothing |
| WordWrap.SplitIsExact | apps/agent-tui/src/render.rs:391-397 | the lines have no newline and joined by newlines are the text |
| WordWrap.LineInPlace | apps/agent-tui/src/render.rs:391-433 | the rows of each line stand between those of the lines before and after it |
| WordWrap.RowsFit | apps/agent-tui/src/render.rs:391-452 | where the widest character fits after the indentation, every row fits |
| WordWrap.IndentationKeptIff | apps/agent-tui/src/render.rs:399-431 | every row starts with the indentation exactly when it is empty, or narrower than the width, or no word follows, or it is as wide as the row and one word without width follows |
| WordWrap.EdgeIndentationIsDropped | apps/agent-tui/src/render.rs:399-431 | two words of one combining accent after an indentation as wide as the row: the second row has lost it |
| Composer.StepKeepsIndex | apps/agent-tui/src/lib.rs:2190-2376 | every edit, move and history step keeps the history bounded and its index valid |
| Composer.RunKeepsIndex | apps/agent-tui/src/lib.rs:2190-2376 | so over every run |
| Composer.MovesKeepContent | apps/agent-tui/src/lib.rs:2227-2367 | moves change neither text nor history |
| Composer.RightUndoesLeft | apps/agent-tui/src/lib.rs:2227-2243 | one step right undoes one step left |
| Composer.BackspaceUndoesInsert | apps/agent-tui/src/lib.rs:2190-2211 | backspace undoes the insertion of a character that fits |
| Composer.WordMovesAreSteps | apps/agent-tui/src/lib.rs:2315-2367 | a word move is as many single moves as its distance |
| Composer.HomeIsSteps | apps/agent-tui/src/lib.rs:628-631 | home is as many single moves left as there are characters before the cursor |
| Composer.EndIsSteps | apps/agent-tui/src/lib.rs:632-635 | end is as many single moves right as there are characters after it |
| Composer.LeftThenDelete | apps/agent-tui/src/lib.rs:2199-2234 | deleting forward after one step left is a backspace |
| Composer.DeleteWordIsBackspaces | apps/agent-tui/src/lib.rs:2369-2376 | deleting a word is a backspace for each character that a word move would pass |
| Composer.InsertThenBackspaces | apps/agent-tui/src/lib.rs:2190-2211 | inserting what fits puts it before the cursor, and as many backspaces take it away |
| Composer.InsertTogether | apps/agent-tui/src/lib.rs:2190-2197 | inserting two texts that fit is inserting them together |
| Composer.ReplaceIsClearAndInsert | apps/agent-tui/src/lib.rs:1216-1222 | replacing the text is clearing it and inserting the new one |
| Composer.RecordedInOrder | apps/agent-tui/src/lib.rs:2257-2267 | recorded prompts are remembered in order without immediate repetitions, the newest up to the bound |
| Composer.IngestedOnce | apps/agent-tui/src/lib.rs:2269-2283 | projected prompts join the history once each, after what it holds, unless empty |
| Composer.RecordThenUp | apps/agent-tui/src/lib.rs:2257-2313 | what was recorded last is what the first step up shows, and the step down brings the text back |
| Composer.WordStartIs | apps/agent-tui/src/lib.rs:2315-2344 | a word move left stops at the start of the last word |
| Composer.WordEndIs | apps/agent-tui/src/lib.rs:2346-2367 | a word move right stops at the end of the next word |
| Composer.BoundedIsLongest | apps/agent-tui/src/lib.rs:2474-2480 | the bounded prefix is the longest run of whole characters within the limit |
| Composer.InsertIsBounded | apps/agent-tui/src/lib.rs:2190-2197 | insertion never takes the composer past its byte bound |
| Composer.UpThenDownRestores | apps/agent-tui/src/lib.rs:2285-2313 | for every k, k steps up the history and k down show the draft again and end navigation |
| Composer.CharStart | apps/agent-tui/src/lib.rs:2199-2234 | the byte loop finds where the previous character starts |
| Composer.BoundedBytes | apps/agent-tui/src/lib.rs:2474-2480 | the byte loop finds the end of the longest bounded prefix |
| Composer.WordLeftOffset | apps/agent-tui/src/lib.rs:2315-2344 | the byte loops find the offset of the word start |
| Composer.WordRightOffset | apps/agent-tui/src/lib.rs:2346-2367 | the byte loops find the offset of the word end |
| Composer.EditBytes | apps/agent-tui/src/lib.rs:2190-2376 | over every sequence of the seventeen operations on bytes: the composer encodes the text shown, the cursor is on the boundary where the user sees it, the history encodes the texts, and any index names an entry |
| Composer.ComposerBuffer.CursorOnBoundary | apps/agent-tui/src/lib.rs:2190-2376 | in every valid state the byte cursor is within the composer and on a character boundary |
| Composer.ComposerBuffer.InsertText | apps/agent-tui/src/lib.rs:2190-2197 | byte insertion is the specified edit and keeps the cursor on a boundary |
| Composer.ComposerBuffer.BackspaceKey | apps/agent-tui/src/lib.rs:2199-2211 | removes exactly the character before the cursor |
| Composer.ComposerBuffer.DeleteForwardKey | apps/agent-tui/src/lib.rs:2213-2225 | removes exactly the character after the cursor |
| Composer.ComposerBuffer.Left | apps/agent-tui/src/lib.rs:2227-2234 | moves over exactly one character |
| Composer.ComposerBuffer.Right | apps/agent-tui/src/lib.rs:2236-2243 | moves over exactly one character |
| Composer.ComposerBuffer.WordLeft | apps/agent-tui/src/lib.rs:2315-2344 | moves to the specified word start |
| Composer.ComposerBuffer.WordRight | apps/agent-tui/src/lib.rs:2346-2367 | moves to the specified word end |
| Composer.ComposerBuffer.DeleteWord | apps/agent-tui/src/lib.rs:2369-2376 | removes back to the specified word start |
| Composer.ComposerBuffer.ToStart | apps/agent-tui/src/lib.rs:628-631 | moves to the start |
| Composer.ComposerBuffer.ToEnd | apps/agent-tui/src/lib.rs:632-635 | moves to the end |
| Composer.ComposerBuffer.ClearComposer | apps/agent-tui/src/lib.rs:2245-2255 | empties the composer and ends navigation |
| Composer.ComposerBuffer.ReplaceComposer | apps/agent-tui/src/lib.rs:1216-1222 | shows the longest bounded prefix with the cursor at its end |
| Composer.ComposerBuffer.RecallPrompt | apps/agent-tui/src/lib.rs:1421-1425 | shows the last prompt with the cursor at its end |
| Composer.ComposerBuffer.TrimHistory | apps/agent-tui/src/lib.rs:2261-2263 | the loop keeps the newest entries |
| Composer.ComposerBuffer.RecordPrompt | apps/agent-tui/src/lib.rs:2257-2267 | appends unless it repeats the newest entry, bounds the history and ends navigation |
| Composer.ComposerBuffer.IngestPrompts | apps/agent-tui/src/lib.rs:2269-2283 | the loop appends the entries not yet there, and bounds the history |
| Composer.ComposerBuffer.Perform | apps/agent-tui/src/lib.rs:2190-2376 | every operation on bytes is the operation the user sees |
| Composer.ComposerBuffer.HistoryUp | apps/agent-tui/src/lib.rs:2285-2298 | recalls as specified, keeping the draft |
| Composer.ComposerBuffer.HistoryDown | apps/agent-tui/src/lib.rs:2300-2313 | steps forward or restores the draft as specified |
| PendingPrompts.OldestRetired | apps/agent-tui/src/lib.rs:2031-2053 | k new matching messages retire exactly the k oldest matching prompts, or all if there are fewer |
| PendingPrompts.GrowKeeps | apps/agent-tui/src/lib.rs:2031-2053 | reconciling with a grown transcript keeps the numbering consecutive |
| PendingPrompts.OthersStay | apps/agent-tui/src/lib.rs:2031-2053 | prompts of other sessions are not retired |
| PendingPrompts.FailureKeepsNumberingIff | apps/agent-tui/src/lib.rs:1981-1996 | a failure keeps the numbering exactly when no equal live prompt was tracked later |
| PendingPrompts.RevivalKeepsNumberingIff | apps/agent-tui/src/lib.rs:1981-1996 | accepting a failed prompt keeps the numbering exactly when it is next in line |
| PendingPrompts.StuckAfterFailure | apps/agent-tui/src/lib.rs:1932-2053 | after the first of two equal prompts fails, the second stays although its message arrived |
| PendingPrompts.RetiredTogether | apps/agent-tui/src/lib.rs:1932-2053 | a prompt that fails, is sent again and is accepted after all: one message retires both |
| PendingPrompts.StepNumberedIff | apps/agent-tui/src/lib.rs:1932-2053 | an operation keeps the numbering exactly when it is not such a failure or acceptance |
| PendingPrompts.RunNumbered | apps/agent-tui/src/lib.rs:1932-2053 | so over every run without them |
| PendingPrompts.RunNumberedIff | apps/agent-tui/src/lib.rs:1932-2053 | the numbering is consecutive in every state of a run exactly when none of its operations is one of them |
| PendingPrompts.AllDrawn | apps/agent-tui/src/render.rs:82-112 | every message and every pending prompt is drawn once, in order |
| PendingPrompts.DrawnWhereSubmitted | apps/agent-tui/src/render.rs:82-112 | over every run a pending prompt is drawn after exactly the messages that were shown when it was submitted |
| PendingPrompts.RenderConversation | apps/agent-tui/src/render.rs:82-112 | the nested loops draw as specified |
| PendingPrompts.PromptList.TrackPrompt | apps/agent-tui/src/lib.rs:1932-1966 | the method numbers and appends as specified |
| PendingPrompts.PromptList.ReconcilePrompts | apps/agent-tui/src/lib.rs:2031-2053 | the loop retains exactly the prompts that stay |
| DesktopUpdate.ActivateSound | apps/agent-desktop/src/lib.rs:783-842 | after every write of an activation, whatever calls fail, the disk is sound |
| DesktopUpdate.RollbackSound | apps/agent-desktop/src/lib.rs:849-872 | after every write of a rollback the disk is sound |
| DesktopUpdate.RunSound | apps/agent-desktop/src/lib.rs:783-872 | any sequence of operations, each cut short after any write, keeps a sound disk sound |
| DesktopUpdate.EveryCrashPointIsSound | apps/agent-desktop/src/lib.rs:783-947 | from a first start: every installed version was verified under the one pinned key and is its manifest's version; the active record names an installed version by its digest; previous is installed and differs from current |
| DesktopUpdate.ActivationIsAtomic | apps/agent-desktop/src/lib.rs:831-841 | the active record changes only in the last write, to the new version, its digest and the version it replaces |
| DesktopUpdate.RollbackIff | apps/agent-desktop/src/lib.rs:849-872 | without I/O failures rollback succeeds exactly when a previous version is recorded, and swaps the two |
| DesktopUpdate.RollbackTwiceRestores | apps/agent-desktop/src/lib.rs:849-872 | two rollbacks restore current, previous and digest, and nothing else changed |
| DesktopUpdate.LaunchIff | apps/agent-desktop/src/lib.rs:903-916 | on a sound disk the active release can be run exactly when its manifest is for this host |
| DesktopUpdate.ActivatedLaunchesIff | apps/agent-desktop/src/lib.rs:790-820 | a successful activation can be run exactly when the copied manifest's target is this host |
| DesktopUpdate.FaithfulRunLaunches | apps/agent-desktop/src/lib.rs:783-916 | over runs whose sources do not change while copied, the active release can be run whenever there is one |
| DesktopUpdate.PinStays | apps/agent-desktop/src/lib.rs:918-947 | a key file, once created, never changes; half a key refuses every activation before it writes anything |
| DesktopUpdate.RunKeepsPin | apps/agent-desktop/src/lib.rs:918-947 | so over every run, and under half a key nothing is ever installed |
| DesktopUpdate.RunKeepsRetired | apps/agent-desktop/src/lib.rs:783-872 | an installed version that the active record does not name is never active in any later run |
| DesktopUpdate.StrandedForEver | apps/agent-desktop/src/lib.rs:819-841 | an activation that stops between rename and active record strands its version for ever |
| DesktopUpdate.ActivateIff | apps/agent-desktop/src/lib.rs:783-842 | an activation succeeds exactly when source and copy verify as the same version under a trusted key with their build reports, the source is for this host, the version is a safe name that nothing there has, the copy can be hashed, and no call that it makes fails |
| DesktopUpdate.NoCopyLeft | apps/agent-desktop/src/lib.rs:806-842 | an activation that succeeds, or fails where removing the copy works, leaves no unfinished copy |
| DesktopUpdate.LaunchChecks | apps/agent-desktop/src/lib.rs:902-916 | on any disk, tampered with or not, the active release is run exactly when it is a release under the pinned key, of the recorded version and digest, for this host |
| DesktopUpdate.RollbackChecks | apps/agent-desktop/src/lib.rs:849-872 | on any disk a rollback succeeds exactly when the version to return to is there and is still a release of that version under the pinned key, and no call fails |
| DesktopUpdate.RepeatIff | apps/agent-desktop/src/lib.rs:783-842 | an activation that would have succeeded but failed or stopped anywhere can be repeated exactly when it left neither half a key nor the version itself |
| DesktopUpdate.UnrepeatableHappens | apps/agent-desktop/src/lib.rs:918-937 | a concrete release, stopped after its second and after its fourth write |
| DesktopUpdate.ChangedTargetHappens | apps/agent-desktop/src/lib.rs:812-820 | a concrete release whose target changes during the copy is activated and cannot be run |
| DesktopUpdate.DesktopUpdateManager.PinTrustedPublicKey | apps/agent-desktop/src/lib.rs:918-937 | creates, writes and compares the key file as specified, write by write |
| DesktopUpdate.DesktopUpdateManager.SettleCopy | apps/agent-desktop/src/lib.rs:812-830 | checks, pins and renames the copy, or clears it away, write by write as specified |
| DesktopUpdate.DesktopUpdateManager.StageCopy | apps/agent-desktop/src/lib.rs:806-830 | stages the copy and settles it, write by write as specified |
| DesktopUpdate.DesktopUpdateManager.WriteActive | apps/agent-desktop/src/lib.rs:1159-1173 | replaces the active record in one write; the sync after it may still fail |
| DesktopUpdate.DesktopUpdateManager.ActivateRelease | apps/agent-desktop/src/lib.rs:783-842 | performs exactly the writes of the specified activation, with its answer |
| DesktopUpdate.DesktopUpdateManager.RollbackRelease | apps/agent-desktop/src/lib.rs:849-872 | performs exactly the writes of the specified rollback, with its answer |
| BrowserSecurity.PrunedIsYoung | apps/agent-web/src/security.rs:151-157 | under a clock that does not go back, the pruned deque is exactly the accepted mutations less than a second old |
| BrowserSecurity.RunAgrees | apps/agent-web/src/security.rs:80-163 | over every run the pruned table agrees with an archive that forgets nothing, on every unexpired session |
| BrowserSecurity.PruningIsInvisible | apps/agent-web/src/security.rs:118-163 | every answer of every run is the one the archive gives: purging expired sessions and old mutations changes none |
| BrowserSecurity.MutationsAreLimited | apps/agent-web/src/security.rs:138-163 | any limit+1 consecutive mutations that the server grants to a session span at least a second |
| BrowserSecurity.SessionTable.IssueSession | apps/agent-web/src/security.rs:80-107 | issues a session as specified |
| BrowserSecurity.SessionTable.AuthenticateRequest | apps/agent-web/src/security.rs:118-128 | purges and answers as specified |
| BrowserSecurity.SessionTable.AuthorizeMutation | apps/agent-web/src/security.rs:138-163 | checks, prunes with a loop, refuses or records as specified |

## Left out

- Gateway health beyond lifecycle, throttling and the last adapter error, delivery partitions, credential rotation, rate-limit
  release and adapter workers: they change fields that the proved tables do not depend on, or the ones named, which the model
  changes arbitrarily.
- Account validation against the adapter catalogue, credentials and setup: the answer is an input of adding an account and of opening the store.
- Validation of incoming events beyond routing: whether an event is compatible is an input.
- The supervisor holds each account's queue as a value; the queue's own methods are proved equal to the same functions.
- The notification budget is modelled beside the account record, with every other write of that record as an operation.
- The clock of the notification budget is assumed not to go back and to stay clear of the largest timestamp.
- Signatures, message authentication, hashing and random tokens are inputs or uninterpreted functions; tokens and temporary
  names are assumed fresh. The bytes hashed by a release digest are not modelled, and no injectivity is claimed.
- Whether a published frame is valid JSON-RPC is an input.
- WebSocket, stdio and HTTP plumbing, argument parsing, process spawning and signals.
- The parallel workers for priority commands: each runs one command on a connection of its own.
- A file-system call is atomic and a crash stops the process between calls; reordering of writes by a power failure and the
  contents of half-finished copies are not modelled, nor is anyone else changing the update area.
- Display width is a sum of per-character widths; width rules for whole strings are not modelled.
- Drawing, colours, scrolling, overlays and slash commands of the terminal client.
- Normalisation of line endings in pasted text and the trimming of projected messages before they enter the history.
- Concurrent requests to the session table: calls are taken one after another in clock order, although the source reads the
  clock before it takes the lock.
- Composer.InsertIsBounded: no byte bound after a recalled message, because recalled messages are not bounded by the source.
- Composer.UpThenDownRestores: the cursor ends at the end of the draft, because the source does not record where it was.
