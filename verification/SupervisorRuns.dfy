/** What holds over whole runs of the supervisor: the tables agree unless a forgotten message is queued
    twice, the store follows memory, and a restart recovers what was accepted and not completed. */
module SupervisorRuns {
  import opened Seqs
  import opened GatewayQueues
  import opened Routes
  import opened Accounts
  import opened Restore
  import opened Supervisor

  // ---------------------------------------------------------------- agreement over runs

  ghost predicate Sound(sup: Sup) {
    OrderValid(sup) && forall k :: k in sup.accounts ==> Agreement(sup.accounts[k])
  }

  /** The event resolves to a message that is still pending and that the dispatcher has forgotten. */
  predicate Redelivers(sup: Sup, op: Op) {
    && op.Deliver? && op.key in sup.accounts
    && var rt := sup.accounts[op.key];
    && Incoming(rt, op.event).Ok?
    && Forgotten(rt, Incoming(rt, op.event).value)
  }

  lemma EffectAgreesIff(rt: Runtime, op: Op)
    requires Agreement(rt)
    ensures EffectOf(rt, op).Nothing? ||
            (Agreement(EffectOf(rt, op).after) <==>
             !(op.Deliver? && Incoming(rt, op.event).Ok? && Forgotten(rt, Incoming(rt, op.event).value)))
  {
    hide Agreement, Forgotten;
    match op
    case Deliver(_, event, _) =>
      if Incoming(rt, event).Ok? {
        AcceptAgreesIff(rt, Incoming(rt, event).value);
      }
    case Done(_, s, _) => FinishAgrees(rt, s);
    case Change(_, enabled, lifecycle, until, error, _) => ChangeAgrees(rt, enabled, lifecycle, until, error);
    case _ =>
  }

  lemma ChangeAgrees(rt: Runtime, enabled: bool, lifecycle: Lifecycle, until: Option<int>, error: Option<string>)
    requires Agreement(rt)
    ensures Agreement(rt.(record := rt.record.(config := rt.record.config.(enabled := enabled),
                                               lifecycle := lifecycle, throttledUntil := until, safeError := error)))
  {
    hide Represents;
  }

  lemma BlankAgrees(config: Config)
    requires config.limits.Positive()
    ensures Agreement(Blank(NewRecord(config)))
  {
    assert Blank(NewRecord(config)).inFlight.Values == {};
  }

  lemma NothingIsNoDelivery(rt: Runtime, op: Op)
    ensures EffectOf(rt, op).Nothing? && op.Deliver? && Incoming(rt, op.event).Ok? ==> !Forgotten(rt, Incoming(rt, op.event).value)
  {
    hide Forgotten;
    if op.Deliver? && Incoming(rt, op.event).Ok? {
      ForgottenIsQueued(rt, Incoming(rt, op.event).value);
    }
  }

  lemma AccountStepSoundIff(sup: Sup, op: Op)
    requires Sound(sup) && (op.Deliver? || op.Done? || op.Change?)
    ensures Sound(Step(sup, op)) <==> !Redelivers(sup, op)
  {
    hide Agreement, EffectOf, Incoming, OrderValid, Forgotten;
    StepOrderValid(sup, op);
    if op.key in sup.accounts {
      EffectAgreesIff(sup.accounts[op.key], op);
      NothingIsNoDelivery(sup.accounts[op.key], op);
      assert op.key in Step(sup, op).accounts;
    }
  }

  /** One operation keeps every table in agreement exactly when it is not such a redelivery. */
  lemma StepSoundIff(sup: Sup, op: Op)
    requires Sound(sup)
    ensures Sound(Step(sup, op)) <==> !Redelivers(sup, op)
  {
    hide Agreement;
    StepOrderValid(sup, op);
    if op.Add? {
      if Step(sup, op) != sup {
        BlankAgrees(op.config);
      }
    } else if op.Take? {
      TakeSound(sup);
    } else if !op.Remove? {
      AccountStepSoundIff(sup, op);
    }
  }

  lemma TakeVisits(sup: Sup)
    requires OrderValid(sup)
    ensures Skips(sup.accounts, sup.order) <= |sup.order|
    ensures var i := Skips(sup.accounts, sup.order);
            i < |sup.order| ==>
              var k := sup.order[i];
              && k in sup.accounts && !Visit(sup.accounts[k]).Skipped?
              && TakeFair(sup).0.accounts == sup.accounts[k := Visit(sup.accounts[k]).after]
              && (Visit(sup.accounts[k]).Served? ==> TakeFair(sup).1 == Some((k, Visit(sup.accounts[k]).item)))
  {
    SkipsSpec(sup.accounts, sup.order);
    assert forall x :: x in sup.order ==> x in ToSet(sup.order);
  }

  /** The scheduler never loses a message: what it hands out is a pending message of that account, in
      its accepted context, and it hands out one whenever some account is ready. */
  lemma TakeSound(sup: Sup)
    requires Sound(sup)
    ensures Sound(TakeFair(sup).0)
    ensures TakeFair(sup).1.Some? <==> exists k :: ReadyToServe(sup, k)
    ensures TakeFair(sup).1.Some? ==>
              var (k, item) := TakeFair(sup).1.value;
              ReadyToServe(sup, k) && item in sup.accounts[k].record.pendingInbound
  {
    hide Agreement, Visit, TakeFair, OrderValid;
    TakeFairRotates(sup);
    TakeVisits(sup);
    var i := Skips(sup.accounts, sup.order);
    if i < |sup.order| {
      var k := sup.order[i];
      VisitAgrees(sup.accounts[k]);
      assert ReadyToServe(sup, k);
    }
  }

  /** Over every run the tables agree in every state exactly when no operation of the run queued a
      second copy of a pending message. */
  lemma {:induction false} RunSoundIff(sup: Sup, ops: seq<Op>)
    requires Sound(sup)
    ensures (forall i :: 0 <= i <= |ops| ==> Sound(Run(sup, ops[..i]))) <==>
            (forall i :: 0 <= i < |ops| ==> !Redelivers(Run(sup, ops[..i]), ops[i]))
  {
    if forall i :: 0 <= i <= |ops| ==> Sound(Run(sup, ops[..i])) {
      forall i | 0 <= i < |ops|
        ensures !Redelivers(Run(sup, ops[..i]), ops[i])
      {
        RunPrefix(sup, ops, i);
        StepSoundIff(Run(sup, ops[..i]), ops[i]);
        assert Sound(Run(sup, ops[..i + 1]));
      }
    }
    if forall i :: 0 <= i < |ops| ==> !Redelivers(Run(sup, ops[..i]), ops[i]) {
      forall i | 0 <= i <= |ops|
        ensures Sound(Run(sup, ops[..i]))
      {
        SoundUpTo(sup, ops, i);
      }
    }
  }

  lemma {:induction false} SoundUpTo(sup: Sup, ops: seq<Op>, i: nat)
    requires Sound(sup) && i <= |ops|
    requires forall j :: 0 <= j < |ops| ==> !Redelivers(Run(sup, ops[..j]), ops[j])
    ensures Sound(Run(sup, ops[..i]))
  {
    if i > 0 {
      SoundUpTo(sup, ops, i - 1);
      RunPrefix(sup, ops, i - 1);
      StepSoundIff(Run(sup, ops[..i - 1]), ops[i - 1]);
    }
  }

  // ---------------------------------------------------------------- the store follows memory

  /** The account whose record the operation tries to write. */
  function Writes(sup: Sup, op: Op): Option<AccountKey> {
    match op
    case Add(config, accepted, _) =>
      if ValidConfig(config) && KeyOfConfig(config) !in sup.accounts && accepted then Some(KeyOfConfig(config)) else None
    case Remove(k, _) => if k in sup.accounts then Some(k) else None
    case Take => None
    case _ => if op.key in sup.accounts && EffectOf(sup.accounts[op.key], op).Persist? then Some(op.key) else None
  }

  /** The accounts whose latest write failed. */
  function Unwritten(sup: Sup, ops: seq<Op>): set<AccountKey> {
    if ops == [] then {}
    else
      var before, op := ops[..|ops| - 1], ops[|ops| - 1];
      match Writes(Run(sup, before), op)
      case None => Unwritten(sup, before)
      case Some(k) => if op.written then Unwritten(sup, before) - {k} else Unwritten(sup, before) + {k}
  }

  ghost predicate Written(sup: Sup, k: AccountKey) {
    k in sup.accounts && k in sup.store
    && sup.store[k].pendingInbound == sup.accounts[k].record.pendingInbound
    && sup.store[k].config.limits == sup.accounts[k].record.config.limits
  }

  lemma TakeKeepsRecords(sup: Sup)
    requires OrderValid(sup)
    ensures TakeFair(sup).0.store == sup.store
    ensures forall k :: k in sup.accounts ==>
              k in TakeFair(sup).0.accounts && TakeFair(sup).0.accounts[k].record == sup.accounts[k].record
  {
  }

  lemma StepWritten(sup: Sup, op: Op, k: AccountKey)
    requires OrderValid(sup) && k in Step(sup, op).accounts
    requires Writes(sup, op) != Some(k) ==> Written(sup, k)
    requires Writes(sup, op) == Some(k) ==> op.written
    ensures Written(Step(sup, op), k)
  {
    match op
    case Take => TakeKeepsRecords(sup);
    case _ =>
  }

  /** After any run, every account whose latest write succeeded has its pending messages on disk. */
  lemma {:induction false} StoreFollows(sup: Sup, ops: seq<Op>)
    requires OrderValid(sup) && forall k :: k in sup.accounts ==> Written(sup, k)
    ensures forall k :: k in Run(sup, ops).accounts && k !in Unwritten(sup, ops) ==> Written(Run(sup, ops), k)
  {
    if ops != [] {
      var before, op := ops[..|ops| - 1], ops[|ops| - 1];
      var state := Run(sup, before);
      StoreFollows(sup, before);
      RunOrderValid(sup, before);
      forall k | k in Run(sup, ops).accounts && k !in Unwritten(sup, ops)
        ensures Written(Run(sup, ops), k)
      {
        AppearsByWriting(state, op, k);
        StepWritten(state, op, k);
      }
    }
  }

  lemma TakeKeepsAccounts(sup: Sup)
    requires OrderValid(sup)
    ensures TakeFair(sup).0.accounts.Keys == sup.accounts.Keys
  {
    hide Visit, Skips;
    TakeFairRotates(sup);
    TakeVisits(sup);
  }

  lemma AppearsByWriting(sup: Sup, op: Op, k: AccountKey)
    requires OrderValid(sup) && k in Step(sup, op).accounts
    ensures k in sup.accounts || Writes(sup, op) == Some(k)
  {
    hide TakeFair, EffectOf, ValidConfig;
    if op.Take? {
      TakeKeepsAccounts(sup);
    }
  }

  // ---------------------------------------------------------------- what was accepted and not completed

  /** One account's history: messages accepted and message keys completed, oldest first. */
  datatype Entry = Accepted(d: Durable) | Completed(k: Key)

  /** The messages accepted and not completed afterwards, in arrival order. */
  function Outstanding(history: seq<Entry>): seq<Durable> {
    if history == [] then []
    else (if history[0].Accepted? && Completed(DKey(history[0].d)) !in history[1..] then [history[0].d] else [])
         + Outstanding(history[1..])
  }

  function AllAccepted(list: seq<Durable>): seq<Entry> {
    seq(|list|, i requires 0 <= i < |list| => Accepted(list[i]))
  }

  /** What one operation adds to the history of account `k`. */
  function Recorded(sup: Sup, op: Op, k: AccountKey): seq<Entry> {
    if k !in sup.accounts then []
    else if op.Deliver? && op.key == k && DeliverTo(sup.accounts[k], op.event).1 == Ok(Queued) then
      [Accepted(Incoming(sup.accounts[k], op.event).value)]
    else if op.Done? && op.key == k && op.session in sup.accounts[k].inFlight
            && Finish(sup.accounts[k], op.session).1.Ok? then
      [Completed(sup.accounts[k].inFlight[op.session])]
    else []
  }

  /** The history of account `k`, which begins afresh when the account is removed. */
  function History(sup: Sup, ops: seq<Op>, k: AccountKey): seq<Entry> {
    if ops == [] then (if k in sup.accounts then AllAccepted(sup.accounts[k].record.pendingInbound) else [])
    else
      var before, op := ops[..|ops| - 1], ops[|ops| - 1];
      var state := Run(sup, before);
      if k !in Step(state, op).accounts then [] else History(sup, before, k) + Recorded(state, op, k)
  }

  lemma {:induction false} OutstandingAccept(history: seq<Entry>, d: Durable)
    ensures Outstanding(history + [Accepted(d)]) == Outstanding(history) + [d]
  {
    var all := history + [Accepted(d)];
    if history == [] {
      assert all == [Accepted(d)] && Outstanding(all[1..]) == [];
    } else {
      var e, rest := history[0], history[1..];
      assert all[0] == e && all[1..] == rest + [Accepted(d)];
      OutstandingAccept(rest, d);
      if e.Accepted? {
        var closing := Completed(DKey(e.d));
        assert closing in all[1..] <==> closing in rest;
      }
    }
  }

  lemma {:induction false} OutstandingComplete(history: seq<Entry>, k: Key)
    ensures Outstanding(history + [Completed(k)]) == WithoutKey(Outstanding(history), k)
  {
    var all := history + [Completed(k)];
    if history == [] {
      assert all == [Completed(k)] && Outstanding(all[1..]) == [];
    } else {
      var e, rest := history[0], history[1..];
      assert all[0] == e && all[1..] == rest + [Completed(k)];
      OutstandingComplete(rest, k);
      if e.Accepted? {
        var closing := Completed(DKey(e.d));
        assert closing in all[1..] <==> closing in rest || DKey(e.d) == k;
        if closing in rest { assert [] + Outstanding(rest) == Outstanding(rest); }
      } else {
        assert [] + Outstanding(rest) == Outstanding(rest);
      }
      assert [] + WithoutKey(Outstanding(rest), k) == WithoutKey(Outstanding(rest), k);
    }
  }

  lemma {:induction false} OutstandingAll(list: seq<Durable>)
    ensures Outstanding(AllAccepted(list)) == list
  {
    if list != [] {
      var n := |list| - 1;
      OutstandingAll(list[..n]);
      assert AllAccepted(list) == AllAccepted(list[..n]) + [Accepted(list[n])];
      OutstandingAccept(AllAccepted(list[..n]), list[n]);
    } else {
      assert AllAccepted(list) == [];
    }
  }

  lemma RecordedPending(sup: Sup, op: Op, k: AccountKey, history: seq<Entry>)
    requires OrderValid(sup) && k in sup.accounts && k in Step(sup, op).accounts
    requires sup.accounts[k].record.pendingInbound == Outstanding(history)
    ensures Step(sup, op).accounts[k].record.pendingInbound == Outstanding(history + Recorded(sup, op, k))
  {
    hide Outstanding, WithoutKey, TakeFair, OrderValid, ResolveEvent, Enqueue, Complete;
    assert history + [] == history;
    var rt := sup.accounts[k];
    if op.Deliver? && op.key == k && DeliverTo(rt, op.event).1 == Ok(Queued) {
      OutstandingAccept(history, Incoming(rt, op.event).value);
    } else if op.Done? && op.key == k && op.session in rt.inFlight {
      OutstandingComplete(history, rt.inFlight[op.session]);
    } else if op.Take? {
      TakeKeepsRecords(sup);
    }
  }

  /** In memory, an account's pending messages are always the accepted and not completed ones. */
  lemma {:induction false} PendingIsOutstanding(sup: Sup, ops: seq<Op>, k: AccountKey)
    requires OrderValid(sup) && k in Run(sup, ops).accounts
    ensures Run(sup, ops).accounts[k].record.pendingInbound == Outstanding(History(sup, ops, k))
  {
    hide OrderValid, Outstanding, Recorded, Step;
    if ops == [] {
      OutstandingAll(sup.accounts[k].record.pendingInbound);
    } else {
      var before, op := ops[..|ops| - 1], ops[|ops| - 1];
      var state := Run(sup, before);
      RunOrderValid(sup, before);
      if k in state.accounts {
        PendingIsOutstanding(sup, before, k);
        RecordedPending(state, op, k, History(sup, before, k));
      } else {
        AppearsByWriting(state, op, k);
        AppearsEmpty(state, op, k);
        NoHistory(sup, before, k);
        NothingRecorded(state, op, k);
      }
    }
  }

  lemma AppearsEmpty(sup: Sup, op: Op, k: AccountKey)
    requires k !in sup.accounts && Writes(sup, op) == Some(k) && k in Step(sup, op).accounts
    ensures Step(sup, op).accounts[k].record.pendingInbound == []
  {
    hide ValidConfig, EffectOf;
  }

  lemma NoHistory(sup: Sup, ops: seq<Op>, k: AccountKey)
    requires k !in Run(sup, ops).accounts
    ensures History(sup, ops, k) == []
  {
  }

  lemma NothingRecorded(sup: Sup, op: Op, k: AccountKey)
    requires k !in sup.accounts
    ensures Outstanding([] + Recorded(sup, op, k)) == []
  {
  }

  // ---------------------------------------------------------------- what every account keeps

  /** Pending messages are admissible, and the dispatcher works under the configured limits. */
  ghost predicate Stocked(rt: Runtime) {
    && rt.queue.limits == rt.record.config.limits && rt.queue.limits.Positive()
    && AllAdmissible(rt.record.pendingInbound, rt.record.config.limits)
  }

  ghost predicate AllStocked(sup: Sup) {
    forall k :: k in sup.accounts ==> Stocked(sup.accounts[k])
  }

  lemma AcceptStocked(rt: Runtime, d: Durable)
    requires Stocked(rt)
    ensures Stocked(Accept(rt, d).0)
  {
    hide WellFormed, AttachmentsFit, KeyOf;
    var list := rt.record.pendingInbound;
    assert forall x :: x in list + [d] <==> x in list || x == d;
  }

  lemma FinishStocked(rt: Runtime, s: Session)
    requires Stocked(rt)
    ensures Stocked(Finish(rt, s).0)
  {
    hide Admissible, WithoutKey;
    if s in rt.inFlight {
      RemovalMembers(rt.record.pendingInbound, rt.inFlight[s]);
    }
  }

  lemma EffectStocked(rt: Runtime, op: Op)
    requires Stocked(rt)
    ensures EffectOf(rt, op).Nothing? || Stocked(EffectOf(rt, op).after)
  {
    hide Accept, Finish, ResolveEvent, Admissible;
    match op
    case Deliver(_, event, _) =>
      if Incoming(rt, event).Ok? {
        AcceptStocked(rt, Incoming(rt, event).value);
      }
    case Done(_, s, _) => FinishStocked(rt, s);
    case _ =>
  }

  lemma {:induction false} TakeFromKeepsLimits(q: QueueState)
    ensures TakeFrom(q).0.limits == q.limits
    decreases |q.ready|
  {
    if q.ready != [] {
      TakeFromKeepsLimits(q.(ready := q.ready[1..]));
    }
  }

  lemma VisitStocked(rt: Runtime)
    requires Stocked(rt) && !Visit(rt).Skipped?
    ensures Stocked(Visit(rt).after)
  {
    hide AllAdmissible, TakeFrom, KeyOf;
    TakeFromKeepsLimits(rt.queue);
  }

  lemma BlankStocked(config: Config)
    requires config.limits.Positive()
    ensures Stocked(Blank(NewRecord(config)))
  {
  }

  lemma StepStocked(sup: Sup, op: Op)
    requires OrderValid(sup) && AllStocked(sup)
    ensures AllStocked(Step(sup, op))
  {
    hide Stocked, EffectOf, TakeFair, OrderValid;
    if op.Add? {
      if Step(sup, op) != sup {
        BlankStocked(op.config);
      }
    } else if op.Take? {
      TakeVisits(sup);
      TakeFairRotates(sup);
      var i := Skips(sup.accounts, sup.order);
      if i < |sup.order| {
        VisitStocked(sup.accounts[sup.order[i]]);
      }
    } else if !op.Remove? && op.key in sup.accounts {
      EffectStocked(sup.accounts[op.key], op);
    }
  }

  lemma {:induction false} RunStocked(sup: Sup, ops: seq<Op>)
    requires OrderValid(sup) && AllStocked(sup)
    ensures AllStocked(Run(sup, ops))
  {
    hide AllStocked, OrderValid, Step;
    if ops != [] {
      var before := ops[..|ops| - 1];
      RunStocked(sup, before);
      RunOrderValid(sup, before);
      StepStocked(Run(sup, before), ops[|ops| - 1]);
    }
  }

  // ---------------------------------------------------------------- crash recovery

  /** What restoring a record with these pending messages gives: it succeeds exactly when the health is valid and the
      messages kept fit the bounds, and then waits with those kept, in arrival order, each in the context of the last
      pending entry of its key; its tables agree exactly when no key is pending twice. */
  ghost predicate Recovers(stored: Record, pending: seq<Durable>, now: int) {
    var limits, kept := stored.config.limits, Requeued(pending, stored.config.limits.seen);
    && (RestoreAccount(stored, now).Ok? <==> HealthValid(stored) && FitsBounds(kept, limits))
    && (RestoreAccount(stored, now).Ok? ==>
          var rt := RestoreAccount(stored, now).value;
          && rt.record.pendingInbound == pending && Represents(rt.queue, Routeds(kept))
          && rt.context == Contexts(pending) && rt.inFlight == map[]
          && (Agreement(rt) <==> DistinctKeys(pending)))
  }

  lemma WrittenStocked(sup: Sup, k: AccountKey)
    requires AllStocked(sup) && Written(sup, k)
    ensures sup.store[k].config.limits.Positive()
    ensures AllAdmissible(sup.store[k].pendingInbound, sup.store[k].config.limits)
    ensures sup.store[k].pendingInbound == sup.accounts[k].record.pendingInbound
  {
    hide Admissible;
  }

  /** Crash recovery.  After any run, redeliveries included, an account whose latest write succeeded is restored from its
      accepted and not completed messages. */
  lemma CrashRecovery(sup: Sup, ops: seq<Op>, k: AccountKey, now: int)
    requires OrderValid(sup) && AllStocked(sup) && forall x :: x in sup.accounts ==> Written(sup, x)
    requires k in Run(sup, ops).accounts && k !in Unwritten(sup, ops)
    ensures k in Run(sup, ops).store
    ensures Recovers(Run(sup, ops).store[k], Outstanding(History(sup, ops, k)), now)
  {
    StoreFollows(sup, ops);
    assert Written(Run(sup, ops), k);
    PendingIsOutstanding(sup, ops, k);
    RunStocked(sup, ops);
    WrittenStocked(Run(sup, ops), k);
    hide *;
    RestoredAs(Run(sup, ops).store[k], now);
  }

  lemma RestoredAs(stored: Record, now: int)
    requires stored.config.limits.Positive() && AllAdmissible(stored.pendingInbound, stored.config.limits)
    ensures Recovers(stored, stored.pendingInbound, now)
  {
    hide RestoreAccount, Represents, Requeued, AllAdmissible, FitsBounds, Agreement, DistinctKeys, Contexts, HealthValid;
    RestoreExact(stored, now);
  }

  lemma SoundStocked(sup: Sup)
    requires Sound(sup)
    ensures OrderValid(sup) && AllStocked(sup)
  {
    hide OrderValid, Represents;
    forall k | k in sup.accounts
      ensures Stocked(sup.accounts[k])
    {
      assert Agreement(sup.accounts[k]);
      PositiveIndex(sup.accounts[k].queue, Undispatched(sup.accounts[k].record.pendingInbound, sup.accounts[k].inFlight.Values));
    }
  }

  lemma PositiveIndex(q: QueueState, waiting: seq<Routed>)
    requires Represents(q, waiting)
    ensures q.limits.Positive()
  {
  }

  /** Without a redelivery no key is pending twice. */
  lemma NoKeyTwice(sup: Sup, ops: seq<Op>, k: AccountKey)
    requires Sound(sup) && k in Run(sup, ops).accounts
    requires forall i :: 0 <= i < |ops| ==> !Redelivers(Run(sup, ops[..i]), ops[i])
    ensures DistinctKeys(Outstanding(History(sup, ops, k)))
  {
    hide Redelivers, Run, Outstanding, History;
    PendingIsOutstanding(sup, ops, k);
    SoundUpTo(sup, ops, |ops|);
    assert ops[..|ops|] == ops;
    assert Agreement(Run(sup, ops).accounts[k]);
  }

  /** So nothing is dropped: the restored account waits with all its outstanding messages, each in its accepted context. */
  lemma UndisturbedRecovery(sup: Sup, ops: seq<Op>, k: AccountKey, now: int)
    requires Sound(sup) && forall x :: x in sup.accounts ==> Written(sup, x)
    requires forall i :: 0 <= i < |ops| ==> !Redelivers(Run(sup, ops[..i]), ops[i])
    requires k in Run(sup, ops).accounts && k !in Unwritten(sup, ops)
    ensures k in Run(sup, ops).store
    ensures RecoversAll(Run(sup, ops).store[k], Outstanding(History(sup, ops, k)), now)
  {
    SoundStocked(sup);
    CrashRecovery(sup, ops, k, now);
    NoKeyTwice(sup, ops, k);
    hide *;
    NothingDropped(Run(sup, ops).store[k], Outstanding(History(sup, ops, k)), now);
  }

  ghost predicate RecoversAll(stored: Record, pending: seq<Durable>, now: int) {
    && (RestoreAccount(stored, now).Ok? <==> HealthValid(stored) && FitsBounds(pending, stored.config.limits))
    && (RestoreAccount(stored, now).Ok? ==>
          var rt := RestoreAccount(stored, now).value;
          && rt.record.pendingInbound == pending && Represents(rt.queue, Routeds(pending))
          && ContextAgrees(pending, rt.context) && rt.inFlight == map[] && Agreement(rt))
  }

  lemma NothingDropped(stored: Record, pending: seq<Durable>, now: int)
    requires Recovers(stored, pending, now) && DistinctKeys(pending)
    ensures RecoversAll(stored, pending, now)
  {
    hide RestoreAccount, Represents, Requeued, FitsBounds, Agreement, DistinctKeys, Contexts, HealthValid, ContextAgrees;
    DistinctKept(pending, stored.config.limits.seen);
  }
}
