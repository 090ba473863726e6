/** Crash after crash: what the store always holds, what reopening it gives, and what is recovered when the latest
    write failed. */
module Restarts {
  import opened Seqs
  import opened GatewayQueues
  import opened Routes
  import opened Accounts
  import opened Restore
  import opened Supervisor
  import opened SupervisorRuns

  // ---------------------------------------------------------------- what the store always holds

  ghost predicate Storable(r: Record) {
    ValidConfig(r.config) && DistinctKeys(r.pendingInbound) && AllAdmissible(r.pendingInbound, r.config.limits)
  }

  /** The tables agree, the store has exactly the accounts, and every stored record could be queued again. */
  ghost predicate Kept(sup: Sup) {
    && Sound(sup) && sup.store.Keys == sup.accounts.Keys
    && (forall k :: k in sup.store ==> Storable(sup.store[k]))
    && (forall k :: k in sup.accounts ==> ValidConfig(sup.accounts[k].record.config))
  }

  ghost predicate Undisturbed(sup: Sup, ops: seq<Op>) {
    forall i :: 0 <= i < |ops| ==> !Redelivers(Run(sup, ops[..i]), ops[i])
  }

  lemma EffectKeepsConfig(rt: Runtime, op: Op)
    requires ValidConfig(rt.record.config)
    ensures EffectOf(rt, op).Nothing? || ValidConfig(EffectOf(rt, op).after.record.config)
  {
    hide Enqueue, Complete, ResolveEvent, WithoutKey;
  }

  lemma AgreedIsStorable(rt: Runtime)
    requires Agreement(rt) && ValidConfig(rt.record.config)
    ensures Storable(rt.record)
  {
  }

  lemma AccountStepKept(sup: Sup, op: Op)
    requires Kept(sup) && !Redelivers(sup, op) && (op.Deliver? || op.Done? || op.Change?)
    ensures Kept(Step(sup, op))
  {
    hide Agreement, EffectOf, Storable, ValidConfig, Redelivers, OrderValid;
    StepSoundIff(sup, op);
    if op.key in sup.accounts {
      var effect := EffectOf(sup.accounts[op.key], op);
      EffectKeepsConfig(sup.accounts[op.key], op);
      if !effect.Nothing? {
        assert Step(sup, op).accounts[op.key] == effect.after;
        AgreedIsStorable(effect.after);
      }
    }
  }

  lemma StepKept(sup: Sup, op: Op)
    requires Kept(sup) && !Redelivers(sup, op)
    ensures Kept(Step(sup, op))
  {
    hide Agreement, Storable, ValidConfig, OrderValid, TakeFair, EffectOf;
    if op.Add? {
      StepSoundIff(sup, op);
      if Step(sup, op) != sup {
        NewIsStorable(op.config);
      }
    } else if op.Remove? {
      StepSoundIff(sup, op);
    } else if op.Take? {
      assert OrderValid(sup);
      StepSoundIff(sup, op);
      TakeKeepsRecords(sup);
      TakeKeepsAccounts(sup);
    } else {
      AccountStepKept(sup, op);
    }
  }

  lemma NewIsStorable(c: Config)
    requires ValidConfig(c)
    ensures Storable(NewRecord(c))
  {
  }

  lemma {:induction false} RunKept(sup: Sup, ops: seq<Op>)
    requires Kept(sup) && Undisturbed(sup, ops)
    ensures Kept(Run(sup, ops))
  {
    hide Kept, Redelivers, Step;
    if ops != [] {
      var n := |ops| - 1;
      var before := ops[..n];
      assert forall i :: 0 <= i < n ==> before[..i] == ops[..i] && before[i] == ops[i];
      RunKept(sup, before);
      assert !Redelivers(Run(sup, ops[..n]), ops[n]);
      StepKept(Run(sup, before), ops[n]);
    }
  }

  // ---------------------------------------------------------------- reopening

  /** What opening a store gives: every stored account restored, in some order. */
  ghost predicate Reopens(store: map<AccountKey, Record>, now: int, next: Sup) {
    && next.store == store && OrderValid(next) && next.accounts.Keys == store.Keys
    && forall k :: k in store ==> Ok(next.accounts[k]) == RestoreAccount(store[k], now)
  }

  /** A reopened supervisor satisfies everything that a run starts from. */
  lemma ReopenedKept(sup: Sup, now: int, next: Sup)
    requires Kept(sup) && Reopens(sup.store, now, next)
    ensures Kept(next) && forall k :: k in next.accounts ==> Written(next, k)
  {
    hide Agreement, RestoreAccount, OrderValid;
    forall k | k in next.accounts
      ensures Agreement(next.accounts[k]) && Written(next, k) && ValidConfig(next.accounts[k].record.config)
    {
      assert Storable(sup.store[k]);
      RestoreDistinct(sup.store[k], now);
    }
  }

  /** One life of the process: its operations, and the clock when the next one opens what it left. */
  datatype Life = Life(ops: seq<Op>, now: int)

  ghost predicate Lives(starts: seq<Sup>, lives: seq<Life>) {
    && |starts| == |lives| + 1
    && (forall i :: 0 <= i < |lives| ==> Reopens(Run(starts[i], lives[i].ops).store, lives[i].now, starts[i + 1]))
  }

  /** Over any number of crashes, each at any point of its run and with any writes failed before it: without a
      redelivery every life starts with tables that agree and a store that holds them. */
  lemma {:induction false} EveryLifeStartsSound(starts: seq<Sup>, lives: seq<Life>, i: nat)
    requires Lives(starts, lives) && i <= |lives|
    requires forall j :: 0 <= j < |lives| ==> Undisturbed(starts[j], lives[j].ops)
    requires Kept(starts[0]) && forall k :: k in starts[0].accounts ==> Written(starts[0], k)
    ensures Kept(starts[i]) && forall k :: k in starts[i].accounts ==> Written(starts[i], k)
  {
    hide Kept, Written, Reopens, Undisturbed;
    if i > 0 {
      EveryLifeStartsSound(starts, lives, i - 1);
      RunKept(starts[i - 1], lives[i - 1].ops);
      ReopenedKept(Run(starts[i - 1], lives[i - 1].ops), lives[i - 1].now, starts[i]);
    }
  }

  // ---------------------------------------------------------------- when the latest write failed

  /** The operation writes the record of account `k`, or removes it, and the write succeeds. */
  predicate WritesNow(sup: Sup, op: Op, k: AccountKey) {
    Writes(sup, op) == Some(k) && !op.Take? && op.written
  }

  /** The number of operations up to and including the last successful write of account `k`. */
  function LastWritten(sup: Sup, ops: seq<Op>, k: AccountKey): (n: nat)
    ensures n <= |ops|
  {
    if ops == [] then 0
    else
      var before := ops[..|ops| - 1];
      if WritesNow(Run(sup, before), ops[|ops| - 1], k) then |ops| else LastWritten(sup, before, k)
  }

  lemma StoreUnlessWritten(sup: Sup, op: Op, k: AccountKey)
    requires OrderValid(sup) && !WritesNow(sup, op, k)
    ensures k in Step(sup, op).store <==> k in sup.store
    ensures k in sup.store ==> Step(sup, op).store[k] == sup.store[k]
  {
    hide TakeFair, EffectOf, ValidConfig;
    if op.Take? {
      TakeKeepsRecords(sup);
    }
  }

  lemma {:induction false} StoreIsLastWritten(sup: Sup, ops: seq<Op>, k: AccountKey)
    requires OrderValid(sup)
    ensures var earlier, latest := Run(sup, ops[..LastWritten(sup, ops, k)]).store, Run(sup, ops).store;
            (k in latest <==> k in earlier) && (k in latest ==> latest[k] == earlier[k])
    ensures k !in Unwritten(sup, ops[..LastWritten(sup, ops, k)])
  {
    hide Step, WritesNow, OrderValid;
    if ops == [] {
      assert ops[..0] == ops;
    } else {
      var n := |ops| - 1;
      var before := ops[..n];
      if WritesNow(Run(sup, before), ops[n], k) {
        assert ops[..|ops|] == ops;
        WrittenIsNotUnwritten(sup, ops, k);
      } else {
        StoreIsLastWritten(sup, before, k);
        var m := LastWritten(sup, before, k);
        assert before[..m] == ops[..m];
        RunOrderValid(sup, before);
        StoreUnlessWritten(Run(sup, before), ops[n], k);
      }
    }
  }

  lemma WrittenIsNotUnwritten(sup: Sup, ops: seq<Op>, k: AccountKey)
    requires ops != [] && WritesNow(Run(sup, ops[..|ops| - 1]), ops[|ops| - 1], k)
    ensures k !in Unwritten(sup, ops)
  {
  }

  /** A start from which every run is recovered: a store with exactly the accounts, and each of them on it. */
  ghost predicate Ready(sup: Sup) {
    OrderValid(sup) && AllStocked(sup) && Paired(sup) && forall k :: k in sup.accounts ==> Written(sup, k)
  }

  ghost predicate Paired(sup: Sup) {
    sup.store.Keys == sup.accounts.Keys
  }

  /** Whatever was stored, and whatever run it came from: a supervisor that opened it is such a start. */
  lemma ReopenedReady(store: map<AccountKey, Record>, now: int, next: Sup)
    requires Reopens(store, now, next)
    ensures Ready(next)
  {
    hide RestoreAccount, OrderValid, Represents, Requeued, AllAdmissible, FitsBounds, Agreement, DistinctKeys, Contexts, HealthValid;
    forall k | k in next.accounts
      ensures Stocked(next.accounts[k]) && Written(next, k)
    {
      RestoreExact(store[k], now);
    }
  }

  lemma StepPaired(sup: Sup, op: Op)
    requires OrderValid(sup) && Paired(sup)
    ensures Paired(Step(sup, op))
  {
    hide TakeFair, EffectOf, ValidConfig, OrderValid;
    if op.Take? {
      TakeKeepsRecords(sup);
      TakeKeepsAccounts(sup);
    }
  }

  lemma {:induction false} RunPaired(sup: Sup, ops: seq<Op>)
    requires OrderValid(sup) && Paired(sup)
    ensures Paired(Run(sup, ops))
  {
    hide Paired, OrderValid, Step;
    if ops != [] {
      var before := ops[..|ops| - 1];
      RunPaired(sup, before);
      RunOrderValid(sup, before);
      StepPaired(Run(sup, before), ops[|ops| - 1]);
    }
  }

  /** Whatever was redelivered and whatever writes failed: a stored account is restored from the messages that were
      accepted and not completed as of its last successful write. */
  lemma RecoversLastWrite(sup: Sup, ops: seq<Op>, k: AccountKey, now: int)
    requires Ready(sup) && k in Run(sup, ops).store
    ensures Recovers(Run(sup, ops).store[k], Outstanding(History(sup, ops[..LastWritten(sup, ops, k)], k)), now)
  {
    hide AllStocked, Written, Recovers, Run, LastWritten, OrderValid;
    var early := ops[..LastWritten(sup, ops, k)];
    StoreIsLastWritten(sup, ops, k);
    RunPaired(sup, early);
    CrashRecovery(sup, early, k, now);
  }

  /** Over any number of crashes: every life, whatever happens in it, starts like this and is recovered like this. */
  lemma EveryLifeRecovers(starts: seq<Sup>, lives: seq<Life>, i: nat, k: AccountKey, now: int)
    requires Lives(starts, lives) && Ready(starts[0]) && i < |lives|
    ensures Ready(starts[i])
    ensures var life := lives[i].ops;
            k in Run(starts[i], life).store ==>
              Recovers(Run(starts[i], life).store[k], Outstanding(History(starts[i], life[..LastWritten(starts[i], life, k)], k)), now)
  {
    hide Ready, Recovers, Reopens, Run, LastWritten;
    if i > 0 {
      ReopenedReady(Run(starts[i - 1], lives[i - 1].ops).store, lives[i - 1].now, starts[i]);
    }
    if k in Run(starts[i], lives[i].ops).store {
      RecoversLastWrite(starts[i], lives[i].ops, k, now);
    }
  }

  /** Without a redelivery it is restored with all of them. */
  lemma UndisturbedLastWrite(sup: Sup, ops: seq<Op>, k: AccountKey, now: int)
    requires Kept(sup) && (forall x :: x in sup.accounts ==> Written(sup, x)) && Undisturbed(sup, ops)
    requires k in Run(sup, ops).store
    ensures RecoversAll(Run(sup, ops).store[k], Outstanding(History(sup, ops[..LastWritten(sup, ops, k)], k)), now)
  {
    hide Written, Run, RecoversAll, Redelivers, LastWritten, Storable, ValidConfig;
    var early := ops[..LastWritten(sup, ops, k)];
    assert forall i :: 0 <= i < |early| ==> early[..i] == ops[..i] && early[i] == ops[i];
    StoreIsLastWritten(sup, ops, k);
    RunKept(sup, early);
    UndisturbedRecovery(sup, early, k, now);
  }
}
