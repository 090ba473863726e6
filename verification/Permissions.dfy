/** Which permissions the messages that the supervisor hands out carry, over whole runs and restarts. */
module Permissions {
  import opened Seqs
  import opened GatewayQueues
  import opened Routes
  import opened Accounts
  import opened Restore
  import opened Supervisor
  import opened SupervisorRuns
  import opened Restarts

  /** Operation `i` delivered to account `k` an event that entitles it to `d`. */
  ghost predicate DeliveredAt(sup: Sup, ops: seq<Op>, i: nat, k: AccountKey, d: Durable) {
    && i < |ops| && ops[i].Deliver? && ops[i].key == k && k in Run(sup, ops[..i]).accounts
    && Available(Run(sup, ops[..i]).accounts[k].record) && ops[i].event.valid
    && exists route :: Authorizes(Run(sup, ops[..i]).accounts[k].record.config, ops[i].event, route, d)
  }

  /** What account `k` was entitled to: what was pending at the start, and what was delivered since. */
  ghost function Entitled(sup: Sup, ops: seq<Op>, k: AccountKey): iset<Durable> {
    iset d | (k in sup.accounts && d in sup.accounts[k].record.pendingInbound) || exists i :: DeliveredAt(sup, ops, i, k, d)
  }

  ghost predicate FromOne(came: iset<Durable>, r: Routed) {
    exists d :: d in came && d.routed == r
  }

  ghost predicate ContextFromOne(came: iset<Durable>, key: Key, c: Context) {
    exists d :: d in came && DKey(d) == key && d.context == c
  }

  /** Everything pending, every waiting message and every route context is from one of these. */
  ghost predicate Sourced(rt: Runtime, came: iset<Durable>) {
    && UniqueIds(rt.record.config.routes)
    && (forall d :: d in rt.record.pendingInbound ==> d in came)
    && (forall s, r :: s in rt.queue.pending && r in rt.queue.pending[s] ==> FromOne(came, r))
    && (forall key :: key in rt.context ==> ContextFromOne(came, key, rt.context[key]))
  }

  lemma SourcedMore(rt: Runtime, came: iset<Durable>, more: iset<Durable>)
    requires Sourced(rt, came) && came <= more
    ensures Sourced(rt, more)
  {
    assert forall r :: FromOne(came, r) ==> FromOne(more, r);
    assert forall key, c :: ContextFromOne(came, key, c) ==> ContextFromOne(more, key, c);
  }

  lemma AcceptSourced(rt: Runtime, d: Durable, came: iset<Durable>)
    requires Sourced(rt, came) && d in came
    ensures Sourced(Accept(rt, d).0, came)
  {
    hide KeyOf, WellFormed, AttachmentsFit, UniqueIds;
    assert FromOne(came, d.routed) && ContextFromOne(came, DKey(d), d.context);
  }

  lemma FinishSourced(rt: Runtime, s: Session, came: iset<Durable>)
    requires Sourced(rt, came)
    ensures Sourced(Finish(rt, s).0, came)
  {
    hide KeyOf, UniqueIds, FromOne, ContextFromOne;
    if s in rt.inFlight {
      RemovalMembers(rt.record.pendingInbound, rt.inFlight[s]);
    }
  }

  lemma {:induction false} TakeFromSourced(q: QueueState, came: iset<Durable>)
    requires forall s, r :: s in q.pending && r in q.pending[s] ==> FromOne(came, r)
    ensures forall s, r :: s in TakeFrom(q).0.pending && r in TakeFrom(q).0.pending[s] ==> FromOne(came, r)
    ensures TakeFrom(q).1.Some? ==> FromOne(came, TakeFrom(q).1.value)
    decreases |q.ready|
  {
    hide FromOne;
    if q.ready != [] && q.ready[0] in q.inFlight {
      TakeFromSourced(q.(ready := q.ready[1..]), came);
    }
  }

  /** A message is handed out as one of these, in a context that one of the same key has. */
  lemma VisitSourced(rt: Runtime, came: iset<Durable>)
    requires Sourced(rt, came)
    ensures !Visit(rt).Skipped? ==> Sourced(Visit(rt).after, came)
    ensures Visit(rt).Served? ==> FromOne(came, Visit(rt).item.routed)
                                  && ContextFromOne(came, DKey(Visit(rt).item), Visit(rt).item.context)
  {
    hide FromOne, ContextFromOne, KeyOf, TakeFrom;
    TakeFromSourced(rt.queue, came);
  }

  lemma BlankSourced(config: Config, came: iset<Durable>)
    requires ValidConfig(config)
    ensures Sourced(Blank(NewRecord(config)), came)
  {
  }

  lemma DeliveredBefore(sup: Sup, ops: seq<Op>, i: nat, k: AccountKey, d: Durable)
    requires ops != [] && DeliveredAt(sup, ops[..|ops| - 1], i, k, d)
    ensures DeliveredAt(sup, ops, i, k, d)
  {
    hide Authorizes, Run;
    assert ops[..|ops| - 1][..i] == ops[..i];
  }

  lemma EntitledGrows(sup: Sup, ops: seq<Op>, k: AccountKey)
    requires ops != []
    ensures Entitled(sup, ops[..|ops| - 1], k) <= Entitled(sup, ops, k)
  {
    hide DeliveredAt, Run;
    var before := ops[..|ops| - 1];
    forall d | d in Entitled(sup, before, k)
      ensures d in Entitled(sup, ops, k)
    {
      if i :| DeliveredAt(sup, before, i, k, d) {
        DeliveredBefore(sup, ops, i, k, d);
      }
    }
  }

  lemma DeliveredIsEntitled(sup: Sup, ops: seq<Op>, d: Durable)
    requires ops != []
    requires var state, op := Run(sup, ops[..|ops| - 1]), ops[|ops| - 1];
             && op.Deliver? && op.key in state.accounts && UniqueIds(state.accounts[op.key].record.config.routes)
             && Incoming(state.accounts[op.key], op.event) == Ok(d)
    ensures d in Entitled(sup, ops, ops[|ops| - 1].key)
  {
    hide Run, Authorizes, ResolveEvent, UniqueIds;
    var n := |ops| - 1;
    ResolvedByBest(Run(sup, ops[..n]).accounts[ops[n].key].record.config, ops[n].event, d);
    assert DeliveredAt(sup, ops, n, ops[n].key, d);
  }

  lemma EffectSourced(sup: Sup, ops: seq<Op>)
    requires ops != []
    requires var state, op := Run(sup, ops[..|ops| - 1]), ops[|ops| - 1];
             && (op.Deliver? || op.Done? || op.Change?) && op.key in state.accounts
             && Sourced(state.accounts[op.key], Entitled(sup, ops, op.key))
             && !EffectOf(state.accounts[op.key], op).Nothing?
    ensures var state, op := Run(sup, ops[..|ops| - 1]), ops[|ops| - 1];
            Sourced(EffectOf(state.accounts[op.key], op).after, Entitled(sup, ops, op.key))
  {
    var op := ops[|ops| - 1];
    var rt, came := Run(sup, ops[..|ops| - 1]).accounts[op.key], Entitled(sup, ops, op.key);
    hide Run, Entitled, UniqueIds, FromOne, ContextFromOne, Accept, Finish, Incoming;
    match op
    case Deliver(_, event, _) =>
      DeliveredIsEntitled(sup, ops, Incoming(rt, event).value);
      AcceptSourced(rt, Incoming(rt, event).value, came);
    case Done(_, s, _) => FinishSourced(rt, s, came);
    case Change(_, _, _, _, _, _) =>
  }

  /** In every state of a run, whatever is delivered again. */
  ghost predicate AllSourced(sup: Sup, ops: seq<Op>) {
    && (forall k :: k in Run(sup, ops).accounts ==> Sourced(Run(sup, ops).accounts[k], Entitled(sup, ops, k)))
    && (forall k, d :: k in Run(sup, ops).store && d in Run(sup, ops).store[k].pendingInbound ==> d in Entitled(sup, ops, k))
    && (forall k :: k in Run(sup, ops).store ==> UniqueIds(Run(sup, ops).store[k].config.routes))
  }

  lemma TakeSourced(sup: Sup, k: AccountKey, came: iset<Durable>)
    requires OrderValid(sup) && k in sup.accounts && Sourced(sup.accounts[k], came)
    ensures k in TakeFair(sup).0.accounts && Sourced(TakeFair(sup).0.accounts[k], came)
  {
    hide Sourced, Visit, OrderValid;
    TakeVisits(sup);
    TakeFairRotates(sup);
    VisitSourced(sup.accounts[k], came);
  }

  lemma AccountSourced(sup: Sup, ops: seq<Op>, k: AccountKey)
    requires ops != [] && OrderValid(Run(sup, ops[..|ops| - 1])) && k in Run(sup, ops).accounts
    requires var state := Run(sup, ops[..|ops| - 1]);
             k in state.accounts ==> Sourced(state.accounts[k], Entitled(sup, ops, k))
    ensures Sourced(Run(sup, ops).accounts[k], Entitled(sup, ops, k))
  {
    var state, op, came := Run(sup, ops[..|ops| - 1]), ops[|ops| - 1], Entitled(sup, ops, k);
    assert Run(sup, ops) == Step(state, op);
    hide Run, Entitled, Sourced, EffectOf, TakeFair, ValidConfig, OrderValid, WithoutAccount;
    if op.Take? {
      TakeKeepsAccounts(state);
      TakeSourced(state, k, came);
    } else if op.Add? {
      if k !in state.accounts { BlankSourced(op.config, came); }
    } else if !op.Remove? {
      if op.key == k && k in state.accounts && !EffectOf(state.accounts[k], op).Nothing? { EffectSourced(sup, ops); }
    }
  }

  lemma StoreSourced(sup: Sup, ops: seq<Op>, k: AccountKey, d: Durable)
    requires ops != [] && OrderValid(Run(sup, ops[..|ops| - 1])) && k in Run(sup, ops).store && d in Run(sup, ops).store[k].pendingInbound
    ensures || (k in Run(sup, ops[..|ops| - 1]).store && d in Run(sup, ops[..|ops| - 1]).store[k].pendingInbound)
            || (k in Run(sup, ops).accounts && d in Run(sup, ops).accounts[k].record.pendingInbound)
  {
    StoreOrMemory(sup, ops, k);
  }

  lemma StoreOrMemory(sup: Sup, ops: seq<Op>, k: AccountKey)
    requires ops != [] && OrderValid(Run(sup, ops[..|ops| - 1])) && k in Run(sup, ops).store
    ensures || (k in Run(sup, ops[..|ops| - 1]).store && Run(sup, ops).store[k] == Run(sup, ops[..|ops| - 1]).store[k])
            || (k in Run(sup, ops).accounts && Run(sup, ops).store[k] == Run(sup, ops).accounts[k].record)
  {
    var state, op := Run(sup, ops[..|ops| - 1]), ops[|ops| - 1];
    assert Run(sup, ops) == Step(state, op);
    hide Run, EffectOf, TakeFair, ValidConfig;
    if op.Take? { TakeKeepsRecords(state); }
  }

  lemma {:induction false} RunSourced(sup: Sup, ops: seq<Op>)
    requires OrderValid(sup) && AllSourced(sup, [])
    ensures AllSourced(sup, ops)
  {
    if ops != [] {
      var before := ops[..|ops| - 1];
      RunSourced(sup, before);
      RunOrderValid(sup, before);
      hide Run, Entitled, Sourced, OrderValid;
      forall k | k in Run(sup, ops).accounts
        ensures Sourced(Run(sup, ops).accounts[k], Entitled(sup, ops, k))
      {
        EntitledGrows(sup, ops, k);
        if k in Run(sup, before).accounts {
          SourcedMore(Run(sup, before).accounts[k], Entitled(sup, before, k), Entitled(sup, ops, k));
        }
        AccountSourced(sup, ops, k);
      }
      forall k, d | k in Run(sup, ops).store && d in Run(sup, ops).store[k].pendingInbound
        ensures d in Entitled(sup, ops, k)
      {
        EntitledGrows(sup, ops, k);
        StoreSourced(sup, ops, k, d);
        if k in Run(sup, ops).accounts { PendingEntitled(Run(sup, ops).accounts[k], Entitled(sup, ops, k)); }
      }
      forall k | k in Run(sup, ops).store
        ensures UniqueIds(Run(sup, ops).store[k].config.routes)
      {
        StoreOrMemory(sup, ops, k);
        if k in Run(sup, ops).accounts { PendingEntitled(Run(sup, ops).accounts[k], Entitled(sup, ops, k)); }
      }
    }
  }

  lemma PendingEntitled(rt: Runtime, came: iset<Durable>)
    requires Sourced(rt, came)
    ensures (forall d :: d in rt.record.pendingInbound ==> d in came) && UniqueIds(rt.record.config.routes)
  {
  }

  /** Whatever is delivered again, a message is handed out as some event entitled it, in the context of one with its key. */
  lemma HandedOutMeaning(sup: Sup, ops: seq<Op>)
    requires OrderValid(sup) && AllSourced(sup, []) && TakeFair(Run(sup, ops)).1.Some?
    ensures var (k, item) := TakeFair(Run(sup, ops)).1.value;
            FromOne(Entitled(sup, ops, k), item.routed) && ContextFromOne(Entitled(sup, ops, k), DKey(item), item.context)
  {
    RunSourced(sup, ops);
    RunOrderValid(sup, ops);
    hide Run, Entitled, Sourced, Visit, OrderValid;
    var state := Run(sup, ops);
    TakeVisits(state);
    var k := TakeFair(state).1.value.0;
    VisitSourced(state.accounts[k], Entitled(sup, ops, k));
  }

  /** Without a redelivery, with the permissions that its own route gave its own sender: it is exactly what one event
      delivered to the account entitles it to. */
  lemma HandedOutAsEntitled(sup: Sup, ops: seq<Op>)
    requires Sound(sup) && AllSourced(sup, []) && TakeFair(Run(sup, ops)).1.Some?
    requires forall i :: 0 <= i < |ops| ==> !Redelivers(Run(sup, ops[..i]), ops[i])
    ensures var (k, item) := TakeFair(Run(sup, ops)).1.value; item in Entitled(sup, ops, k)
  {
    RunSourced(sup, ops);
    SoundUpTo(sup, ops, |ops|);
    assert ops[..|ops|] == ops;
    hide Run, Entitled, Sourced, Redelivers, TakeFair, Agreement;
    TakeSound(Run(sup, ops));
    var k := TakeFair(Run(sup, ops)).1.value.0;
    PendingEntitled(Run(sup, ops).accounts[k], Entitled(sup, ops, k));
  }

  // ---------------------------------------------------------------- over restarts

  lemma {:induction false} RequeuedMembers(list: seq<Durable>, n: nat)
    ensures forall d :: d in Requeued(list, n) ==> d in list
  {
    if list != [] {
      RequeuedMembers(list[..|list| - 1], n);
    }
  }

  lemma {:induction false} ContextsFromList(list: seq<Durable>, came: iset<Durable>)
    requires forall d :: d in list ==> d in came
    ensures forall key :: key in Contexts(list) ==> ContextFromOne(came, key, Contexts(list)[key])
  {
    hide KeyOf;
    if list != [] {
      ContextsFromList(list[..|list| - 1], came);
      assert list[|list| - 1] in list;
    }
  }

  lemma QueuedFromList(q: QueueState, list: seq<Durable>, came: iset<Durable>, s: Session, r: Routed)
    requires Represents(q, Routeds(list)) && (forall d :: d in list ==> d in came) && s in q.pending && r in q.pending[s]
    ensures FromOne(came, r)
  {
    hide WindowValid, ReadyValid;
    assert Backlog(q, s) == OfSession(Routeds(list), s);
    OfSessionMembers(Routeds(list), s);
    RoutedsMembers(list);
  }

  /** A restored account carries nothing but what was stored. */
  lemma RestoredSourced(r: Record, now: int, came: iset<Durable>)
    requires RestoreAccount(r, now).Ok? && UniqueIds(r.config.routes) && forall d :: d in r.pendingInbound ==> d in came
    ensures Sourced(RestoreAccount(r, now).value, came)
  {
    hide RestoreAccount, Represents, Requeued, Contexts, FromOne, ContextFromOne, UniqueIds;
    RestoreExact(r, now);
    var rt, list := RestoreAccount(r, now).value, Requeued(r.pendingInbound, r.config.limits.seen);
    RequeuedMembers(r.pendingInbound, r.config.limits.seen);
    ContextsFromList(r.pendingInbound, came);
    forall s, x | s in rt.queue.pending && x in rt.queue.pending[s]
      ensures FromOne(came, x)
    {
      QueuedFromList(rt.queue, list, came, s, x);
    }
  }

  lemma ReopenedSourced(store: map<AccountKey, Record>, now: int, next: Sup)
    requires Reopens(store, now, next) && forall k :: k in store ==> UniqueIds(store[k].config.routes)
    ensures AllSourced(next, [])
  {
    hide RestoreAccount, Sourced, UniqueIds, OrderValid;
    forall k | k in store
      ensures Sourced(next.accounts[k], Entitled(next, [], k))
      ensures forall d :: d in store[k].pendingInbound ==> d in Entitled(next, [], k)
    {
      RestoreExact(store[k], now);
      RestoredSourced(store[k], now, Entitled(next, [], k));
    }
  }

  lemma EntitledAtStart(sup: Sup, k: AccountKey, d: Durable)
    ensures d in Entitled(sup, [], k) <==> k in sup.accounts && d in sup.accounts[k].record.pendingInbound
  {
    assert forall i: nat :: !DeliveredAt(sup, [], i, k, d);
  }

  /** Pending when the first life started, or delivered in a life up to `i`. */
  ghost predicate EntitledInSome(starts: seq<Sup>, lives: seq<Life>, i: nat, k: AccountKey, d: Durable) {
    || (starts != [] && d in Entitled(starts[0], [], k))
    || exists j, n :: 0 <= j < i && j < |starts| && j < |lives| && DeliveredAt(starts[j], lives[j].ops, n, k, d)
  }

  /** Over any number of crashes, with any writes failed and anything delivered again: whatever an account starts a life
      with was delivered to it in an earlier one. */
  lemma {:induction false} EveryLifeIsEntitled(starts: seq<Sup>, lives: seq<Life>, i: nat, k: AccountKey, d: Durable)
    requires Lives(starts, lives) && i <= |lives| && OrderValid(starts[0]) && AllSourced(starts[0], [])
    ensures OrderValid(starts[i]) && AllSourced(starts[i], [])
    ensures d in Entitled(starts[i], [], k) ==> EntitledInSome(starts, lives, i, k, d)
  {
    hide OrderValid, Run, RestoreAccount, Sourced, DeliveredAt, UniqueIds;
    if i > 0 {
      var start, life := starts[i - 1], lives[i - 1];
      EveryLifeIsEntitled(starts, lives, i - 1, k, d);
      RunSourced(start, life.ops);
      assert Reopens(Run(start, life.ops).store, life.now, starts[i]);
      ReopenedSourced(Run(start, life.ops).store, life.now, starts[i]);
      EntitledAtStart(starts[i], k, d);
      if d in Entitled(starts[i], [], k) {
        RestoreExact(Run(start, life.ops).store[k], life.now);
        assert d in Entitled(start, life.ops, k);
      }
    }
  }
}
