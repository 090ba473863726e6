/** The supervisor as it runs: fields updated in place, loops over the fair order, over the stored
    accounts and over an account's pending messages. */
module Gateway {
  import opened Seqs
  import opened GatewayQueues
  import opened Routes
  import opened Accounts
  import opened Restore
  import opened Supervisor
  import opened SupervisorRuns
  import opened Restarts

  /** Rebuilds one account by queueing its pending messages one after another. */
  method RestoreRuntime(r: Record, now: int) returns (out: Result<Runtime, GatewayError>)
    ensures out == RestoreAccount(r, now)
  {
    if !HealthValid(r) || !r.config.limits.Positive() { return Err(Rejected); }
    var rt := Blank(Reopened(r, now));
    var i := 0;
    while i < |r.pendingInbound|
      invariant 0 <= i <= |r.pendingInbound|
      invariant Requeue(rt, r.pendingInbound[i..]) == RestoreAccount(r, now)
    {
      var d := r.pendingInbound[i];
      assert r.pendingInbound[i..][0] == d && r.pendingInbound[i..][1..] == r.pendingInbound[i + 1..];
      var (q, outcome) := Enqueue(rt.queue, d.routed);
      if outcome.Err? { return Err(Persistence); }
      rt := rt.(queue := q, context := rt.context[DKey(d) := d.context]);
      i := i + 1;
    }
    out := Ok(rt);
  }

  /** Opens the whole store: all accounts or none, in the order the store lists them.  `registered` is the verdict of the
      adapter catalog on each account. */
  method Open(store: map<AccountKey, Record>, keys: seq<AccountKey>, registered: set<AccountKey>, now: int)
    returns (out: Result<Sup, GatewayError>)
    requires Distinct(keys) && ToSet(keys) == store.Keys
    ensures out.Ok? <==>
            forall k :: k in store ==> ValidConfig(store[k].config) && k in registered && RestoreAccount(store[k], now).Ok?
    ensures out.Ok? ==> out.value.order == keys && Reopens(store, now, out.value)
  {
    hide RestoreAccount, ValidConfig;
    var accounts: map<AccountKey, Runtime> := map[];
    var order: seq<AccountKey> := [];
    for i := 0 to |keys|
      invariant order == keys[..i] && accounts.Keys == ToSet(order)
      invariant forall j :: 0 <= j < i ==>
                  keys[j] in store && ValidConfig(store[keys[j]].config) && keys[j] in registered
                  && Ok(accounts[keys[j]]) == RestoreAccount(store[keys[j]], now)
    {
      var k := keys[i];
      assert k in ToSet(keys);
      if !ValidConfig(store[k].config) || k !in registered { return Err(Rejected); }
      var restored := RestoreRuntime(store[k], now);
      if restored.Err? { return Err(restored.error); }
      accounts := accounts[k := restored.value];
      order := order + [k];
    }
    assert forall k :: k in store ==> k in ToSet(keys);
    out := Ok(Sup(store, accounts, order));
  }

  lemma RotateOnce<T>(s: seq<T>, i: nat)
    requires i < |s|
    ensures |Rotated(s, i)| == |s| && Rotated(s, i)[0] == s[i] && Rotated(s, i)[1..] + [s[i]] == Rotated(s, i + 1)
  {
  }

  lemma TakeFairIs(sup: Sup)
    requires OrderValid(sup)
    ensures var i := Skips(sup.accounts, sup.order);
            i < |sup.order| ==>
              var k := sup.order[i];
              && k in sup.accounts && !Visit(sup.accounts[k]).Skipped?
              && Supervisor.TakeFair(sup).0
                 == Sup(sup.store, sup.accounts[k := Visit(sup.accounts[k]).after], Rotated(sup.order, i + 1))
              && Supervisor.TakeFair(sup).1
                 == if Visit(sup.accounts[k]).Served? then Some((k, Visit(sup.accounts[k]).item)) else None
  {
    hide Visit, Skips;
    TakeVisits(sup);
  }

  lemma SkippedSoFar(sup: Sup)
    requires OrderValid(sup)
    ensures Skips(sup.accounts, sup.order) <= |sup.order|
    ensures forall i :: 0 <= i < |sup.order| ==> sup.order[i] in sup.accounts
    ensures forall i :: 0 <= i < |sup.order| && i < Skips(sup.accounts, sup.order) ==> Visit(sup.accounts[sup.order[i]]).Skipped?
  {
    hide Visit;
    SkipsSpec(sup.accounts, sup.order);
    assert forall x :: x in sup.order ==> x in ToSet(sup.order);
  }

  class ChannelGatewaySupervisor {
    var store: map<AccountKey, Record>
    var accounts: map<AccountKey, Runtime>
    var fairOrder: seq<AccountKey>

    ghost function View(): Sup
      reads this
    {
      Sup(store, accounts, fairOrder)
    }

    constructor (sup: Sup)
      requires OrderValid(sup)
      ensures View() == sup
    {
      store, accounts, fairOrder := sup.store, sup.accounts, sup.order;
    }

    /** The store's write: replaces the record, or leaves the store as it was. */
    method Put(k: AccountKey, r: Record, written: bool) returns (ok: bool)
      modifies this`store
      ensures ok == written && store == if written then old(store)[k := r] else old(store)
    {
      var previous := if k in store then Some(store[k]) else None;
      store := store[k := r];
      if !written {
        match previous {
          case Some(p) => store := store[k := p];
          case None => store := store - {k};
        }
      }
      ok := written;
    }

    method AddAccount(config: Config, accepted: bool, written: bool) returns (out: Result<(), GatewayError>)
      requires OrderValid(View())
      modifies this
      ensures (View(), out) == Supervisor.AddAccount(old(View()), config, accepted, written)
      ensures OrderValid(View())
    {
      StepOrderValid(View(), Add(config, accepted, written));
      if !ValidConfig(config) { return Err(Rejected); }
      var k := KeyOfConfig(config);
      if k in accounts { return Err(DuplicateAccount); }
      if !accepted { return Err(Rejected); }
      var record := NewRecord(config);
      var ok := Put(k, record, written);
      if !ok { return Err(Persistence); }
      accounts := accounts[k := Blank(record)];
      fairOrder := fairOrder + [k];
      out := Ok(());
    }

    method RemoveAccount(k: AccountKey, written: bool) returns (out: Result<(), GatewayError>)
      requires OrderValid(View())
      modifies this
      ensures (View(), out) == Supervisor.RemoveAccount(old(View()), k, written)
      ensures OrderValid(View())
    {
      StepOrderValid(View(), Remove(k, written));
      if k !in accounts { return Err(UnknownAccount); }
      if !written { return Err(Persistence); }
      store := store - {k};
      accounts := accounts - {k};
      fairOrder := WithoutAccount(fairOrder, k);
      out := Ok(());
    }

    method EnqueueEvent(k: AccountKey, event: Event, written: bool) returns (out: Result<Outcome, GatewayError>)
      requires OrderValid(View())
      modifies this`store, this`accounts
      ensures View() == Step(old(View()), Deliver(k, event, written)) && OrderValid(View())
      ensures k !in old(accounts) ==> out == Err(UnknownAccount)
      ensures k in old(accounts) ==>
                var answer := DeliverTo(old(accounts)[k], event).1;
                out == if answer.Ok? && !written then Err(Persistence) else answer
    {
      hide Enqueue, ResolveEvent, OrderValid;
      StepOrderValid(View(), Deliver(k, event, written));
      if k !in accounts { return Err(UnknownAccount); }
      var rt := accounts[k];
      if !Available(rt.record) { return Err(AccountUnavailable); }
      if !event.valid { return Err(InvalidEvent); }
      var resolved := ResolveEvent(rt.record.config, event);
      if resolved.Err? { return Err(resolved.error); }
      var d := resolved.value;
      var (q, outcome) := Enqueue(rt.queue, d.routed);
      if outcome.Err? { return Err(QueueRefused(outcome.error)); }
      rt := rt.(queue := q);
      if outcome.value == Queued {
        rt := rt.(context := rt.context[DKey(d) := d.context],
                  record := rt.record.(pendingInbound := rt.record.pendingInbound + [d]));
      }
      rt := rt.(record := rt.record.(lifecycle := Running));
      accounts := accounts[k := rt];
      var ok := Put(k, rt.record, written);
      if !ok { return Err(Persistence); }
      out := Ok(outcome.value);
    }

    method TakeFair() returns (out: Option<(AccountKey, Durable)>)
      requires OrderValid(View())
      modifies this`accounts, this`fairOrder
      ensures (View(), out) == Supervisor.TakeFair(old(View())) && OrderValid(View())
    {
      hide Visit, Skips, Supervisor.TakeFair, OrderValid, Rotated;
      RotatedNot(fairOrder);
      ghost var before := View();
      TakeFairRotates(before);
      TakeFairIs(before);
      SkippedSoFar(before);
      var rounds := |fairOrder|;
      for i := 0 to rounds
        invariant store == before.store && accounts == before.accounts
        invariant fairOrder == Rotated(before.order, i) && i <= Skips(before.accounts, before.order)
      {
        RotateOnce(before.order, i);
        var k := fairOrder[0];
        fairOrder := fairOrder[1..] + [k];
        match Visit(accounts[k]) {
          case Skipped =>
          case Lost(after) =>
            accounts := accounts[k := after];
            return None;
          case Served(after, item) =>
            accounts := accounts[k := after];
            return Some((k, item));
        }
      }
      out := None;
    }

    method CompleteSession(k: AccountKey, s: Session, written: bool) returns (out: Result<(), GatewayError>)
      requires OrderValid(View())
      modifies this`store, this`accounts
      ensures View() == Step(old(View()), Done(k, s, written)) && OrderValid(View())
      ensures k !in old(accounts) ==> out == Err(UnknownAccount)
      ensures k in old(accounts) ==>
                var answer := Finish(old(accounts)[k], s).1;
                out == if answer.Ok? && !written then Err(Persistence) else answer
    {
      StepOrderValid(View(), Done(k, s, written));
      if k !in accounts { return Err(UnknownAccount); }
      var rt := accounts[k];
      var (q, released) := Complete(rt.queue, s);
      if released.Err? { return Err(QueueRefused(released.error)); }
      rt := rt.(queue := q);
      if s !in rt.inFlight {
        accounts := accounts[k := rt];
        return Err(NoDispatch);
      }
      var finished := rt.inFlight[s];
      rt := Runtime(rt.record.(pendingInbound := WithoutKey(rt.record.pendingInbound, finished)), rt.queue,
                    rt.context - {finished}, rt.inFlight - {s});
      accounts := accounts[k := rt];
      var ok := Put(k, rt.record, written);
      out := if ok then Ok(()) else Err(Persistence);
    }
  }
}
