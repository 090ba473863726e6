/** What the supervisor answers, over whole runs: which accounts there are, which events are accepted, and that an accepted
    message is served. */
module Answers {
  import opened Seqs
  import opened GatewayQueues
  import opened Routes
  import opened Accounts
  import opened Restore
  import opened Supervisor
  import opened SupervisorRuns

  // ---------------------------------------------------------------- which accounts there are

  /** Bounds that let something through, and routes, each with an id of its own. */
  ghost predicate Usable(c: Config) {
    && c.limits.concurrency > 0 && c.limits.pending > 0 && c.limits.perSession > 0 && c.limits.seen > 0
    && c.limits.attachments > 0 && c.limits.attachmentBytes > 0 && c.limits.totalAttachmentBytes > 0
    && |c.routes| > 0 && forall i, j :: 0 <= i < |c.routes| && 0 <= j < |c.routes| && c.routes[i].id == c.routes[j].id ==> i == j
  }

  /** The accounts added and not removed since, going by the operations alone. */
  ghost function Members(start: set<AccountKey>, ops: seq<Op>): set<AccountKey> {
    if ops == [] then start
    else
      var before, op := Members(start, ops[..|ops| - 1]), ops[|ops| - 1];
      match op
      case Add(config, accepted, written) =>
        if Usable(config) && accepted && written then before + {AccountKey(config.channel, config.accountId)} else before
      case Remove(k, written) => if written then before - {k} else before
      case _ => before
  }

  lemma StepMembers(sup: Sup, op: Op)
    requires OrderValid(sup)
    ensures Step(sup, op).accounts.Keys == Members(sup.accounts.Keys, [op])
  {
    hide TakeFair, EffectOf;
    assert [op][..0] == [];
    assert Members(sup.accounts.Keys, []) == sup.accounts.Keys;
    match op
    case Take => TakeKeepsAccounts(sup);
    case Add(config, _, _) => assert ValidConfig(config) <==> Usable(config);
    case _ =>
  }

  /** An account is there exactly when it was added, under a usable configuration that the catalogue accepted, and not
      removed since; only writes that succeed count. */
  lemma {:induction false} RunMembers(sup: Sup, ops: seq<Op>)
    requires OrderValid(sup)
    ensures Run(sup, ops).accounts.Keys == Run(sup, ops).store.Keys == Members(sup.accounts.Keys, ops)
  {
    RunOrderValid(sup, ops);
    if ops != [] {
      var before, op := ops[..|ops| - 1], ops[|ops| - 1];
      RunMembers(sup, before);
      RunOrderValid(sup, before);
      StepMembers(Run(sup, before), op);
      hide OrderValid, Step, Run, Usable;
      assert [op][..0] == [];
      assert Members(Run(sup, before).accounts.Keys, []) == Run(sup, before).accounts.Keys;
    }
  }

  /** A new account has nothing pending, and takes events and is served exactly when it is enabled. */
  lemma AddedRuns(sup: Sup, config: Config, accepted: bool, written: bool)
    requires AddAccount(sup, config, accepted, written).1.Ok?
    ensures var k := KeyOfConfig(config);
            var after := AddAccount(sup, config, accepted, written).0;
            && k !in sup.accounts && k in after.accounts && k in after.store && after.order == sup.order + [k]
            && after.store[k] == after.accounts[k].record && after.accounts[k].record.config == config
            && after.accounts[k].record.pendingInbound == [] && after.accounts[k].queue == Empty(config.limits)
            && (Available(after.accounts[k].record) <==> config.enabled)
            && (after.accounts[k].record.lifecycle in {Starting, Running, Reconnecting} <==> config.enabled)
  {
  }

  // ---------------------------------------------------------------- which keys are remembered

  ghost predicate Remembering(q: QueueState, keys: seq<Key>) {
    q.seenOrder == Newest(keys, q.limits.seen) && q.seen == ToSet(q.seenOrder)
  }

  /** The keys accepted by account `k`, oldest first, after those it remembered at the start. */
  ghost function AcceptedKeys(sup: Sup, ops: seq<Op>, k: AccountKey): seq<Key> {
    if ops == [] then (if k in sup.accounts then sup.accounts[k].queue.seenOrder else [])
    else
      var before, op := ops[..|ops| - 1], ops[|ops| - 1];
      var state := Run(sup, before);
      if k !in Step(state, op).accounts then [] else AcceptedKeys(sup, before, k) + NewKeys(Recorded(state, op, k))
  }

  function NewKeys(entries: seq<Entry>): seq<Key> {
    if entries != [] && entries[0].Accepted? then [DKey(entries[0].d)] else []
  }

  lemma AcceptRemembers(rt: Runtime, d: Durable, keys: seq<Key>)
    requires Remembering(rt.queue, keys)
    ensures Remembering(Accept(rt, d).0.queue, if Accept(rt, d).1 == Ok(Queued) then keys + [DKey(d)] else keys)
  {
    hide WellFormed, AttachmentsFit, KeyOf, Newest;
    NewestAgain(keys, [DKey(d)], rt.queue.limits.seen);
  }

  lemma {:induction false} TakeFromRemembers(q: QueueState)
    ensures TakeFrom(q).0.seen == q.seen && TakeFrom(q).0.seenOrder == q.seenOrder && TakeFrom(q).0.limits == q.limits
    decreases |q.ready|
  {
    if q.ready != [] {
      TakeFromRemembers(q.(ready := q.ready[1..]));
    }
  }

  lemma EffectRemembers(rt: Runtime, op: Op, keys: seq<Key>)
    requires Remembering(rt.queue, keys) && (op.Deliver? || op.Done? || op.Change?) && !EffectOf(rt, op).Nothing?
    ensures var queued := op.Deliver? && DeliverTo(rt, op.event).1 == Ok(Queued);
            Remembering(EffectOf(rt, op).after.queue, if queued then keys + [DKey(Incoming(rt, op.event).value)] else keys)
  {
    hide Incoming, Accept;
    match op
    case Deliver(_, event, _) => AcceptRemembers(rt, Incoming(rt, event).value, keys);
    case Done(_, s, _) => hide WithoutKey;
    case Change(_, _, _, _, _, _) =>
  }

  lemma StepRemembers(sup: Sup, op: Op, k: AccountKey, keys: seq<Key>)
    requires OrderValid(sup) && k in Step(sup, op).accounts
    requires if k in sup.accounts then Remembering(sup.accounts[k].queue, keys) else keys == []
    ensures Remembering(Step(sup, op).accounts[k].queue, keys + NewKeys(Recorded(sup, op, k)))
  {
    hide EffectOf, TakeFair, Visit, Remembering, ValidConfig, OrderValid, Finish;
    assert keys + [] == keys;
    match op
    case Add(config, _, _) => BlankRemembers(config);
    case Take =>
      TakeVisits(sup);
      TakeFairRotates(sup);
      VisitRemembers(sup.accounts[k], keys);
    case Remove(_, _) =>
    case _ =>
      if op.key == k && !EffectOf(sup.accounts[k], op).Nothing? {
        EffectRemembers(sup.accounts[k], op, keys);
        NothingQueued(sup.accounts[k], op);
      } else if op.key == k {
        NothingQueued(sup.accounts[k], op);
      }
  }

  lemma NothingQueued(rt: Runtime, op: Op)
    ensures EffectOf(rt, op).Nothing? && op.Deliver? ==> DeliverTo(rt, op.event).1.Err?
  {
    hide Incoming, Accept;
  }

  lemma BlankRemembers(config: Config)
    ensures Remembering(Blank(NewRecord(config)).queue, [])
  {
  }

  lemma VisitRemembers(rt: Runtime, keys: seq<Key>)
    requires Remembering(rt.queue, keys)
    ensures !Visit(rt).Skipped? ==> Remembering(Visit(rt).after.queue, keys)
  {
    hide TakeFrom, KeyOf;
    TakeFromRemembers(rt.queue);
  }

  /** Over every run, redeliveries included: an account remembers exactly the newest keys it accepted, up to its bound. */
  lemma {:induction false} RunRemembers(sup: Sup, ops: seq<Op>, k: AccountKey)
    requires OrderValid(sup) && forall x :: x in sup.accounts ==> Remembering(sup.accounts[x].queue, sup.accounts[x].queue.seenOrder)
    ensures k in Run(sup, ops).accounts ==> Remembering(Run(sup, ops).accounts[k].queue, AcceptedKeys(sup, ops, k))
    ensures k !in Run(sup, ops).accounts ==> AcceptedKeys(sup, ops, k) == []
  {
    if ops != [] {
      var before, op := ops[..|ops| - 1], ops[|ops| - 1];
      RunRemembers(sup, before, k);
      RunOrderValid(sup, before);
      var state := Run(sup, before);
      hide Remembering, OrderValid, NewKeys, Recorded;
      if k in Step(state, op).accounts {
        StepRemembers(state, op, k, AcceptedKeys(sup, before, k));
      }
    }
  }

  // ---------------------------------------------------------------- which events are accepted

  /** The account takes events. */
  ghost predicate Takes(r: Record) {
    r.config.enabled && r.lifecycle in {Starting, Running, RateLimited, Reconnecting}
  }

  /** What an account has waiting: its pending messages that are not in flight. */
  ghost function Waiting(rt: Runtime): seq<Routed> {
    Undispatched(rt.record.pendingInbound, rt.inFlight.Values)
  }

  ghost predicate Room(rt: Runtime, s: Session) {
    && |Waiting(rt)| < rt.record.config.limits.pending
    && |OfSession(Waiting(rt), s)| < rt.record.config.limits.perSession
  }

  ghost predicate Offers(rt: Runtime, event: Event, d: Durable) {
    Takes(rt.record) && event.valid && exists route :: Authorizes(rt.record.config, event, route, d)
  }

  lemma TakesIs(r: Record)
    ensures Available(r) <==> Takes(r)
  {
    match r.lifecycle
    case Starting =>
    case _ =>
  }

  lemma IncomingIs(rt: Runtime, event: Event, d: Durable)
    requires UniqueIds(rt.record.config.routes)
    ensures Incoming(rt, event) == Ok(d) <==> Offers(rt, event, d)
  {
    hide ResolveEvent, Authorizes;
    TakesIs(rt.record);
    ResolvedByBest(rt.record.config, event, d);
  }

  /** An event is queued exactly when the account takes events, the event entitles it to a message that is complete, not
      too large and not remembered, and both bounds leave room; it is a duplicate exactly when the key is remembered. */
  lemma DeliveryAnswers(rt: Runtime, event: Event)
    requires Agreement(rt) && UniqueIds(rt.record.config.routes)
    ensures var answer := DeliverTo(rt, event).1;
            && (answer == Err(AccountUnavailable) <==> !Takes(rt.record))
            && (answer == Ok(Queued) <==>
                  exists d :: Offers(rt, event, d) && Acceptable(rt, d) && DKey(d) !in rt.queue.seenOrder && Room(rt, d.routed.session))
            && (answer == Ok(Duplicate) <==> exists d :: Offers(rt, event, d) && Acceptable(rt, d) && DKey(d) in rt.queue.seenOrder)
            && (answer == Err(QueueRefused(Backpressure)) <==>
                  exists d :: Offers(rt, event, d) && Acceptable(rt, d) && DKey(d) !in rt.queue.seenOrder && !Room(rt, d.routed.session))
  {
    hide Agreement, ResolveEvent, Offers, Room, Acceptable, UniqueIds, DKey;
    if Incoming(rt, event).Ok? {
      var d := Incoming(rt, event).value;
      AcceptAnswers(rt, d);
      IncomingIs(rt, event, d);
      forall x | Offers(rt, event, x)
        ensures x == d
      {
        IncomingIs(rt, event, x);
      }
    } else {
      forall x
        ensures !Offers(rt, event, x)
      {
        IncomingIs(rt, event, x);
      }
    }
    NotFromResolving(rt, event);
  }

  lemma NotFromResolving(rt: Runtime, event: Event)
    ensures Incoming(rt, event) == Err(AccountUnavailable) <==> !Takes(rt.record)
    ensures Incoming(rt, event).Err? ==> !Incoming(rt, event).error.QueueRefused?
  {
    hide SelectRoute, InboundOf;
    TakesIs(rt.record);
  }

  ghost predicate Acceptable(rt: Runtime, d: Durable) {
    Addressed(d.routed.message) && Carried(rt.record.config.limits, d.routed.message.attachments)
  }

  lemma AcceptAnswers(rt: Runtime, d: Durable)
    requires Agreement(rt)
    ensures var answer := Accept(rt, d).1;
            && (answer == Ok(Queued) <==> Acceptable(rt, d) && DKey(d) !in rt.queue.seenOrder && Room(rt, d.routed.session))
            && (answer == Ok(Duplicate) <==> Acceptable(rt, d) && DKey(d) in rt.queue.seenOrder)
            && (answer == Err(QueueRefused(Backpressure)) <==>
                  Acceptable(rt, d) && DKey(d) !in rt.queue.seenOrder && !Room(rt, d.routed.session))
            && (answer.Err? ==> answer.error.QueueRefused?)
  {
    hide Enqueue, Represents, Addressed, Carried, KeyOf, Undispatched, OfSession;
    EnqueueAnswers(rt.queue, Waiting(rt), d.routed);
  }

  // ---------------------------------------------------------------- an accepted message is served

  lemma NewWaits(after: Runtime, list: seq<Durable>, d: Durable)
    requires Agreement(after) && after.record.pendingInbound == list + [d] && d.routed.session !in after.inFlight
    ensures OfSession(Waiting(after), d.routed.session) != []
  {
    hide Represents, KeyOf, Heads, DistinctKeys, ContextAgrees, AllAdmissible, Undispatched;
    SessionNotFlying(after, d.routed.session);
    SessionAllWaiting(after.record.pendingInbound, after.inFlight.Values, d.routed.session);
    hide Agreement;
    RoutedsAppend(list, [d]);
    OfSessionAppend(Routeds(list), [d.routed], d.routed.session);
    OfSessionSingle(d.routed, d.routed.session);
    assert Routeds([d]) == [d.routed];
  }

  /** A visit serves exactly an account that is started, running or reconnecting, may have another message in flight and
      has one waiting for a session that has none in flight. */
  lemma ServedIff(rt: Runtime)
    requires Agreement(rt)
    ensures Visit(rt).Served? <==>
            && rt.record.lifecycle in {Starting, Running, Reconnecting} && |rt.inFlight| < rt.record.config.limits.concurrency
            && exists s :: s !in rt.inFlight && OfSession(Waiting(rt), s) != []
  {
    assert |rt.inFlight| == |rt.inFlight.Keys|;
    hide Visit, Represents, TakeReady, Heads, DistinctKeys, ContextAgrees, AllAdmissible, Undispatched, OfSession;
    VisitAgrees(rt);
    TakeRefines(rt.queue, Waiting(rt));
  }

  /** Accepting an event makes its account run; if it may have another message in flight and the session has none, the
      scheduler's next visit serves the account. */
  lemma AcceptedIsServed(rt: Runtime, event: Event)
    requires Agreement(rt) && DeliverTo(rt, event).1 == Ok(Queued) && Agreement(DeliverTo(rt, event).0.after)
    ensures var d, after := Incoming(rt, event).value, DeliverTo(rt, event).0.after;
            && after.record.lifecycle == Running && after.record.pendingInbound == rt.record.pendingInbound + [d]
            && (|rt.inFlight| < rt.record.config.limits.concurrency && d.routed.session !in rt.inFlight ==> Visit(after).Served?)
  {
    hide Agreement, Incoming, Enqueue, Visit, Waiting, OfSession;
    var d, after := Incoming(rt, event).value, DeliverTo(rt, event).0.after;
    QueuedFields(rt, d);
    if |rt.inFlight| < rt.record.config.limits.concurrency && d.routed.session !in rt.inFlight {
      NewWaits(after, rt.record.pendingInbound, d);
      ServedIff(after);
    }
  }

  /** A completion succeeds exactly for a session whose message was handed out, and then removes that message; a session
      whose message was lost is only released, in memory; any other is refused and nothing changes. */
  lemma CompletionAnswers(rt: Runtime, s: Session)
    ensures var (effect, answer) := FinishOn(rt, s);
            && (answer.Ok? <==> s in rt.queue.inFlight && s in rt.inFlight)
            && (answer == Err(NoDispatch) <==> s in rt.queue.inFlight && s !in rt.inFlight)
            && (answer == Err(QueueRefused(NotInFlight)) <==> s !in rt.queue.inFlight)
            && (answer.Ok? ==>
                  && effect.Persist? && effect.after.inFlight == rt.inFlight - {s} && effect.after.queue.inFlight == rt.queue.inFlight - {s}
                  && (forall d :: d in effect.after.record.pendingInbound <==> d in rt.record.pendingInbound && DKey(d) != rt.inFlight[s]))
            && (answer == Err(NoDispatch) ==>
                  effect.InMemory? && effect.after == rt.(queue := effect.after.queue) && effect.after.queue.inFlight == rt.queue.inFlight - {s})
            && (answer == Err(QueueRefused(NotInFlight)) ==> effect.Nothing?)
  {
    hide KeyOf;
    if s in rt.inFlight {
      RemovalMembers(rt.record.pendingInbound, rt.inFlight[s]);
      hide WithoutKey;
    }
  }

  /** A change of health or of the enabled flag takes effect in memory, whether or not it is written, touches no message,
      and decides alone whether the account takes events and may be served. */
  lemma ChangeTakesEffect(sup: Sup, k: AccountKey, enabled: bool, lifecycle: Lifecycle, until: Option<int>, error: Option<string>, written: bool)
    requires k in sup.accounts
    ensures var before, after := sup.accounts[k], Step(sup, Change(k, enabled, lifecycle, until, error, written));
            && k in after.accounts && after.accounts[k] == before.(record := after.accounts[k].record)
            && after.accounts[k].record.pendingInbound == before.record.pendingInbound
            && (Takes(after.accounts[k].record) <==> enabled && lifecycle in {Starting, Running, RateLimited, Reconnecting})
            && (lifecycle !in {Starting, Running, Reconnecting} ==> Visit(after.accounts[k]).Skipped?)
            && after.store == (if written then sup.store[k := after.accounts[k].record] else sup.store)
            && after.accounts[k].record.throttledUntil == until && after.accounts[k].record.safeError == error
            && after.order == sup.order && forall x :: x in sup.accounts && x != k ==> x in after.accounts && after.accounts[x] == sup.accounts[x]
  {
  }
}
