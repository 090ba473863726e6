/** Rebuilding an account from its durable record after a restart. */
module Restore {
  import opened Seqs
  import opened GatewayQueues
  import opened Routes
  import opened Accounts
  import Text

  /** Lifecycle facts an account starts over with. */
  function Reopened(r: Record, now: int): Record {
    if r.lifecycle == RateLimited && r.throttledUntil.Some? && r.throttledUntil.value > now then r
    else if r.lifecycle == Failed && r.config.enabled then r
    else if r.config.enabled then r.(lifecycle := Reconnecting, throttledUntil := None)
    else r.(lifecycle := Paused, throttledUntil := None)
  }

  /** Queues the pending messages in order; any refusal by the dispatcher fails the restore. */
  function Requeue(rt: Runtime, todo: seq<Durable>): Result<Runtime, GatewayError>
    decreases |todo|
  {
    if todo == [] then Ok(rt)
    else
      match Enqueue(rt.queue, todo[0].routed)
      case (_, Err(_)) => Err(Persistence)
      case (q, Ok(_)) =>
        Requeue(rt.(queue := q, context := rt.context[DKey(todo[0]) := todo[0].context]), todo[1..])
  }

  function Blank(r: Record): Runtime {
    Runtime(r, Empty(r.config.limits), map[], map[])
  }

  /** What can be wrong with the health of a reopened account: its last adapter error has a blank message. */
  predicate HealthValid(r: Record) {
    r.safeError.Some? ==> !Text.Blank(r.safeError.value)
  }

  function RestoreAccount(r: Record, now: int): Result<Runtime, GatewayError> {
    if !HealthValid(r) || !r.config.limits.Positive() then Err(Rejected) else Requeue(Blank(Reopened(r, now)), r.pendingInbound)
  }

  // ---------------------------------------------------------------- when it succeeds, and to what

  /** Every pending message, waiting or in flight, has to fit the bounds on waiting messages. */
  ghost predicate FitsBounds(list: seq<Durable>, limits: Limits) {
    |list| <= limits.pending && forall s :: |OfSession(Routeds(list), s)| <= limits.perSession
  }

  function KeyList(list: seq<Durable>): seq<Key> {
    seq(|list|, i requires 0 <= i < |list| => DKey(list[i]))
  }

  /** The pending messages that queueing them again keeps: each one whose key is not among the newest `n` kept before it. */
  function Requeued(list: seq<Durable>, n: nat): seq<Durable> {
    if list == [] then []
    else
      var kept, d := Requeued(list[..|list| - 1], n), list[|list| - 1];
      if DKey(d) in Newest(KeyList(kept), n) then kept else kept + [d]
  }

  /** The context each key is restored with: that of its last pending entry. */
  function Contexts(list: seq<Durable>): map<Key, Context> {
    if list == [] then map[]
    else
      var d := list[|list| - 1];
      Contexts(list[..|list| - 1])[DKey(d) := d.context]
  }

  lemma {:induction false} LastContext(list: seq<Durable>, i: nat)
    requires i < |list| && forall j :: i < j < |list| ==> DKey(list[j]) != DKey(list[i])
    ensures DKey(list[i]) in Contexts(list) && Contexts(list)[DKey(list[i])] == list[i].context
  {
    hide KeyOf;
    var m := |list| - 1;
    if i < m {
      LastContext(list[..m], i);
    }
  }

  // ---------------------------------------------------------------- queueing again, message by message

  /** After the messages `done`, the tables are those of the messages kept. */
  ghost predicate Halfway(rt: Runtime, done: seq<Durable>) {
    var kept := Requeued(done, rt.queue.limits.seen);
    && Represents(rt.queue, Routeds(kept))
    && rt.queue.seenOrder == Newest(KeyList(kept), rt.queue.limits.seen)
    && rt.context == Contexts(done)
    && rt.queue.inFlight == {} && rt.inFlight == map[]
    && FitsBounds(kept, rt.queue.limits)
  }

  lemma RequeuedSnoc(done: seq<Durable>, d: Durable, n: nat)
    ensures var kept := Requeued(done, n);
            Requeued(done + [d], n) == if DKey(d) in Newest(KeyList(kept), n) then kept else kept + [d]
    ensures Contexts(done + [d]) == Contexts(done)[DKey(d) := d.context]
  {
    assert (done + [d])[..|done|] == done;
  }

  lemma {:induction false} RequeuedGrows(a: seq<Durable>, b: seq<Durable>, n: nat)
    ensures Requeued(a, n) <= Requeued(a + b, n)
  {
    hide *;
    if b == [] {
      assert a + b == a;
    } else {
      var m := |b| - 1;
      var before := a + b[..m];
      RequeuedGrows(a, b[..m], n);
      LastOf(a, b);
      RequeuedSnoc(before, b[m], n);
      StillPrefix(Requeued(a, n), Requeued(before, n), b[m]);
    }
  }

  lemma GrowthFits(done: seq<Durable>, d: Durable, limits: Limits)
    requires FitsBounds(done, limits)
    ensures FitsBounds(done + [d], limits) <==>
            |done| < limits.pending && |OfSession(Routeds(done), d.routed.session)| < limits.perSession
  {
    RoutedsAppend(done, [d]);
    forall s
      ensures OfSession(Routeds(done + [d]), s)
           == OfSession(Routeds(done), s) + if s == d.routed.session then [d.routed] else []
    {
      OfSessionAppend(Routeds(done), Routeds([d]), s);
    }
  }

  lemma {:induction false} PrefixFits(a: seq<Durable>, b: seq<Durable>, limits: Limits)
    requires FitsBounds(a + b, limits)
    ensures FitsBounds(a, limits)
  {
    RoutedsAppend(a, b);
    forall s
      ensures |OfSession(Routeds(a), s)| <= limits.perSession
    {
      OfSessionAppend(Routeds(a), Routeds(b), s);
      assert |OfSession(Routeds(a + b), s)| <= limits.perSession;
    }
  }

  lemma AppendFields(q: QueueState, r: Routed)
    ensures var n := Append(q, r);
            n.seenOrder == Newest(q.seenOrder + [KeyOf(r.message)], q.limits.seen) && n.inFlight == q.inFlight && n.limits == q.limits
  {
    hide KeyOf;
  }

  lemma RequeueAppends(q: QueueState, done: seq<Durable>, d: Durable)
    requires Represents(q, Routeds(done)) && Enqueue(q, d.routed).1 == Ok(Queued)
    ensures Represents(Enqueue(q, d.routed).0, Routeds(done + [d]))
  {
    hide Represents, Enqueue, OfSession;
    EnqueueRefines(q, Routeds(done), d.routed);
    RoutedsAppend(done, [d]);
    assert Routeds(done + [d]) == Routeds(done) + [d.routed];
  }

  lemma SeenIsWindow(q: QueueState, waiting: seq<Routed>, k: Key)
    requires Represents(q, waiting)
    ensures k in q.seen <==> k in q.seenOrder
  {
  }

  /** What the dispatcher answers to the next message. */
  lemma RequeueOutcome(rt: Runtime, done: seq<Durable>, d: Durable)
    requires Halfway(rt, done)
    ensures var q, kept := rt.queue, Requeued(done, rt.queue.limits.seen);
            var outcome := Enqueue(q, d.routed).1;
            if !Admissible(q.limits, d.routed.message) then outcome.Err?
            else if DKey(d) in Newest(KeyList(kept), q.limits.seen) then outcome == Ok(Duplicate)
            else if FitsBounds(kept + [d], q.limits) then outcome == Ok(Queued)
            else outcome.Err?
    ensures Enqueue(rt.queue, d.routed).1 == Ok(Duplicate) ==> Enqueue(rt.queue, d.routed).0 == rt.queue
  {
    hide Represents, WellFormed, AttachmentsFit, KeyOf, Requeued, Contexts, OfSession, Routeds, Append, Newest, KeyList, FitsBounds;
    var kept := Requeued(done, rt.queue.limits.seen);
    EnqueueRefines(rt.queue, Routeds(kept), d.routed);
    SeenIsWindow(rt.queue, Routeds(kept), DKey(d));
    RoutedsLength(kept);
    GrowthFits(kept, d, rt.queue.limits);
  }

  lemma {:induction false} RoutedsLength(list: seq<Durable>)
    ensures |Routeds(list)| == |list|
  {
    if list != [] {
      RoutedsLength(list[1..]);
    }
  }

  lemma KeyListSnoc(list: seq<Durable>, d: Durable)
    ensures KeyList(list + [d]) == KeyList(list) + [DKey(d)]
  {
    hide KeyOf;
  }

  function Next(rt: Runtime, d: Durable): Runtime {
    rt.(queue := Enqueue(rt.queue, d.routed).0, context := rt.context[DKey(d) := d.context])
  }

  lemma QueuedHalfway(rt: Runtime, done: seq<Durable>, d: Durable)
    requires Halfway(rt, done) && Enqueue(rt.queue, d.routed).1 == Ok(Queued)
    ensures Halfway(Next(rt, d), done + [d]) && Next(rt, d).queue.limits == rt.queue.limits
  {
    var n := rt.queue.limits.seen;
    var kept := Requeued(done, n);
    RequeueOutcome(rt, done, d);
    RequeuedSnoc(done, d, n);
    RequeueAppends(rt.queue, kept, d);
    AppendFields(rt.queue, d.routed);
    KeyListSnoc(kept, d);
    NewestAgain(KeyList(kept), [DKey(d)], n);
    hide Represents, WellFormed, AttachmentsFit, KeyOf, Requeued, Contexts, OfSession, Routeds, Append, Newest, KeyList, FitsBounds;
  }

  lemma DuplicateHalfway(rt: Runtime, done: seq<Durable>, d: Durable)
    requires Halfway(rt, done) && Enqueue(rt.queue, d.routed).1 == Ok(Duplicate)
    ensures Halfway(Next(rt, d), done + [d]) && Next(rt, d).queue.limits == rt.queue.limits
  {
    RequeueOutcome(rt, done, d);
    RequeuedSnoc(done, d, rt.queue.limits.seen);
    hide Represents, WellFormed, AttachmentsFit, KeyOf, Requeued, Contexts, OfSession, Routeds, Append, Newest, KeyList, FitsBounds, Enqueue;
  }

  lemma OneMoreAdmissible(d: Durable, rest: seq<Durable>, limits: Limits)
    ensures AllAdmissible([d] + rest, limits) <==> Admissible(limits, d.routed.message) && AllAdmissible(rest, limits)
  {
    hide Admissible;
    assert d in [d] + rest && forall x :: x in [d] + rest <==> x == d || x in rest;
  }

  lemma RequeueRefused(rt: Runtime, done: seq<Durable>, d: Durable, rest: seq<Durable>)
    requires Halfway(rt, done) && Enqueue(rt.queue, d.routed).1.Err? && Admissible(rt.queue.limits, d.routed.message)
    ensures !FitsBounds(Requeued((done + [d]) + rest, rt.queue.limits.seen), rt.queue.limits)
  {
    hide Halfway, Admissible, KeyOf, Requeued, Enqueue, FitsBounds, Newest, KeyList;
    var n := rt.queue.limits.seen;
    RequeueOutcome(rt, done, d);
    RequeuedSnoc(done, d, n);
    RequeuedGrows(done + [d], rest, n);
    var less, all := Requeued(done + [d], n), Requeued((done + [d]) + rest, n);
    PrefixSplit(less, all);
    if FitsBounds(all, rt.queue.limits) {
      PrefixFits(less, all[|less|..], rt.queue.limits);
    }
  }

  lemma {:induction false} RequeueExact(rt: Runtime, done: seq<Durable>, todo: seq<Durable>)
    requires Halfway(rt, done)
    ensures Requeue(rt, todo).Ok? <==>
            AllAdmissible(todo, rt.queue.limits) && FitsBounds(Requeued(done + todo, rt.queue.limits.seen), rt.queue.limits)
    ensures Requeue(rt, todo).Ok? ==>
              Halfway(Requeue(rt, todo).value, done + todo)
              && Requeue(rt, todo).value.record == rt.record
              && Requeue(rt, todo).value.queue.limits == rt.queue.limits
    decreases |todo|
  {
    if todo == [] {
      assert done + todo == done;
    } else {
      hide Halfway, Admissible, AllAdmissible, KeyOf, Requeued, Enqueue, FitsBounds, Newest, KeyList;
      var d, rest := todo[0], todo[1..];
      Reassociate(done, todo);
      OneMoreAdmissible(d, rest, rt.queue.limits);
      RequeueOutcome(rt, done, d);
      if Enqueue(rt.queue, d.routed).1.Ok? {
        if Enqueue(rt.queue, d.routed).1.value == Queued {
          QueuedHalfway(rt, done, d);
        } else {
          DuplicateHalfway(rt, done, d);
        }
        RequeueExact(Next(rt, d), done + [d], rest);
      } else if Admissible(rt.queue.limits, d.routed.message) {
        RequeueRefused(rt, done, d, rest);
      }
    }
  }

  lemma BlankHalfway(r: Record)
    requires r.config.limits.Positive()
    ensures Halfway(Blank(r), [])
  {
  }

  /** For every record: a restore succeeds exactly when the health and the limits are valid, every pending message is
      admissible and those kept fit the bounds.  It then waits with those kept, in arrival order, each in the context of the
      last pending entry of its key, and its tables agree exactly when no key is pending twice. */
  lemma RestoreExact(r: Record, now: int)
    ensures var limits := r.config.limits;
            RestoreAccount(r, now).Ok? <==>
            && HealthValid(r) && limits.Positive() && AllAdmissible(r.pendingInbound, limits)
            && FitsBounds(Requeued(r.pendingInbound, limits.seen), limits)
    ensures RestoreAccount(r, now).Ok? ==>
              var rt := RestoreAccount(r, now).value;
              && rt.record == Reopened(r, now) && rt.record.pendingInbound == r.pendingInbound
              && rt.inFlight == map[] && rt.queue.limits == r.config.limits
              && Represents(rt.queue, Routeds(Requeued(r.pendingInbound, r.config.limits.seen)))
              && rt.context == Contexts(r.pendingInbound)
              && (Agreement(rt) <==> DistinctKeys(r.pendingInbound))
  {
    hide Represents, Requeued, AllAdmissible, FitsBounds, Requeue, Agreement, DistinctKeys, Contexts;
    if r.config.limits.Positive() {
      var list := r.pendingInbound;
      BlankHalfway(Reopened(r, now));
      assert [] + list == list;
      RequeueExact(Blank(Reopened(r, now)), [], list);
      if RestoreAccount(r, now).Ok? {
        RestoredAgreesIff(RestoreAccount(r, now).value);
      }
    }
  }

  lemma NothingPending(n: nat)
    ensures Requeued([], n) == [] && ContextAgrees([], Contexts([]))
  {
  }

  lemma DistinctFront(list: seq<Durable>)
    requires DistinctKeys(list) && list != []
    ensures DistinctKeys(list[..|list| - 1])
  {
    hide KeyOf;
  }

  lemma {:induction false} DistinctKept(list: seq<Durable>, n: nat)
    requires DistinctKeys(list)
    ensures Requeued(list, n) == list && ContextAgrees(list, Contexts(list))
  {
    hide *;
    if list == [] {
      NothingPending(n);
    } else {
      var m := |list| - 1;
      var front, d := list[..m], list[m];
      DistinctFront(list);
      DistinctKept(front, n);
      LastOf([], list);
      assert [] + list == list && [] + front == front;
      FreshKey(front, d);
      NotInWindow(front, DKey(d), n);
      GrowContext(front, Contexts(front), d);
      RequeuedSnoc(front, d, n);
    }
  }

  lemma NotInWindow(list: seq<Durable>, k: Key, n: nat)
    requires k !in DKeys(list)
    ensures k !in Newest(KeyList(list), n)
  {
    hide KeyOf;
    assert forall i :: 0 <= i < |list| ==> list[i] in list && KeyList(list)[i] == DKey(list[i]);
  }

  lemma GrowContext(done: seq<Durable>, context: map<Key, Context>, d: Durable)
    requires ContextAgrees(done, context) && DKey(d) !in DKeys(done)
    ensures ContextAgrees(done + [d], context[DKey(d) := d.context])
    ensures DKeys(done + [d]) == DKeys(done) + {DKey(d)}
  {
    assert forall e :: e in done + [d] <==> e in done || e == d;
    assert d in done + [d];
    forall e | e in done
      ensures e in done + [d] && DKey(e) in DKeys(done)
    {
    }
  }

  lemma FreshKey(done: seq<Durable>, d: Durable)
    requires DistinctKeys(done + [d])
    ensures DKey(d) !in DKeys(done)
  {
    if DKey(d) in DKeys(done) {
      LiveKeyBreaksDistinct(done, d);
    }
  }

  lemma RestoredAgreesIff(rt: Runtime)
    requires Halfway(rt, rt.record.pendingInbound) && rt.queue.limits == rt.record.config.limits
    requires AllAdmissible(rt.record.pendingInbound, rt.record.config.limits)
    ensures Agreement(rt) <==> DistinctKeys(rt.record.pendingInbound)
  {
    hide Represents, Requeued, AllAdmissible, FitsBounds, DistinctKeys, Contexts, ContextAgrees, Heads, Newest, KeyList, Undispatched;
    var list := rt.record.pendingInbound;
    NoneFlying(list);
    assert rt.inFlight.Values == {};
    if DistinctKeys(list) {
      DistinctKept(list, rt.queue.limits.seen);
    }
  }

  /** Where no key is pending twice, nothing is dropped. */
  lemma RestoreDistinct(r: Record, now: int)
    requires r.config.limits.Positive()
    requires DistinctKeys(r.pendingInbound) && AllAdmissible(r.pendingInbound, r.config.limits)
    ensures RestoreAccount(r, now).Ok? <==> HealthValid(r) && FitsBounds(r.pendingInbound, r.config.limits)
    ensures RestoreAccount(r, now).Ok? ==>
              var rt := RestoreAccount(r, now).value;
              && Agreement(rt)
              && rt.record == Reopened(r, now) && rt.record.pendingInbound == r.pendingInbound
              && rt.inFlight == map[]
              && Represents(rt.queue, Routeds(r.pendingInbound))
  {
    hide Represents, Requeued, AllAdmissible, FitsBounds, RestoreAccount, Agreement, DistinctKeys, Contexts, HealthValid;
    RestoreExact(r, now);
    DistinctKept(r.pendingInbound, r.config.limits.seen);
  }

  /** A restored account is its record but for the lifecycle: it runs again exactly when it is enabled, has not failed and
      is not throttled any more; it takes events exactly when it is enabled and has not failed. */
  lemma RestoredRuns(r: Record, now: int)
    requires RestoreAccount(r, now).Ok?
    ensures var after := RestoreAccount(r, now).value.record;
            var throttled := r.lifecycle == RateLimited && r.throttledUntil.Some? && r.throttledUntil.value > now;
            && after == r.(lifecycle := after.lifecycle, throttledUntil := after.throttledUntil)
            && (after.lifecycle in {Starting, Running, Reconnecting} <==> r.config.enabled && r.lifecycle != Failed && !throttled)
            && (Available(after) <==> r.config.enabled && r.lifecycle != Failed)
            && (throttled ==> after == r) && (!throttled && after.lifecycle != Failed ==> after.throttledUntil.None?)
  {
    hide RestoreAccount, Represents, Requeued, AllAdmissible, FitsBounds, Agreement, DistinctKeys, Contexts, HealthValid;
    RestoreExact(r, now);
  }

  lemma {:induction false} FlyingShrinks(list: seq<Durable>, f: set<Key>)
    ensures |Undispatched(list, f)| <= |list|
    ensures (exists d :: d in list && DKey(d) in f) ==> |Undispatched(list, f)| < |list|
  {
    if list != [] {
      FlyingShrinks(list[1..], f);
      assert forall d :: d in list <==> d == list[0] || d in list[1..];
    }
  }

  /** Not every crash can be recovered from: with the waiting list full and one message in flight, the
      record cannot be restored. */
  lemma FullWithOneInFlightFails(rt: Runtime, now: int)
    requires Agreement(rt) && rt.inFlight != map[]
    requires rt.queue.pendingCount == rt.queue.limits.pending
    ensures RestoreAccount(rt.record, now).Err?
  {
    var list := rt.record.pendingInbound;
    var s :| s in rt.inFlight;
    var d := HeadInList(list, s, rt.inFlight[s]);
    assert DKey(d) in rt.inFlight.Values;
    FlyingShrinks(list, rt.inFlight.Values);
    RestoreDistinct(rt.record, now);
  }
}
