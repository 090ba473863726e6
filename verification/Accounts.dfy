/** One account of the gateway supervisor: its durable record, dispatcher, route contexts and in-flight
    table, and the agreement between the four. */
module Accounts {
  import opened Seqs
  import opened GatewayQueues
  import opened Routes

  datatype Lifecycle =
    Starting | Running | Paused | RateLimited | Reconnecting | Failed | Removing | Removed

  datatype Record = Record(
    config: Config, lifecycle: Lifecycle, throttledUntil: Option<int>, safeError: Option<string>, pendingInbound: seq<Durable>)

  datatype Runtime = Runtime(
    record: Record, queue: QueueState, context: map<Key, Context>, inFlight: map<Session, Key>)

  predicate Available(r: Record) {
    r.config.enabled && r.lifecycle !in {Paused, Failed, Removing, Removed}
  }

  predicate Runnable(l: Lifecycle) {
    l in {Starting, Running, Reconnecting}
  }

  function DKey(d: Durable): Key {
    KeyOf(d.routed.message)
  }

  function DKeys(list: seq<Durable>): set<Key> {
    set d | d in list :: DKey(d)
  }

  function Routeds(list: seq<Durable>): seq<Routed> {
    if list == [] then [] else [list[0].routed] + Routeds(list[1..])
  }

  function WithoutKey(list: seq<Durable>, k: Key): seq<Durable> {
    if list == [] then []
    else (if DKey(list[0]) == k then [] else [list[0]]) + WithoutKey(list[1..], k)
  }

  /** The pending messages that are not in flight, in arrival order. */
  function Undispatched(list: seq<Durable>, flying: set<Key>): seq<Routed> {
    if list == [] then []
    else (if DKey(list[0]) in flying then [] else [list[0].routed]) + Undispatched(list[1..], flying)
  }

  // ---------------------------------------------------------------- operations

  /** Queues a resolved message; everything up to, not including, the durable write. */
  function Accept(rt: Runtime, d: Durable): (Runtime, Result<Outcome, GatewayError>) {
    match Enqueue(rt.queue, d.routed)
    case (_, Err(e)) => (rt, Err(QueueRefused(e)))
    case (q, Ok(outcome)) =>
      var isNew := outcome == Queued;
      (Runtime(rt.record.(lifecycle := Running,
                          pendingInbound := if isNew then rt.record.pendingInbound + [d] else rt.record.pendingInbound),
               q, if isNew then rt.context[DKey(d) := d.context] else rt.context, rt.inFlight),
       Ok(outcome))
  }

  datatype Attempt = Skipped | Lost(after: Runtime) | Served(after: Runtime, item: Durable)

  /** One visit of the scheduler: an account with nothing runnable is skipped; a message whose route
      context is gone is taken from the queue and lost. */
  function Visit(rt: Runtime): Attempt {
    if !Runnable(rt.record.lifecycle) then Skipped
    else
      match TakeReady(rt.queue)
      case (_, None) => Skipped
      case (q, Some(r)) =>
        var k := KeyOf(r.message);
        if k !in rt.context then Lost(rt.(queue := q))
        else Served(rt.(queue := q, inFlight := rt.inFlight[r.session := k]), Durable(rt.context[k], r))
  }

  function Finish(rt: Runtime, s: Session): (Runtime, Result<(), GatewayError>) {
    match Complete(rt.queue, s)
    case (_, Err(e)) => (rt, Err(QueueRefused(e)))
    case (q, Ok(_)) =>
      if s !in rt.inFlight then (rt.(queue := q), Err(NoDispatch))
      else
        var k := rt.inFlight[s];
        (Runtime(rt.record.(pendingInbound := WithoutKey(rt.record.pendingInbound, k)), q,
                 rt.context - {k}, rt.inFlight - {s}),
         Ok(()))
  }

  // ---------------------------------------------------------------- agreement

  ghost predicate DistinctKeys(list: seq<Durable>) {
    forall i, j :: 0 <= i < j < |list| ==> DKey(list[i]) != DKey(list[j])
  }

  ghost predicate ContextAgrees(list: seq<Durable>, context: map<Key, Context>) {
    context.Keys == DKeys(list) && forall d :: d in list ==> context[DKey(d)] == d.context
  }

  /** The session's in-flight message is its oldest pending one. */
  ghost predicate Heads(list: seq<Durable>, s: Session, k: Key) {
    var mine := OfSession(Routeds(list), s);
    mine != [] && KeyOf(mine[0].message) == k
  }

  ghost predicate AllAdmissible(list: seq<Durable>, limits: Limits) {
    forall d :: d in list ==> Admissible(limits, d.routed.message)
  }

  /** The durable record, the route contexts and the waiting plus in-flight messages are the same
      messages, each once. */
  ghost predicate Agreement(rt: Runtime) {
    && DistinctKeys(rt.record.pendingInbound)
    && ContextAgrees(rt.record.pendingInbound, rt.context)
    && AllAdmissible(rt.record.pendingInbound, rt.record.config.limits)
    && rt.queue.limits == rt.record.config.limits
    && rt.inFlight.Keys == rt.queue.inFlight
    && (forall s :: s in rt.inFlight ==> Heads(rt.record.pendingInbound, s, rt.inFlight[s]))
    && Represents(rt.queue, Undispatched(rt.record.pendingInbound, rt.inFlight.Values))
  }

  // ---------------------------------------------------------------- list facts

  lemma {:induction false} RoutedsAppend(a: seq<Durable>, b: seq<Durable>)
    ensures Routeds(a + b) == Routeds(a) + Routeds(b)
  {
    if a == [] {
      assert a + b == b;
    } else {
      assert (a + b)[1..] == a[1..] + b;
      RoutedsAppend(a[1..], b);
    }
  }

  lemma {:induction false} UndispatchedAppend(a: seq<Durable>, b: seq<Durable>, f: set<Key>)
    ensures Undispatched(a + b, f) == Undispatched(a, f) + Undispatched(b, f)
  {
    if a == [] {
      assert a + b == b;
    } else {
      assert (a + b)[1..] == a[1..] + b;
      UndispatchedAppend(a[1..], b, f);
    }
  }

  lemma {:induction false} RoutedsMembers(list: seq<Durable>)
    ensures |Routeds(list)| == |list|
    ensures forall i :: 0 <= i < |list| ==> Routeds(list)[i] == list[i].routed
  {
    if list != [] {
      RoutedsMembers(list[1..]);
    }
  }

  lemma {:induction false} NoneFlying(list: seq<Durable>)
    ensures Undispatched(list, {}) == Routeds(list)
  {
    if list != [] {
      NoneFlying(list[1..]);
    }
  }

  /** A session without an in-flight message waits with all its pending messages. */
  lemma {:induction false} SessionAllWaiting(list: seq<Durable>, f: set<Key>, s: Session)
    requires forall d :: d in list && d.routed.session == s ==> DKey(d) !in f
    ensures OfSession(Undispatched(list, f), s) == OfSession(Routeds(list), s)
  {
    if list != [] {
      SessionAllWaiting(list[1..], f, s);
      var head := if DKey(list[0]) in f then [] else [list[0].routed];
      OfSessionAppend(head, Undispatched(list[1..], f), s);
      OfSessionAppend([list[0].routed], Routeds(list[1..]), s);
    }
  }

  lemma DropHead(d: Durable, rest: seq<Durable>, f: set<Key>)
    requires DistinctKeys([d] + rest) && DKey(d) !in f
    ensures Undispatched([d] + rest, f + {DKey(d)}) == DropFirst(Undispatched([d] + rest, f), d.routed.session)
  {
    var list := [d] + rest;
    assert list[1..] == rest;
    forall x | x in rest
      ensures DKey(x) != DKey(d)
    {
      var i :| 0 <= i < |rest| && rest[i] == x;
      assert list[0] == d && list[i + 1] == x;
    }
    SameOutside(rest, f, DKey(d));
    assert Undispatched(list, f) == [d.routed] + Undispatched(rest, f);
  }

  lemma DropLater(d: Durable, rest: seq<Durable>, f: set<Key>, s: Session, k: Key)
    requires d.routed.session != s && DKey(d) != k
    requires Undispatched(rest, f + {k}) == DropFirst(Undispatched(rest, f), s)
    ensures Undispatched([d] + rest, f + {k}) == DropFirst(Undispatched([d] + rest, f), s)
  {
    var list := [d] + rest;
    assert list[0] == d && list[1..] == rest;
    if DKey(d) !in f {
      var waiting := [d.routed] + Undispatched(rest, f);
      assert waiting[0] == d.routed && waiting[1..] == Undispatched(rest, f);
      assert Undispatched(list, f) == waiting;
    } else {
      assert Undispatched(list, f) == Undispatched(rest, f);
    }
  }

  /** Marking a session's oldest pending message in flight drops it from the waiting list. */
  lemma HeadLater(list: seq<Durable>, s: Session, k: Key)
    requires list != [] && DistinctKeys(list) && Heads(list, s, k) && list[0].routed.session != s
    ensures DistinctKeys(list[1..]) && Heads(list[1..], s, k) && DKey(list[0]) != k
  {
    hide KeyOf;
    var rest := list[1..];
    assert OfSession(Routeds(list), s) == OfSession(Routeds(rest), s);
    var head := HeadInList(rest, s, k);
    var i :| 0 <= i < |rest| && rest[i] == head;
    assert list[i + 1] == head;
  }

  lemma {:induction false} DispatchDrops(list: seq<Durable>, f: set<Key>, s: Session, k: Key)
    requires DistinctKeys(list)
    requires forall d :: d in list && d.routed.session == s ==> DKey(d) !in f
    requires Heads(list, s, k)
    ensures Undispatched(list, f + {k}) == DropFirst(Undispatched(list, f), s)
  {
    hide KeyOf, DropFirst, Undispatched, DistinctKeys;
    var d, rest := list[0], list[1..];
    assert list == [d] + rest && d in list && forall x :: x in rest ==> x in list;
    if d.routed.session == s {
      assert OfSession(Routeds(list), s)[0] == d.routed;
      DropHead(d, rest, f);
    } else {
      HeadLater(list, s, k);
      DispatchDrops(rest, f, s, k);
      DropLater(d, rest, f, s, k);
    }
  }

  lemma {:induction false} HeadInList(list: seq<Durable>, s: Session, k: Key) returns (d: Durable)
    requires Heads(list, s, k)
    ensures d in list && d.routed.session == s && DKey(d) == k
  {
    if list[0].routed.session == s {
      d := list[0];
    } else {
      assert OfSession(Routeds(list), s) == OfSession(Routeds(list[1..]), s);
      d := HeadInList(list[1..], s, k);
    }
  }

  lemma {:induction false} SameOutside(list: seq<Durable>, f: set<Key>, k: Key)
    requires forall d :: d in list ==> DKey(d) != k
    ensures Undispatched(list, f + {k}) == Undispatched(list, f)
    ensures WithoutKey(list, k) == list
  {
    if list != [] {
      SameOutside(list[1..], f, k);
    }
  }

  /** Removing a finished message from the record leaves the waiting list as it was. */
  lemma {:induction false} RemovalKeepsWaiting(list: seq<Durable>, f: set<Key>, k: Key)
    requires k in f
    ensures Undispatched(WithoutKey(list, k), f - {k}) == Undispatched(list, f)
  {
    if list != [] {
      RemovalKeepsWaiting(list[1..], f, k);
      var rest := WithoutKey(list[1..], k);
      if DKey(list[0]) == k {
        assert WithoutKey(list, k) == rest;
      } else {
        assert WithoutKey(list, k) == [list[0]] + rest;
        assert ([list[0]] + rest)[1..] == rest;
      }
    }
  }

  lemma {:induction false} RemovalMembers(list: seq<Durable>, k: Key)
    ensures forall d :: d in WithoutKey(list, k) <==> d in list && DKey(d) != k
    ensures DistinctKeys(list) ==> DistinctKeys(WithoutKey(list, k))
  {
    if list != [] {
      RemovalMembers(list[1..], k);
      assert forall d :: d in list <==> d == list[0] || d in list[1..];
      var rest := WithoutKey(list[1..], k);
      forall i | 0 <= i < |rest|
        ensures rest[i] in list[1..]
      {
        assert rest[i] in rest;
      }
    }
  }

  /** Removing one session's message leaves every other session's list as it was. */
  lemma {:induction false} RemovalKeepsOthers(list: seq<Durable>, k: Key, t: Session)
    requires forall d :: d in list && DKey(d) == k ==> d.routed.session != t
    ensures OfSession(Routeds(WithoutKey(list, k)), t) == OfSession(Routeds(list), t)
  {
    if list != [] {
      RemovalKeepsOthers(list[1..], k, t);
      var rest := WithoutKey(list[1..], k);
      if DKey(list[0]) == k {
        assert WithoutKey(list, k) == rest;
      } else {
        assert WithoutKey(list, k) == [list[0]] + rest;
        assert ([list[0]] + rest)[1..] == rest;
      }
    }
  }

  // ---------------------------------------------------------------- what every operation keeps

  lemma LiveKeyBreaksDistinct(list: seq<Durable>, d: Durable)
    requires DKey(d) in DKeys(list)
    ensures !DistinctKeys(list + [d])
  {
    var e :| e in list && DKey(e) == DKey(d);
    var i :| 0 <= i < |list| && list[i] == e;
    assert (list + [d])[i] == e && (list + [d])[|list|] == d;
  }

  lemma {:induction false} FlyingAreLive(rt: Runtime)
    requires Agreement(rt)
    ensures rt.inFlight.Values <= rt.context.Keys
  {
    forall k | k in rt.inFlight.Values
      ensures k in rt.context
    {
      var s :| s in rt.inFlight && rt.inFlight[s] == k;
      var d := HeadInList(rt.record.pendingInbound, s, k);
    }
  }

  lemma AppendHeads(list: seq<Durable>, d: Durable, s: Session, k: Key)
    requires Heads(list, s, k)
    ensures Heads(list + [d], s, k)
  {
    RoutedsAppend(list, [d]);
    OfSessionAppend(Routeds(list), Routeds([d]), s);
  }

  lemma AppendDistinct(list: seq<Durable>, context: map<Key, Context>, d: Durable)
    requires DistinctKeys(list) && ContextAgrees(list, context) && DKey(d) !in context
    ensures DistinctKeys(list + [d]) && ContextAgrees(list + [d], context[DKey(d) := d.context])
  {
    assert forall i :: 0 <= i < |list| ==> DKey(list[i]) in DKeys(list);
    assert forall e :: e in list + [d] <==> e in list || e == d;
    assert d in list + [d];
    forall e | e in list
      ensures DKey(e) in DKeys(list) && e in list + [d]
    {
    }
  }

  lemma QueuedRepresents(rt: Runtime, d: Durable)
    requires Agreement(rt) && Accept(rt, d).1 == Ok(Queued) && DKey(d) !in rt.context
    ensures Represents(Accept(rt, d).0.queue, Undispatched(rt.record.pendingInbound + [d], rt.inFlight.Values))
    ensures Accept(rt, d).0.queue.limits == rt.queue.limits && Accept(rt, d).0.queue.inFlight == rt.queue.inFlight
    ensures Admissible(rt.queue.limits, d.routed.message)
  {
    var list, flying := rt.record.pendingInbound, rt.inFlight.Values;
    FlyingAreLive(rt);
    EnqueueRefines(rt.queue, Undispatched(list, flying), d.routed);
    UndispatchedAppend(list, [d], flying);
    assert Undispatched(list + [d], flying) == Undispatched(list, flying) + [d.routed];
  }

  lemma QueuedFields(rt: Runtime, d: Durable)
    requires Accept(rt, d).1 == Ok(Queued)
    ensures var after := Accept(rt, d).0;
            && after.record.pendingInbound == rt.record.pendingInbound + [d] && after.inFlight == rt.inFlight
            && after.context == rt.context[DKey(d) := d.context] && after.record.config == rt.record.config
  {
    hide Enqueue;
  }

  lemma QueuedFreshAgrees(rt: Runtime, d: Durable)
    requires Agreement(rt) && Accept(rt, d).1 == Ok(Queued) && DKey(d) !in rt.context
    ensures Agreement(Accept(rt, d).0)
  {
    hide Represents, Undispatched, Heads, Accept, Admissible;
    QueuedFields(rt, d);
    var list, after := rt.record.pendingInbound, Accept(rt, d).0;
    QueuedRepresents(rt, d);
    AppendDistinct(list, rt.context, d);
    assert AllAdmissible(list + [d], rt.queue.limits);
    AppendAllHeads(rt, d);
  }

  lemma AppendAllHeads(rt: Runtime, d: Durable)
    requires forall s :: s in rt.inFlight ==> Heads(rt.record.pendingInbound, s, rt.inFlight[s])
    ensures forall s :: s in rt.inFlight ==> Heads(rt.record.pendingInbound + [d], s, rt.inFlight[s])
  {
    forall s | s in rt.inFlight
      ensures Heads(rt.record.pendingInbound + [d], s, rt.inFlight[s])
    {
      AppendHeads(rt.record.pendingInbound, d, s, rt.inFlight[s]);
    }
  }

  /** The message is still pending, yet the dispatcher has room for it and has forgotten its key. */
  predicate Forgotten(rt: Runtime, d: Durable) {
    && DKey(d) in rt.context && DKey(d) !in rt.queue.seen
    && Admissible(rt.queue.limits, d.routed.message)
    && rt.queue.pendingCount < rt.queue.limits.pending
    && |Backlog(rt.queue, d.routed.session)| < rt.queue.limits.perSession
  }

  lemma ForgottenIsQueued(rt: Runtime, d: Durable)
    ensures Forgotten(rt, d) <==> Accept(rt, d).1 == Ok(Queued) && DKey(d) in rt.context
  {
    hide WellFormed, AttachmentsFit;
  }

  lemma UnqueuedAgrees(rt: Runtime, d: Durable)
    requires Agreement(rt) && Accept(rt, d).1 != Ok(Queued)
    ensures Agreement(Accept(rt, d).0)
  {
    hide Represents, AllAdmissible, Heads, Undispatched, DistinctKeys, ContextAgrees, WellFormed, AttachmentsFit, Append;
  }

  /** Accepting a message keeps the tables in agreement exactly when it is not a forgotten pending one. */
  lemma AcceptAgreesIff(rt: Runtime, d: Durable)
    requires Agreement(rt)
    ensures Agreement(Accept(rt, d).0) <==> !Forgotten(rt, d)
  {
    hide Forgotten, Accept, Represents, AllAdmissible, Heads, Undispatched, DistinctKeys, DKeys;
    ForgottenIsQueued(rt, d);
    if Accept(rt, d).1 != Ok(Queued) {
      UnqueuedAgrees(rt, d);
    } else {
      if DKey(d) in rt.context {
        QueuedFields(rt, d);
        LiveKeyBreaksDistinct(rt.record.pendingInbound, d);
      } else {
        QueuedFreshAgrees(rt, d);
      }
    }
  }

  /** Accepting a message leaves every pending message its own context exactly when it is not a forgotten pending one
      accepted in another. */
  lemma ContextsKeptIff(rt: Runtime, d: Durable)
    ensures (forall k :: k in rt.context ==> k in Accept(rt, d).0.context && Accept(rt, d).0.context[k] == rt.context[k]) <==>
            !(Forgotten(rt, d) && rt.context[DKey(d)] != d.context)
  {
    hide Forgotten, Enqueue;
    ForgottenIsQueued(rt, d);
    assert Accept(rt, d).1 == Ok(Queued) ==> Accept(rt, d).0.context[DKey(d)] == d.context;
  }

  lemma SessionNotFlying(rt: Runtime, s: Session)
    requires Agreement(rt) && s !in rt.inFlight
    ensures forall d :: d in rt.record.pendingInbound && d.routed.session == s ==> DKey(d) !in rt.inFlight.Values
  {
    var list := rt.record.pendingInbound;
    forall d | d in list && d.routed.session == s
      ensures DKey(d) !in rt.inFlight.Values
    {
      if DKey(d) in rt.inFlight.Values {
        var t :| t in rt.inFlight && rt.inFlight[t] == DKey(d);
        var e := HeadInList(list, t, rt.inFlight[t]);
        SameKeySame(list, d, e);
      }
    }
  }

  lemma SameKeySame(list: seq<Durable>, d: Durable, e: Durable)
    requires DistinctKeys(list) && d in list && e in list && DKey(d) == DKey(e)
    ensures d == e
  {
    var i :| 0 <= i < |list| && list[i] == d;
    var j :| 0 <= j < |list| && list[j] == e;
  }

  lemma DispatchInFlight(m: map<Session, Key>, s: Session, k: Key)
    requires s !in m
    ensures m[s := k].Values == m.Values + {k}
    ensures m[s := k].Keys == m.Keys + {s}
  {
    var n := m[s := k];
    assert n[s] == k;
    forall x | x in m.Values
      ensures x in n.Values
    {
      var t :| t in m && m[t] == x;
      assert n[t] == x;
    }
  }

  /** Under agreement a visit never loses a message: it serves exactly when the account is runnable and
      its dispatcher has one, and what it serves is the session's oldest pending message with the
      context fixed when it was accepted. */
  lemma VisitAgrees(rt: Runtime)
    requires Agreement(rt)
    ensures !Visit(rt).Lost?
    ensures Visit(rt).Served? <==> Runnable(rt.record.lifecycle) && TakeReady(rt.queue).1.Some?
    ensures Visit(rt).Served? ==>
              var after, item := Visit(rt).after, Visit(rt).item;
              && item in rt.record.pendingInbound
              && item.routed.session !in rt.inFlight
              && Heads(rt.record.pendingInbound, item.routed.session, DKey(item))
              && after.record == rt.record
              && Agreement(after)
  {
    var list, flying := rt.record.pendingInbound, rt.inFlight.Values;
    var waiting := Undispatched(list, flying);
    TakeRefines(rt.queue, waiting);
    if Runnable(rt.record.lifecycle) && TakeReady(rt.queue).1.Some? {
      var (q, got) := TakeReady(rt.queue);
      var r := got.value;
      var s, k := r.session, KeyOf(r.message);
      SessionNotFlying(rt, s);
      SessionAllWaiting(list, flying, s);
      assert Heads(list, s, k);
      var d := OldestPending(list, s, k);
      assert d.routed == r;
      DispatchDrops(list, flying, s, k);
      DispatchInFlight(rt.inFlight, s, k);
    }
  }

  lemma {:induction false} OldestPending(list: seq<Durable>, s: Session, k: Key) returns (d: Durable)
    requires Heads(list, s, k)
    ensures d in list && DKey(d) == k && d.routed == OfSession(Routeds(list), s)[0]
  {
    if list[0].routed.session == s {
      d := list[0];
    } else {
      assert OfSession(Routeds(list), s) == OfSession(Routeds(list[1..]), s);
      d := OldestPending(list[1..], s, k);
    }
  }

  lemma CompletedInFlight(rt: Runtime, s: Session)
    requires Agreement(rt) && s in rt.inFlight
    ensures (rt.inFlight - {s}).Values == rt.inFlight.Values - {rt.inFlight[s]}
    ensures forall t :: t in rt.inFlight && t != s ==> rt.inFlight[t] != rt.inFlight[s]
  {
    hide Represents, ContextAgrees, AllAdmissible, Undispatched, DistinctKeys, Heads;
    var list := rt.record.pendingInbound;
    var k := rt.inFlight[s];
    var d := HeadInList(list, s, k);
    forall t | t in rt.inFlight && t != s
      ensures rt.inFlight[t] != k
    {
      var e := HeadInList(list, t, rt.inFlight[t]);
      if rt.inFlight[t] == k {
        SameKeySame(list, d, e);
      }
    }
    var m := rt.inFlight - {s};
    forall x | x in rt.inFlight.Values - {k}
      ensures x in m.Values
    {
      var t :| t in rt.inFlight && rt.inFlight[t] == x;
      assert t in m && m[t] == x;
    }
  }

  lemma FinishOthers(rt: Runtime, s: Session)
    requires Agreement(rt) && s in rt.inFlight
    ensures forall t :: t in rt.inFlight && t != s ==>
              Heads(WithoutKey(rt.record.pendingInbound, rt.inFlight[s]), t, rt.inFlight[t])
  {
    var list, k := rt.record.pendingInbound, rt.inFlight[s];
    var d := HeadInList(list, s, k);
    forall t | t in rt.inFlight && t != s
      ensures Heads(WithoutKey(list, k), t, rt.inFlight[t])
    {
      forall e | e in list && DKey(e) == k
        ensures e.routed.session != t
      {
        SameKeySame(list, d, e);
      }
      RemovalKeepsOthers(list, k, t);
    }
  }

  lemma RemovalAgrees(list: seq<Durable>, context: map<Key, Context>, k: Key)
    requires DistinctKeys(list) && ContextAgrees(list, context)
    ensures DistinctKeys(WithoutKey(list, k)) && ContextAgrees(WithoutKey(list, k), context - {k})
  {
    hide WithoutKey, KeyOf;
    RemovalMembers(list, k);
    var rest := WithoutKey(list, k);
    forall x | x in context.Keys - {k}
      ensures x in DKeys(rest)
    {
      var d :| d in list && DKey(d) == x;
      assert d in rest;
    }
  }

  lemma FinishRepresents(rt: Runtime, s: Session)
    requires Agreement(rt) && s in rt.inFlight
    ensures var k := rt.inFlight[s];
            Represents(Complete(rt.queue, s).0,
                       Undispatched(WithoutKey(rt.record.pendingInbound, k), (rt.inFlight - {s}).Values))
  {
    var list, flying := rt.record.pendingInbound, rt.inFlight.Values;
    CompleteRefines(rt.queue, Undispatched(list, flying), s);
    RemovalKeepsWaiting(list, flying, rt.inFlight[s]);
    CompletedInFlight(rt, s);
  }

  /** Under agreement completion succeeds exactly for a session in flight and removes that session's
      message, and no other, from every table. */
  lemma FinishAgrees(rt: Runtime, s: Session)
    requires Agreement(rt)
    ensures Finish(rt, s).1.Ok? <==> s in rt.inFlight
    ensures Finish(rt, s).1.Err? ==> Finish(rt, s).0 == rt
    ensures Agreement(Finish(rt, s).0)
    ensures s in rt.inFlight ==>
              var after := Finish(rt, s).0;
              && (forall d :: d in after.record.pendingInbound <==>
                              d in rt.record.pendingInbound && DKey(d) != rt.inFlight[s])
              && after.context == rt.context - {rt.inFlight[s]}
              && after.inFlight == rt.inFlight - {s}
  {
    CompleteRefines(rt.queue, Undispatched(rt.record.pendingInbound, rt.inFlight.Values), s);
    if s in rt.inFlight {
      var k := rt.inFlight[s];
      RemovalMembers(rt.record.pendingInbound, k);
      RemovalAgrees(rt.record.pendingInbound, rt.context, k);
      FinishRepresents(rt, s);
      FinishOthers(rt, s);
    }
  }
}
