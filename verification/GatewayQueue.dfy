/** The per-account dispatcher of the channel gateway: bounded, deduplicating, one message in
    flight per session.  `QueueState` is the indexed form the program keeps; `Represents` ties it
    to the plain list of waiting messages in arrival order. */
module GatewayQueues {
  import opened Seqs
  import Text

  type Session = string
  type Key = string

  datatype Intent = Prompt | Steer | Cancel

  datatype Inbound = Inbound(
    channel: string, account: string, conversation: string, thread: Option<string>,
    sender: string, messageId: string, replyTarget: Option<string>, text: string,
    attachments: seq<nat>, occurredAt: int, intent: Intent)

  datatype Routed = Routed(profile: string, session: Session, message: Inbound)

  const NUL: string := "\0"

  /** The deduplication key; the supervisor's `inbound_key` joins the same five parts. */
  function KeyOf(m: Inbound): Key {
    m.channel + (NUL + (m.account + (NUL + (m.conversation + (NUL + (ThreadPart(m) + (NUL + m.messageId)))))))
  }

  function ThreadPart(m: Inbound): string {
    if m.thread.Some? then m.thread.value else ""
  }

  ghost predicate NulFree(m: Inbound) {
    '\0' !in m.channel && '\0' !in m.account && '\0' !in m.conversation && '\0' !in ThreadPart(m)
  }

  lemma FirstPart(a: string, x: string, b: string, y: string)
    requires '\0' !in a && '\0' !in b
    requires a + (NUL + x) == b + (NUL + y)
    ensures a == b && x == y
  {
    var s := a + (NUL + x);
    assert s[|a|] == '\0' && s[|b|] == '\0';
    assert |a| == |b|;
    assert a == s[..|a|] && b == s[..|b|];
    assert x == s[|a| + 1..] && y == s[|b| + 1..];
  }

  /** Without embedded NULs the key tells messages apart by exactly the five joined parts. */
  lemma KeyDistinguishes(m: Inbound, n: Inbound)
    requires NulFree(m) && NulFree(n)
    ensures KeyOf(m) == KeyOf(n) <==>
            m.channel == n.channel && m.account == n.account && m.conversation == n.conversation
            && ThreadPart(m) == ThreadPart(n) && m.messageId == n.messageId
  {
    if KeyOf(m) == KeyOf(n) {
      FirstPart(m.channel, m.account + (NUL + (m.conversation + (NUL + (ThreadPart(m) + (NUL + m.messageId))))),
                n.channel, n.account + (NUL + (n.conversation + (NUL + (ThreadPart(n) + (NUL + n.messageId))))));
      FirstPart(m.account, m.conversation + (NUL + (ThreadPart(m) + (NUL + m.messageId))),
                n.account, n.conversation + (NUL + (ThreadPart(n) + (NUL + n.messageId))));
      FirstPart(m.conversation, ThreadPart(m) + (NUL + m.messageId),
                n.conversation, ThreadPart(n) + (NUL + n.messageId));
      FirstPart(ThreadPart(m), m.messageId, ThreadPart(n), n.messageId);
    }
  }

  datatype Limits = Limits(
    concurrency: nat, pending: nat, perSession: nat, seen: nat,
    attachments: nat, attachmentBytes: nat, totalAttachmentBytes: nat)
  {
    predicate Positive() {
      concurrency > 0 && pending > 0 && perSession > 0 && seen > 0
      && attachments > 0 && attachmentBytes > 0 && totalAttachmentBytes > 0
    }
  }

  function Sum(sizes: seq<nat>): nat {
    if sizes == [] then 0 else sizes[0] + Sum(sizes[1..])
  }

  predicate WellFormed(m: Inbound) {
    && !Text.Blank(m.channel) && !Text.Blank(m.account) && !Text.Blank(m.conversation)
    && !Text.Blank(m.sender) && !Text.Blank(m.messageId)
    && (m.intent == Cancel || !Text.Blank(m.text) || m.attachments != [])
  }

  predicate AttachmentsFit(limits: Limits, sizes: seq<nat>) {
    && |sizes| <= limits.attachments
    && (forall i :: 0 <= i < |sizes| ==> sizes[i] <= limits.attachmentBytes)
    && Sum(sizes) <= limits.totalAttachmentBytes
  }

  predicate Admissible(limits: Limits, m: Inbound) {
    WellFormed(m) && AttachmentsFit(limits, m.attachments)
  }

  datatype QueueError = Malformed | Backpressure | AttachmentLimit | InvalidLimits | NotInFlight

  datatype Outcome = Queued | Duplicate

  datatype QueueState = QueueState(
    limits: Limits,
    pending: map<Session, seq<Routed>>,
    ready: seq<Session>,
    inFlight: set<Session>,
    seen: set<Key>,
    seenOrder: seq<Key>,
    pendingCount: nat)

  function Empty(limits: Limits): QueueState {
    QueueState(limits, map[], [], {}, {}, [], 0)
  }

  function Backlog(q: QueueState, s: Session): seq<Routed> {
    if s in q.pending then q.pending[s] else []
  }

  // ---------------------------------------------------------------- the simple form

  /** The messages of one session, in order. */
  function OfSession(list: seq<Routed>, s: Session): seq<Routed> {
    if list == [] then []
    else (if list[0].session == s then [list[0]] else []) + OfSession(list[1..], s)
  }

  /** The list without the first message of session `s`. */
  function DropFirst(list: seq<Routed>, s: Session): seq<Routed> {
    if list == [] then []
    else if list[0].session == s then list[1..]
    else [list[0]] + DropFirst(list[1..], s)
  }

  lemma {:induction false} OfSessionAppend(a: seq<Routed>, b: seq<Routed>, s: Session)
    ensures OfSession(a + b, s) == OfSession(a, s) + OfSession(b, s)
  {
    if a == [] {
      assert a + b == b;
    } else {
      var head := if a[0].session == s then [a[0]] else [];
      assert (a + b)[0] == a[0] && (a + b)[1..] == a[1..] + b;
      OfSessionAppend(a[1..], b, s);
      assert head + (OfSession(a[1..], s) + OfSession(b, s)) == (head + OfSession(a[1..], s)) + OfSession(b, s);
    }
  }

  lemma {:induction false} OfSessionMembers(list: seq<Routed>, s: Session)
    ensures forall r :: r in OfSession(list, s) <==> r in list && r.session == s
    ensures |OfSession(list, s)| <= |list|
  {
    if list != [] {
      OfSessionMembers(list[1..], s);
      assert list == [list[0]] + list[1..];
    }
  }

  lemma {:induction false} DropFirstOfSession(list: seq<Routed>, s: Session, t: Session)
    requires OfSession(list, s) != []
    ensures |DropFirst(list, s)| == |list| - 1
    ensures OfSession(DropFirst(list, s), t) == if t == s then OfSession(list, s)[1..] else OfSession(list, t)
  {
    if list[0].session != s {
      DropFirstOfSession(list[1..], s, t);
      assert DropFirst(list, s)[1..] == DropFirst(list[1..], s);
    }
  }

  // ---------------------------------------------------------------- the refinement relation

  ghost predicate WindowValid(q: QueueState) {
    && q.seen == ToSet(q.seenOrder)
    && Distinct(q.seenOrder)
    && |q.seenOrder| <= q.limits.seen
  }

  ghost predicate ReadyValid(q: QueueState) {
    && Distinct(q.ready)
    && (forall s :: s in q.ready <==> Backlog(q, s) != [] && s !in q.inFlight)
    && (forall s :: s in q.pending && q.pending[s] == [] ==> s in q.inFlight)
    && |q.inFlight| <= q.limits.concurrency
  }

  ghost predicate IndexValid(q: QueueState, waiting: seq<Routed>) {
    && q.pendingCount == |waiting| <= q.limits.pending
    && (forall s :: Backlog(q, s) == OfSession(waiting, s))
    && (forall s :: |Backlog(q, s)| <= q.limits.perSession)
  }

  /** `q` is an index over the waiting messages `waiting`, listed in arrival order. */
  ghost predicate Represents(q: QueueState, waiting: seq<Routed>) {
    q.limits.Positive() && WindowValid(q) && ReadyValid(q) && IndexValid(q, waiting)
  }

  // ---------------------------------------------------------------- the operations

  function Remember(q: QueueState, k: Key): QueueState {
    var order := Newest(q.seenOrder + [k], q.limits.seen);
    q.(seen := ToSet(order), seenOrder := order)
  }

  function Full(q: QueueState, s: Session): bool {
    q.pendingCount >= q.limits.pending || |Backlog(q, s)| >= q.limits.perSession
  }

  function Append(q: QueueState, r: Routed): QueueState {
    var backlog := Backlog(q, r.session);
    Remember(q.(pending := q.pending[r.session := backlog + [r]],
                pendingCount := q.pendingCount + 1,
                ready := if backlog == [] && r.session !in q.inFlight then q.ready + [r.session] else q.ready),
             KeyOf(r.message))
  }

  function Enqueue(q: QueueState, r: Routed): (QueueState, Result<Outcome, QueueError>) {
    if !WellFormed(r.message) then (q, Err(Malformed))
    else if !AttachmentsFit(q.limits, r.message.attachments) then (q, Err(AttachmentLimit))
    else if KeyOf(r.message) in q.seen then (q, Ok(Duplicate))
    else if Full(q, r.session) then (q, Err(Backpressure))
    else (Append(q, r), Ok(Queued))
  }

  function TakeReady(q: QueueState): (QueueState, Option<Routed>) {
    if |q.inFlight| >= q.limits.concurrency then (q, None) else TakeFrom(q)
  }

  function TakeFrom(q: QueueState): (QueueState, Option<Routed>)
    decreases |q.ready|
  {
    if q.ready == [] then (q, None)
    else
      var s, rest := q.ready[0], q.(ready := q.ready[1..]);
      if s in q.inFlight then TakeFrom(rest)
      else if Backlog(q, s) == [] then (rest, None)
      else (rest.(pending := q.pending[s := q.pending[s][1..]],
                  pendingCount := if q.pendingCount > 0 then q.pendingCount - 1 else 0,
                  inFlight := q.inFlight + {s}),
            Some(q.pending[s][0]))
  }

  function Complete(q: QueueState, s: Session): (QueueState, Result<(), QueueError>) {
    if s !in q.inFlight then (q, Err(NotInFlight))
    else if Backlog(q, s) != [] then (q.(inFlight := q.inFlight - {s}, ready := q.ready + [s]), Ok(()))
    else (q.(inFlight := q.inFlight - {s}, pending := q.pending - {s}), Ok(()))
  }

  // ---------------------------------------------------------------- refinement theorems

  lemma AppendIndex(q: QueueState, waiting: seq<Routed>, r: Routed)
    requires IndexValid(q, waiting) && !Full(q, r.session)
    ensures IndexValid(Append(q, r), waiting + [r])
  {
    var next := Append(q, r);
    forall s
      ensures Backlog(next, s) == OfSession(waiting + [r], s) && |Backlog(next, s)| <= q.limits.perSession
    {
      OfSessionAppend(waiting, [r], s);
      assert |Backlog(q, s)| <= q.limits.perSession;
    }
  }

  lemma AppendReady(q: QueueState, r: Routed)
    requires ReadyValid(q)
    ensures ReadyValid(Append(q, r))
  {
    var next := Append(q, r);
    assert next.inFlight == q.inFlight && next.limits == q.limits;
    assert forall s :: Backlog(next, s) == if s == r.session then Backlog(q, s) + [r] else Backlog(q, s);
  }

  lemma AppendWindow(q: QueueState, r: Routed)
    requires WindowValid(q) && KeyOf(r.message) !in q.seen && q.limits.seen > 0
    ensures WindowValid(Append(q, r)) && Append(q, r).limits == q.limits
  {
    hide KeyOf;
    assert Distinct(q.seenOrder + [KeyOf(r.message)]);
  }

  /** A message is queued exactly when it is well formed, not remembered and within both bounds,
      and then joins the end of the waiting list; every other answer changes nothing. */
  lemma EnqueueRefines(q: QueueState, waiting: seq<Routed>, r: Routed)
    requires Represents(q, waiting)
    ensures Enqueue(q, r).1 == Ok(Queued) <==>
            && Admissible(q.limits, r.message)
            && KeyOf(r.message) !in q.seen
            && |waiting| < q.limits.pending
            && |OfSession(waiting, r.session)| < q.limits.perSession
    ensures Enqueue(q, r).1 == Ok(Queued) ==> Represents(Enqueue(q, r).0, waiting + [r])
    ensures Enqueue(q, r).1 != Ok(Queued) ==> Enqueue(q, r).0 == q
  {
    hide WellFormed, AttachmentsFit, Append, KeyOf, ReadyValid, WindowValid;
    assert Backlog(q, r.session) == OfSession(waiting, r.session);
    if Enqueue(q, r).1 == Ok(Queued) {
      AppendWindow(q, r);
      AppendIndex(q, waiting, r);
      AppendReady(q, r);
    }
  }

  ghost predicate HasInk(s: string) {
    exists i :: 0 <= i < |s| && !Text.Whitespace(s[i])
  }

  /** Where it comes from and its identity are given, and it says something, unless it cancels. */
  ghost predicate Addressed(m: Inbound) {
    && HasInk(m.channel) && HasInk(m.account) && HasInk(m.conversation) && HasInk(m.sender) && HasInk(m.messageId)
    && (HasInk(m.text) || |m.attachments| > 0 || m.intent == Cancel)
  }

  /** The attachments are few enough, each small enough, and so are all of them together. */
  ghost predicate Carried(limits: Limits, sizes: seq<nat>) {
    && |sizes| <= limits.attachments && (forall size :: size in sizes ==> size <= limits.attachmentBytes)
    && Total(sizes) <= limits.totalAttachmentBytes
  }

  function Total(sizes: seq<nat>): nat {
    if sizes == [] then 0 else Total(sizes[..|sizes| - 1]) + sizes[|sizes| - 1]
  }

  lemma {:induction false} SumIsTotal(sizes: seq<nat>)
    ensures Sum(sizes) == Total(sizes)
  {
    if |sizes| > 1 {
      var n := |sizes| - 1;
      SumIsTotal(sizes[1..]);
      SumIsTotal(sizes[1..n]);
      SumIsTotal(sizes[..n]);
      assert sizes[1..][..n - 1] == sizes[1..n] == sizes[..n][1..];
    }
  }

  lemma AdmissibleIs(limits: Limits, m: Inbound)
    ensures WellFormed(m) <==> Addressed(m)
    ensures AttachmentsFit(limits, m.attachments) <==> Carried(limits, m.attachments)
  {
    SumIsTotal(m.attachments);
    hide Text.Whitespace, Sum, Total;
    assert forall i :: 0 <= i < |m.attachments| ==> m.attachments[i] in m.attachments;
  }

  /** Why a message is not queued. */
  lemma EnqueueAnswers(q: QueueState, waiting: seq<Routed>, r: Routed)
    requires Represents(q, waiting)
    ensures var m, answer := r.message, Enqueue(q, r).1;
            var full := |waiting| >= q.limits.pending || |OfSession(waiting, r.session)| >= q.limits.perSession;
            && (answer == Err(Malformed) <==> !Addressed(m))
            && (answer == Err(AttachmentLimit) <==> Addressed(m) && !Carried(q.limits, m.attachments))
            && (answer == Ok(Duplicate) <==> Addressed(m) && Carried(q.limits, m.attachments) && KeyOf(m) in q.seenOrder)
            && (answer == Err(Backpressure) <==> Addressed(m) && Carried(q.limits, m.attachments) && KeyOf(m) !in q.seenOrder && full)
            && (answer == Ok(Queued) <==> Addressed(m) && Carried(q.limits, m.attachments) && KeyOf(m) !in q.seenOrder && !full)
  {
    AdmissibleIs(q.limits, r.message);
    hide WellFormed, AttachmentsFit, Addressed, Carried, Append, KeyOf, ReadyValid;
    assert Backlog(q, r.session) == OfSession(waiting, r.session);
  }

  /** A message is handed out exactly when some session outside the in-flight set is waiting and the
      concurrency bound is not reached; it is that session's oldest waiting message. */
  lemma TakeRefines(q: QueueState, waiting: seq<Routed>)
    requires Represents(q, waiting)
    ensures TakeReady(q).1.Some? <==>
            |q.inFlight| < q.limits.concurrency
            && exists s :: s !in q.inFlight && OfSession(waiting, s) != []
    ensures TakeReady(q).1.None? ==> TakeReady(q).0 == q
    ensures TakeReady(q).1.Some? ==>
              var r, next := TakeReady(q).1.value, TakeReady(q).0;
              && r.session !in q.inFlight
              && OfSession(waiting, r.session) != []
              && r == OfSession(waiting, r.session)[0]
              && next.inFlight == q.inFlight + {r.session}
              && next.limits == q.limits && next.seen == q.seen && next.seenOrder == q.seenOrder
              && Represents(next, DropFirst(waiting, r.session))
  {
    if |q.inFlight| < q.limits.concurrency {
      if q.ready == [] {
        forall s | s !in q.inFlight
          ensures OfSession(waiting, s) == []
        {
          assert s !in q.ready;
        }
      } else {
        TakeHead(q, waiting);
      }
    }
  }

  lemma TakeHead(q: QueueState, waiting: seq<Routed>)
    requires Represents(q, waiting)
    requires |q.inFlight| < q.limits.concurrency && q.ready != []
    ensures TakeReady(q).1.Some?
    ensures var r, next := TakeReady(q).1.value, TakeReady(q).0;
            && r.session == q.ready[0] && r.session !in q.inFlight
            && OfSession(waiting, r.session) != []
            && r == OfSession(waiting, r.session)[0]
            && next.inFlight == q.inFlight + {r.session}
            && next.limits == q.limits && next.seen == q.seen && next.seenOrder == q.seenOrder
            && Represents(next, DropFirst(waiting, r.session))
  {
    var s := q.ready[0];
    assert s in q.ready;
    assert Backlog(q, s) == OfSession(waiting, s) != [];
    OfSessionMembers(waiting, s);
    assert OfSession(waiting, s)[0] in OfSession(waiting, s);
    TakeIndex(q, waiting, s);
    TakeReadyList(q, s);
  }

  function Taken(q: QueueState, s: Session): QueueState
    requires s in q.pending && q.pending[s] != [] && q.ready != []
  {
    q.(ready := q.ready[1..], pending := q.pending[s := q.pending[s][1..]],
       pendingCount := if q.pendingCount > 0 then q.pendingCount - 1 else 0, inFlight := q.inFlight + {s})
  }

  lemma TakeIndex(q: QueueState, waiting: seq<Routed>, s: Session)
    requires IndexValid(q, waiting) && s in q.pending && q.pending[s] != [] && q.ready != []
    ensures IndexValid(Taken(q, s), DropFirst(waiting, s))
  {
    assert Backlog(q, s) == OfSession(waiting, s);
    forall t
      ensures Backlog(Taken(q, s), t) == OfSession(DropFirst(waiting, s), t)
      ensures |Backlog(Taken(q, s), t)| <= q.limits.perSession
    {
      DropFirstOfSession(waiting, s, t);
      assert Backlog(q, t) == OfSession(waiting, t) && |Backlog(q, t)| <= q.limits.perSession;
    }
    DropFirstOfSession(waiting, s, s);
  }

  lemma TakeReadyList(q: QueueState, s: Session)
    requires ReadyValid(q) && q.ready != [] && q.ready[0] == s && s in q.pending && q.pending[s] != []
    requires |q.inFlight| < q.limits.concurrency
    ensures ReadyValid(Taken(q, s))
  {
    var next := Taken(q, s);
    assert q.ready == [s] + next.ready;
    assert forall t :: t != s ==> Backlog(next, t) == Backlog(q, t);
  }

  /** Completion succeeds exactly for a session in flight and releases only that session. */
  lemma CompleteRefines(q: QueueState, waiting: seq<Routed>, s: Session)
    requires Represents(q, waiting)
    ensures Complete(q, s).1.Ok? <==> s in q.inFlight
    ensures Complete(q, s).0.inFlight == q.inFlight - {s}
    ensures Complete(q, s).0.limits == q.limits && Complete(q, s).0.seen == q.seen
    ensures Represents(Complete(q, s).0, waiting)
  {
    var next := Complete(q, s).0;
    if s in q.inFlight {
      assert forall t :: Backlog(next, t) == Backlog(q, t);
      assert s !in q.ready;
    }
  }

  // ---------------------------------------------------------------- whole runs

  datatype QueueOp = Offer(r: Routed) | Dispatch | Settle(s: Session)

  function StepQueue(q: QueueState, op: QueueOp): QueueState {
    match op
    case Offer(r) => Enqueue(q, r).0
    case Dispatch => TakeReady(q).0
    case Settle(s) => Complete(q, s).0
  }

  function RunQueue(q: QueueState, ops: seq<QueueOp>): QueueState
    decreases |ops|
  {
    if ops == [] then q else RunQueue(StepQueue(q, ops[0]), ops[1..])
  }

  /** What one step accepts, what it hands out, and what then waits. */
  function AcceptedBy(q: QueueState, op: QueueOp): seq<Routed> {
    if op.Offer? && Enqueue(q, op.r).1 == Ok(Queued) then [op.r] else []
  }

  function HandedOutBy(q: QueueState, op: QueueOp): seq<Routed> {
    if op.Dispatch? && TakeReady(q).1.Some? then [TakeReady(q).1.value] else []
  }

  function StepWaiting(q: QueueState, waiting: seq<Routed>, op: QueueOp): seq<Routed> {
    if op.Dispatch? && TakeReady(q).1.Some? then DropFirst(waiting, TakeReady(q).1.value.session)
    else waiting + AcceptedBy(q, op)
  }

  function Accepted(q: QueueState, ops: seq<QueueOp>): seq<Routed>
    decreases |ops|
  {
    if ops == [] then [] else AcceptedBy(q, ops[0]) + Accepted(StepQueue(q, ops[0]), ops[1..])
  }

  function HandedOut(q: QueueState, ops: seq<QueueOp>): seq<Routed>
    decreases |ops|
  {
    if ops == [] then [] else HandedOutBy(q, ops[0]) + HandedOut(StepQueue(q, ops[0]), ops[1..])
  }

  function RunWaiting(q: QueueState, waiting: seq<Routed>, ops: seq<QueueOp>): seq<Routed>
    decreases |ops|
  {
    if ops == [] then waiting
    else RunWaiting(StepQueue(q, ops[0]), StepWaiting(q, waiting, ops[0]), ops[1..])
  }

  function Keys(list: seq<Routed>): seq<Key> {
    seq(|list|, i requires 0 <= i < |list| => KeyOf(list[i].message))
  }

  lemma StepRepresents(q: QueueState, waiting: seq<Routed>, op: QueueOp)
    requires Represents(q, waiting)
    ensures Represents(StepQueue(q, op), StepWaiting(q, waiting, op))
    ensures StepQueue(q, op).limits == q.limits
    ensures StepQueue(q, op).seenOrder == Newest(q.seenOrder + Keys(AcceptedBy(q, op)), q.limits.seen)
  {
    assert waiting + [] == waiting && q.seenOrder + Keys([]) == q.seenOrder;
    match op
    case Offer(r) =>
      EnqueueRefines(q, waiting, r);
      assert Keys([r]) == [KeyOf(r.message)];
    case Dispatch => TakeRefines(q, waiting);
    case Settle(s) => CompleteRefines(q, waiting, s);
  }

  lemma OfSessionNone(s: Session)
    ensures OfSession([], s) == []
  {
  }

  lemma OfSessionSingle(r: Routed, s: Session)
    ensures OfSession([r], s) == if r.session == s then [r] else []
  {
  }

  lemma StepConserves(q: QueueState, waiting: seq<Routed>, op: QueueOp, s: Session)
    requires Represents(q, waiting)
    ensures OfSession(waiting, s) + OfSession(AcceptedBy(q, op), s)
         == OfSession(HandedOutBy(q, op), s) + OfSession(StepWaiting(q, waiting, op), s)
  {
    hide Represents, Enqueue, TakeReady, OfSession, DropFirst;
    OfSessionNone(s);
    var mine := OfSession(waiting, s);
    assert mine + [] == mine && [] + mine == mine;
    if op.Dispatch? && TakeReady(q).1.Some? {
      TakeRefines(q, waiting);
      var r := TakeReady(q).1.value;
      OfSessionSingle(r, s);
      DropFirstOfSession(waiting, r.session, s);
      if r.session == s {
        assert mine == [r] + mine[1..];
      }
    } else {
      OfSessionAppend(waiting, AcceptedBy(q, op), s);
      var all := OfSession(waiting + AcceptedBy(q, op), s);
      assert [] + all == all;
    }
  }

  lemma NewestAgain<T>(x: seq<T>, c: seq<T>, n: nat)
    ensures Newest(Newest(x, n) + c, n) == Newest(x + c, n)
  {
    if |x| > n {
      var y, all := x[|x| - n..], x + c;
      var l, r := Newest(y + c, n), all[|all| - n..];
      assert |l| == n == |r|;
      forall i | 0 <= i < n
        ensures l[i] == r[i]
      {
      }
    }
  }

  /** Every run keeps the index sound. */
  lemma {:induction false} RunRepresents(q: QueueState, waiting: seq<Routed>, ops: seq<QueueOp>)
    requires Represents(q, waiting)
    ensures Represents(RunQueue(q, ops), RunWaiting(q, waiting, ops))
    decreases |ops|
  {
    if ops != [] {
      StepRepresents(q, waiting, ops[0]);
      RunRepresents(StepQueue(q, ops[0]), StepWaiting(q, waiting, ops[0]), ops[1..]);
    }
  }

  /** The window of remembered keys is the newest `limits.seen` acceptances. */
  lemma {:induction false} RunWindow(q: QueueState, waiting: seq<Routed>, ops: seq<QueueOp>)
    requires Represents(q, waiting)
    ensures RunQueue(q, ops).seenOrder == Newest(q.seenOrder + Keys(Accepted(q, ops)), q.limits.seen)
    decreases |ops|
  {
    if ops == [] {
      assert q.seenOrder + Keys([]) == q.seenOrder;
    } else {
      var next := StepQueue(q, ops[0]);
      StepRepresents(q, waiting, ops[0]);
      RunWindow(next, StepWaiting(q, waiting, ops[0]), ops[1..]);
      JoinWindow(q.seenOrder, AcceptedBy(q, ops[0]), Accepted(next, ops[1..]), q.limits.seen);
    }
  }

  lemma JoinWindow(order: seq<Key>, a: seq<Routed>, more: seq<Routed>, n: nat)
    ensures Newest(Newest(order + Keys(a), n) + Keys(more), n) == Newest(order + Keys(a + more), n)
  {
    NewestAgain(order + Keys(a), Keys(more), n);
    assert Keys(a + more) == Keys(a) + Keys(more);
    assert (order + Keys(a)) + Keys(more) == order + Keys(a + more);
  }

  lemma Regroup<T>(w: seq<T>, a: seq<T>, moreA: seq<T>, h: seq<T>, moreH: seq<T>, m: seq<T>, f: seq<T>)
    requires w + a == h + m && m + moreA == moreH + f
    ensures w + (a + moreA) == (h + moreH) + f
  {
    assert w + (a + moreA) == (w + a) + moreA;
    assert (h + m) + moreA == h + (m + moreA);
    assert (h + moreH) + f == h + (moreH + f);
  }

  /** Over every run, session by session: what was waiting plus what was accepted is, in the same
      order, what was handed out plus what still waits. */
  lemma {:induction false} RunConserves(q: QueueState, waiting: seq<Routed>, ops: seq<QueueOp>, s: Session)
    requires Represents(q, waiting)
    ensures OfSession(waiting, s) + OfSession(Accepted(q, ops), s)
         == OfSession(HandedOut(q, ops), s) + OfSession(RunWaiting(q, waiting, ops), s)
    decreases |ops|
  {
    if ops != [] {
      var next, middle := StepQueue(q, ops[0]), StepWaiting(q, waiting, ops[0]);
      var a, h := AcceptedBy(q, ops[0]), HandedOutBy(q, ops[0]);
      var moreA, moreH := Accepted(next, ops[1..]), HandedOut(next, ops[1..]);
      StepRepresents(q, waiting, ops[0]);
      StepConserves(q, waiting, ops[0], s);
      RunConserves(next, middle, ops[1..], s);
      OfSessionAppend(a, moreA, s);
      OfSessionAppend(h, moreH, s);
      Regroup(OfSession(waiting, s), OfSession(a, s), OfSession(moreA, s), OfSession(h, s), OfSession(moreH, s),
              OfSession(middle, s), OfSession(RunWaiting(q, waiting, ops), s));
    }
  }

  /** From an empty dispatcher every session receives its accepted messages first in, first out, and
      a key is forgotten exactly when at least `limits.seen` acceptances followed its last one. */
  lemma FirstInFirstOut(limits: Limits, ops: seq<QueueOp>, s: Session)
    requires limits.Positive()
    ensures OfSession(HandedOut(Empty(limits), ops), s) <= OfSession(Accepted(Empty(limits), ops), s)
    ensures forall k :: k in RunQueue(Empty(limits), ops).seen <==>
                        k in Newest(Keys(Accepted(Empty(limits), ops)), limits.seen)
  {
    RunRepresents(Empty(limits), [], ops);
    RunWindow(Empty(limits), [], ops);
    RunConserves(Empty(limits), [], ops, s);
    var accepted := Accepted(Empty(limits), ops);
    assert OfSession([], s) + OfSession(accepted, s) == OfSession(accepted, s);
    assert [] + Keys(accepted) == Keys(accepted);
  }

  // ---------------------------------------------------------------- sessions take turns

  /** The session has messages waiting and none in flight. */
  predicate Due(q: QueueState, waiting: seq<Routed>, s: Session) {
    s !in q.inFlight && OfSession(waiting, s) != []
  }

  /** The session that a step makes due, if it does: that of an accepted message, or one whose message is completed. */
  function MadeDueBy(q: QueueState, waiting: seq<Routed>, op: QueueOp): seq<Session> {
    match op
    case Dispatch => []
    case Offer(r) => BecomesDue(q, waiting, op, r.session)
    case Settle(s) => BecomesDue(q, waiting, op, s)
  }

  function BecomesDue(q: QueueState, waiting: seq<Routed>, op: QueueOp, s: Session): seq<Session> {
    if !Due(q, waiting, s) && Due(StepQueue(q, op), StepWaiting(q, waiting, op), s) then [s] else []
  }

  function MadeDue(q: QueueState, waiting: seq<Routed>, ops: seq<QueueOp>): seq<Session>
    decreases |ops|
  {
    if ops == [] then []
    else MadeDueBy(q, waiting, ops[0]) + MadeDue(StepQueue(q, ops[0]), StepWaiting(q, waiting, ops[0]), ops[1..])
  }

  function SessionsOf(list: seq<Routed>): seq<Session> {
    seq(|list|, i requires 0 <= i < |list| => list[i].session)
  }

  lemma OfferTurns(q: QueueState, waiting: seq<Routed>, r: Routed)
    requires Represents(q, waiting)
    ensures q.ready + MadeDueBy(q, waiting, Offer(r)) == StepQueue(q, Offer(r)).ready
  {
    hide WellFormed, AttachmentsFit, KeyOf, WindowValid, OfSession;
    assert Backlog(q, r.session) == OfSession(waiting, r.session);
    assert waiting + [] == waiting && q.ready + [] == q.ready;
    if Enqueue(q, r).1 == Ok(Queued) {
      OfSessionAppend(waiting, [r], r.session);
      OfSessionSingle(r, r.session);
    }
  }

  lemma SettleTurns(q: QueueState, waiting: seq<Routed>, s: Session)
    requires Represents(q, waiting)
    ensures q.ready + MadeDueBy(q, waiting, Settle(s)) == StepQueue(q, Settle(s)).ready
  {
    hide WindowValid, OfSession;
    assert Backlog(q, s) == OfSession(waiting, s);
    assert waiting + [] == waiting && q.ready + [] == q.ready;
  }

  lemma DispatchTurns(q: QueueState, waiting: seq<Routed>)
    requires Represents(q, waiting)
    ensures q.ready == SessionsOf(HandedOutBy(q, Dispatch)) + StepQueue(q, Dispatch).ready
  {
    hide WindowValid, OfSession, Represents;
    if |q.inFlight| < q.limits.concurrency && q.ready != [] {
      TakeHead(q, waiting);
      TakeReadyRest(q, waiting);
    } else {
      assert SessionsOf([]) + q.ready == q.ready;
    }
  }

  lemma TakeReadyRest(q: QueueState, waiting: seq<Routed>)
    requires Represents(q, waiting) && |q.inFlight| < q.limits.concurrency && q.ready != []
    ensures TakeReady(q).0.ready == q.ready[1..]
  {
    assert q.ready[0] in q.ready;
  }

  lemma StepTurns(q: QueueState, waiting: seq<Routed>, op: QueueOp)
    requires Represents(q, waiting)
    ensures q.ready + MadeDueBy(q, waiting, op) == SessionsOf(HandedOutBy(q, op)) + StepQueue(q, op).ready
  {
    hide Represents, StepQueue, MadeDueBy, TakeReady;
    match op
    case Offer(r) => OfferTurns(q, waiting, r);
    case Settle(s) => SettleTurns(q, waiting, s);
    case Dispatch =>
      DispatchTurns(q, waiting);
      NoneDueBy(q, waiting);
  }

  lemma NoneDueBy(q: QueueState, waiting: seq<Routed>)
    ensures q.ready + MadeDueBy(q, waiting, Dispatch) == q.ready
  {
  }

  /** Over every run sessions are handed a message in the order in which they became due: those due before, then those
      that became due in the run, are those handed one, then those still due. */
  lemma {:induction false} RunTurns(q: QueueState, waiting: seq<Routed>, ops: seq<QueueOp>)
    requires Represents(q, waiting)
    ensures q.ready + MadeDue(q, waiting, ops) == SessionsOf(HandedOut(q, ops)) + RunQueue(q, ops).ready
    decreases |ops|
  {
    hide Represents, StepQueue, StepWaiting, MadeDueBy, HandedOutBy;
    if ops == [] {
      assert q.ready + [] == q.ready && [] + q.ready == q.ready;
    } else {
      var next, middle := StepQueue(q, ops[0]), StepWaiting(q, waiting, ops[0]);
      var h, moreH := HandedOutBy(q, ops[0]), HandedOut(next, ops[1..]);
      StepTurns(q, waiting, ops[0]);
      StepRepresents(q, waiting, ops[0]);
      RunTurns(next, middle, ops[1..]);
      assert SessionsOf(h + moreH) == SessionsOf(h) + SessionsOf(moreH);
      Regroup(q.ready, MadeDueBy(q, waiting, ops[0]), MadeDue(next, middle, ops[1..]), SessionsOf(h), SessionsOf(moreH),
              next.ready, RunQueue(q, ops).ready);
    }
  }

  /** A session that `i` others are due before is handed the next message but `i`, whatever is offered and settled. */
  lemma ServedInTurn(q: QueueState, waiting: seq<Routed>, ops: seq<QueueOp>, i: nat)
    requires Represents(q, waiting) && i < |q.ready|
    ensures i < |HandedOut(q, ops)| ==> HandedOut(q, ops)[i].session == q.ready[i]
    ensures i >= |HandedOut(q, ops)| ==> q.ready[i] in RunQueue(q, ops).ready
  {
    hide Represents, HandedOut, RunQueue, MadeDue;
    RunTurns(q, waiting, ops);
    var all := q.ready + MadeDue(q, waiting, ops);
    var served, left := SessionsOf(HandedOut(q, ops)), RunQueue(q, ops).ready;
    assert all[i] == q.ready[i] == (served + left)[i];
  }

  // ---------------------------------------------------------------- the dispatcher itself

  lemma TakeStaysRepresented(q: QueueState, waiting: seq<Routed>)
    requires Represents(q, waiting)
    ensures exists after :: Represents(TakeReady(q).0, after)
    ensures forall s :: s in q.pending && q.pending[s] != [] ==> q.pendingCount > 0
  {
    TakeRefines(q, waiting);
    forall s | s in q.pending && q.pending[s] != []
      ensures q.pendingCount > 0
    {
      OfSessionMembers(waiting, s);
      assert Backlog(q, s) == OfSession(waiting, s);
    }
  }

  lemma EnqueueStaysRepresented(q: QueueState, waiting: seq<Routed>, r: Routed)
    requires Represents(q, waiting)
    ensures exists after :: Represents(Enqueue(q, r).0, after)
    ensures WindowValid(q) && q.limits.seen > 0
  {
    EnqueueRefines(q, waiting, r);
  }

  class GatewayQueue {
    var limits: Limits
    var pending: map<Session, seq<Routed>>
    var ready: seq<Session>
    var inFlight: set<Session>
    var seen: set<Key>
    var seenOrder: seq<Key>
    var pendingCount: nat

    ghost function View(): QueueState
      reads this
    {
      QueueState(limits, pending, ready, inFlight, seen, seenOrder, pendingCount)
    }

    constructor (limits: Limits)
      requires limits.Positive()
      ensures View() == Empty(limits) && Represents(View(), [])
    {
      this.limits := limits;
      pending, ready, inFlight := map[], [], {};
      seen, seenOrder, pendingCount := {}, [], 0;
      new;
    }

    method RememberKey(k: Key)
      requires WindowValid(View()) && limits.seen > 0 && k !in seen
      modifies this`seen, this`seenOrder
      ensures View() == Remember(old(View()), k)
    {
      ghost var all := seenOrder + [k];
      seen := seen + {k};
      seenOrder := seenOrder + [k];
      while |seenOrder| > limits.seen
        invariant seenOrder == all || seenOrder == Newest(all, limits.seen)
        invariant |all| <= limits.seen + 1 && Distinct(all) && seen == ToSet(seenOrder)
      {
        OldestExpires(seenOrder);
        var expired := seenOrder[0];
        seenOrder := seenOrder[1..];
        seen := seen - {expired};
      }
    }

    method Add(r: Routed) returns (out: Result<Outcome, QueueError>)
      requires exists waiting :: Represents(View(), waiting)
      modifies this
      ensures (View(), out) == Enqueue(old(View()), r)
      ensures exists waiting :: Represents(View(), waiting)
    {
      ghost var waiting, before :| before == View() && Represents(before, waiting);
      EnqueueStaysRepresented(before, waiting, r);
      hide Represents, WellFormed, AttachmentsFit;
      if !WellFormed(r.message) { return Err(Malformed); }
      if !AttachmentsFit(limits, r.message.attachments) { return Err(AttachmentLimit); }
      var k := KeyOf(r.message);
      if k in seen { return Ok(Duplicate); }
      var backlog := if r.session in pending then pending[r.session] else [];
      if pendingCount >= limits.pending || |backlog| >= limits.perSession { return Err(Backpressure); }
      Push(r, backlog);
      RememberKey(k);
      out := Ok(Queued);
    }

    method Push(r: Routed, backlog: seq<Routed>)
      requires backlog == Backlog(View(), r.session)
      modifies this`pending, this`pendingCount, this`ready
      ensures Remember(View(), KeyOf(r.message)) == Append(old(View()), r)
    {
      var wasEmpty := backlog == [];
      pending := pending[r.session := backlog + [r]];
      pendingCount := pendingCount + 1;
      if wasEmpty && r.session !in inFlight {
        ready := ready + [r.session];
      }
    }

    method Take() returns (item: Option<Routed>)
      requires exists waiting :: Represents(View(), waiting)
      modifies this
      ensures (View(), item) == TakeReady(old(View()))
      ensures exists waiting :: Represents(View(), waiting)
    {
      ghost var waiting, before :| before == View() && Represents(before, waiting);
      TakeStaysRepresented(before, waiting);
      hide Represents;
      if |inFlight| >= limits.concurrency { return None; }
      while ready != []
        invariant TakeFrom(View()) == TakeReady(before) && pending == before.pending
        invariant pendingCount == before.pendingCount
      {
        var s := ready[0];
        ready := ready[1..];
        if s in inFlight { continue; }
        if s !in pending || pending[s] == [] { return None; }
        item := Some(pending[s][0]);
        pending := pending[s := pending[s][1..]];
        pendingCount := pendingCount - 1;
        inFlight := inFlight + {s};
        return;
      }
      item := None;
    }

    method Release(s: Session) returns (out: Result<(), QueueError>)
      requires exists waiting :: Represents(View(), waiting)
      modifies this`inFlight, this`ready, this`pending
      ensures (View(), out) == Complete(old(View()), s)
      ensures exists waiting :: Represents(View(), waiting)
    {
      ghost var waiting, before :| before == View() && Represents(before, waiting);
      CompleteRefines(before, waiting, s);
      hide Represents;
      if s !in inFlight { return Err(NotInFlight); }
      inFlight := inFlight - {s};
      if s in pending && pending[s] != [] {
        ready := ready + [s];
      } else {
        pending := pending - {s};
      }
      out := Ok(());
    }
  }
}
