/** Runs of the supervisor, from no accounts on, in which an unconditional promise fails: a redelivery that is queued
    twice and then lost, and an account that cannot be restored. */
module FailingRuns {
  import opened Seqs
  import opened GatewayQueues
  import opened Routes
  import opened Accounts
  import opened Restore
  import opened Supervisor
  import opened SupervisorRuns
  import Text

  // ---------------------------------------------------------------- one account, two messages

  const NOBODY := Sup(map[], map[], [])

  /** An account that can be added, and two events it accepts as different messages of different sessions. */
  predicate Scenario(c: Config, e: Event, f: Event) {
    && ValidConfig(c) && c.limits.Positive() && c.enabled && e.valid && f.valid
    && ResolveEvent(c, e).Ok? && ResolveEvent(c, f).Ok?
    && Apart(c.limits, ResolveEvent(c, e).value, ResolveEvent(c, f).value)
  }

  predicate Apart(limits: Limits, one: Durable, two: Durable) {
    && Admissible(limits, one.routed.message) && Admissible(limits, two.routed.message)
    && DKey(one) != DKey(two) && one.routed.session != two.routed.session
  }

  function Only(k: AccountKey, rt: Runtime): Sup {
    Sup(map[k := rt.record], map[k := rt], [k])
  }

  function Start(c: Config): Runtime {
    Blank(NewRecord(c))
  }

  function FirstTaken(c: Config, one: Durable): Runtime {
    match Visit(Accept(Start(c), one).0)
    case Served(after, _) => after
    case _ => Start(c)
  }

  /** The first message is in flight and the second waits. */
  function Crowded(c: Config, one: Durable, two: Durable): Runtime {
    Accept(FirstTaken(c, one), two).0
  }

  function Redelivered(c: Config, one: Durable, two: Durable): Runtime {
    Accept(Crowded(c, one, two), one).0
  }

  lemma FirstAccepted(c: Config, one: Durable, two: Durable)
    requires c.limits.Positive() && Apart(c.limits, one, two)
    ensures Accept(Start(c), one).1 == Ok(Queued)
    ensures var rt := Accept(Start(c), one).0;
            && rt.queue.pending == map[one.routed.session := [one.routed]] && rt.queue.ready == [one.routed.session]
            && rt.queue.inFlight == {} && rt.queue.seenOrder == [DKey(one)] && rt.queue.seen == {DKey(one)}
            && rt.queue.pendingCount == 1 && rt.queue.limits == c.limits && rt.inFlight == map[]
            && rt.record.lifecycle == Running && rt.record.config == c
  {
    hide WellFormed, AttachmentsFit;
    assert [] + [DKey(one)] == [DKey(one)] && ToSet([DKey(one)]) == {DKey(one)};
    assert [] + [one.routed] == [one.routed];
  }

  lemma FirstDispatched(c: Config, one: Durable, two: Durable)
    requires c.limits.Positive() && Apart(c.limits, one, two)
    ensures Visit(Accept(Start(c), one).0) == Served(FirstTaken(c, one), one)
    ensures var rt := FirstTaken(c, one);
            && rt.queue.pending == map[one.routed.session := []] && rt.queue.ready == []
            && rt.queue.inFlight == {one.routed.session} && rt.queue.seenOrder == [DKey(one)]
            && rt.queue.seen == {DKey(one)} && rt.queue.pendingCount == 0 && rt.queue.limits == c.limits
            && rt.context == map[DKey(one) := one.context]
            && rt.inFlight == map[one.routed.session := DKey(one)]
            && rt.record.lifecycle == Running && rt.record.config == c
  {
    hide WellFormed, AttachmentsFit;
    FirstAccepted(c, one, two);
  }

  lemma SecondAccepted(c: Config, one: Durable, two: Durable)
    requires c.limits.Positive() && Apart(c.limits, one, two)
    ensures Accept(FirstTaken(c, one), two).1 == Ok(Queued)
    ensures var rt := Crowded(c, one, two);
            && rt.queue.pending == map[one.routed.session := [], two.routed.session := [two.routed]]
            && rt.queue.ready == [two.routed.session] && rt.queue.inFlight == {one.routed.session}
            && (c.limits.seen == 1 ==> rt.queue.seen == {DKey(two)})
            && rt.queue.pendingCount == 1 && rt.queue.limits == c.limits
            && rt.context == map[DKey(one) := one.context, DKey(two) := two.context]
            && rt.inFlight == map[one.routed.session := DKey(one)]
            && rt.record.lifecycle == Running && rt.record.config == c
  {
    hide WellFormed, AttachmentsFit, Visit, FirstTaken;
    FirstDispatched(c, one, two);
    var order := [DKey(one), DKey(two)];
    assert [DKey(one)] + [DKey(two)] == order && Newest(order, 1) == [DKey(two)];
    assert ToSet([DKey(two)]) == {DKey(two)} && [] + [two.routed] == [two.routed];
  }

  // ---------------------------------------------------------------- the same as operations

  function Setup(c: Config, e: Event, f: Event): seq<Op> {
    var k := KeyOfConfig(c);
    [Add(c, true, true), Deliver(k, e, true), Take, Deliver(k, f, true)]
  }

  lemma RunMore(sup: Sup, ops: seq<Op>, op: Op)
    ensures Run(sup, ops + [op]) == Step(Run(sup, ops), op)
  {
    assert (ops + [op])[..|ops|] == ops;
  }

  lemma DeliverStep(k: AccountKey, rt: Runtime, event: Event, d: Durable)
    requires Available(rt.record) && event.valid && ResolveEvent(rt.record.config, event) == Ok(d) && Accept(rt, d).1.Ok?
    ensures Step(Only(k, rt), Deliver(k, event, true)) == Only(k, Accept(rt, d).0)
  {
    hide Accept, ResolveEvent;
    var after := Accept(rt, d).0;
    assert map[k := rt.record][k := after.record] == map[k := after.record];
    assert map[k := rt][k := after] == map[k := after];
  }

  lemma DoneStep(k: AccountKey, rt: Runtime, s: Session)
    requires Finish(rt, s).1.Ok?
    ensures Step(Only(k, rt), Done(k, s, true)) == Only(k, Finish(rt, s).0)
  {
    hide Finish;
    var after := Finish(rt, s).0;
    assert map[k := rt.record][k := after.record] == map[k := after.record];
    assert map[k := rt][k := after] == map[k := after];
  }

  lemma VisitKeepsRecord(rt: Runtime)
    requires !Visit(rt).Skipped?
    ensures Visit(rt).after.record == rt.record
  {
  }

  lemma TakeStep(k: AccountKey, rt: Runtime)
    requires !Visit(rt).Skipped?
    ensures Step(Only(k, rt), Take) == TakeFair(Only(k, rt)).0 == Only(k, Visit(rt).after)
    ensures TakeFair(Only(k, rt)).1 == if Visit(rt).Served? then Some((k, Visit(rt).item)) else None
  {
    hide Visit;
    VisitKeepsRecord(rt);
    var after := Visit(rt).after;
    assert map[k := rt][k := after] == map[k := after];
    assert Skips(map[k := rt], [k]) == 0;
    assert Rotated([k], 1) == [k];
  }

  lemma AddStep(c: Config)
    requires ValidConfig(c)
    ensures Step(NOBODY, Add(c, true, true)) == Only(KeyOfConfig(c), Start(c))
  {
    hide ValidConfig;
    assert [] + [KeyOfConfig(c)] == [KeyOfConfig(c)];
  }

  /** The setup is one first message in flight, the other waiting, all of it written. */
  lemma SetupRun(c: Config, e: Event, f: Event)
    requires Scenario(c, e, f)
    ensures Run(NOBODY, Setup(c, e, f)) == Only(KeyOfConfig(c), Crowded(c, ResolveEvent(c, e).value, ResolveEvent(c, f).value))
  {
    hide ValidConfig, ResolveEvent, Step, Visit, Accept, FirstTaken, Apart;
    var k, one, two := KeyOfConfig(c), ResolveEvent(c, e).value, ResolveEvent(c, f).value;
    FirstAccepted(c, one, two);
    FirstDispatched(c, one, two);
    SecondAccepted(c, one, two);
    AddStep(c);
    DeliverStep(k, Start(c), e, one);
    TakeStep(k, Accept(Start(c), one).0);
    DeliverStep(k, FirstTaken(c, one), f, two);
    var ops := Setup(c, e, f);
    RunMore(NOBODY, [], ops[0]);
    RunMore(NOBODY, [ops[0]], ops[1]);
    RunMore(NOBODY, [ops[0], ops[1]], ops[2]);
    RunMore(NOBODY, [ops[0], ops[1], ops[2]], ops[3]);
    assert [] + [ops[0]] == [ops[0]] && [ops[0]] + [ops[1]] == [ops[0], ops[1]];
    assert [ops[0], ops[1]] + [ops[2]] == [ops[0], ops[1], ops[2]] && [ops[0], ops[1], ops[2]] + [ops[3]] == ops;
  }

  lemma CrowdedAgrees(c: Config, one: Durable, two: Durable)
    requires c.limits.Positive() && Apart(c.limits, one, two)
    ensures Agreement(Crowded(c, one, two))
  {
    hide Represents, Agreement, Visit, FirstTaken, Apart;
    BlankAgrees(c);
    FirstAccepted(c, one, two);
    AcceptAgreesIff(Start(c), one);
    FirstDispatched(c, one, two);
    VisitAgrees(Accept(Start(c), one).0);
    AcceptAgreesIff(FirstTaken(c, one), two);
  }

  /** So far the tables agree. */
  lemma SetupSound(c: Config, e: Event, f: Event)
    requires Scenario(c, e, f)
    ensures Sound(Run(NOBODY, Setup(c, e, f)))
  {
    hide Agreement, Run, Crowded, ResolveEvent, ValidConfig;
    SetupRun(c, e, f);
    CrowdedAgrees(c, ResolveEvent(c, e).value, ResolveEvent(c, f).value);
    assert ToSet([KeyOfConfig(c)]) == {KeyOfConfig(c)};
  }

  // ---------------------------------------------------------------- a message queued twice

  predicate Forgetful(c: Config) {
    c.limits.seen == 1 && c.limits.pending >= 2 && c.limits.concurrency >= 2
  }

  /** An account that remembers one key queues the first event again when it is redelivered, and its tables no longer
      agree. */
  lemma ForgottenRedelivery(c: Config, e: Event, f: Event)
    requires Scenario(c, e, f) && Forgetful(c)
    ensures var ops, again := Setup(c, e, f), Deliver(KeyOfConfig(c), e, true);
            Redelivers(Run(NOBODY, ops), again) && Sound(Run(NOBODY, ops)) && !Sound(Run(NOBODY, ops + [again]))
  {
    hide Run, Step, ResolveEvent, Crowded, Agreement, Sound, ValidConfig, WellFormed, AttachmentsFit;
    var one, two := ResolveEvent(c, e).value, ResolveEvent(c, f).value;
    var ops, again := Setup(c, e, f), Deliver(KeyOfConfig(c), e, true);
    SetupRun(c, e, f);
    SetupSound(c, e, f);
    SecondAccepted(c, one, two);
    StepSoundIff(Run(NOBODY, ops), again);
    RunMore(NOBODY, ops, again);
  }

  lemma RedeliveredTables(c: Config, one: Durable, two: Durable)
    requires c.limits.Positive() && Apart(c.limits, one, two) && Forgetful(c)
    ensures Accept(Crowded(c, one, two), one).1 == Ok(Queued)
    ensures var rt := Redelivered(c, one, two);
            && rt.queue.pending == map[one.routed.session := [one.routed], two.routed.session := [two.routed]]
            && rt.queue.ready == [two.routed.session] && rt.queue.inFlight == {one.routed.session}
            && rt.queue.limits == c.limits && rt.context.Keys == {DKey(one), DKey(two)}
            && rt.inFlight == map[one.routed.session := DKey(one)] && rt.record.lifecycle == Running
  {
    hide WellFormed, AttachmentsFit, FirstTaken, Crowded, Remember;
    SecondAccepted(c, one, two);
    assert [] + [one.routed] == [one.routed];
    RememberOnly(Crowded(c, one, two).queue, one.routed);
  }

  lemma RememberOnly(q: QueueState, r: Routed)
    ensures var n := Append(q, r);
            && n.pending == q.pending[r.session := Backlog(q, r.session) + [r]] && n.inFlight == q.inFlight && n.limits == q.limits
            && n.ready == if Backlog(q, r.session) == [] && r.session !in q.inFlight then q.ready + [r.session] else q.ready
  {
  }

  function Finished(c: Config, one: Durable, two: Durable): Runtime {
    Finish(Redelivered(c, one, two), one.routed.session).0
  }

  lemma CompletedTables(c: Config, one: Durable, two: Durable)
    requires c.limits.Positive() && Apart(c.limits, one, two) && Forgetful(c)
    ensures Finish(Redelivered(c, one, two), one.routed.session).1.Ok?
    ensures var rt := Finished(c, one, two);
            && rt.queue.pending == map[one.routed.session := [one.routed], two.routed.session := [two.routed]]
            && rt.queue.ready == [two.routed.session, one.routed.session] && rt.queue.inFlight == {}
            && rt.queue.limits == c.limits && rt.context.Keys == {DKey(two)} && rt.record.lifecycle == Running
  {
    hide WellFormed, AttachmentsFit, Redelivered;
    RedeliveredTables(c, one, two);
  }

  lemma SecondTaken(c: Config, one: Durable, two: Durable)
    requires c.limits.Positive() && Apart(c.limits, one, two) && Forgetful(c)
    ensures var rt := Finished(c, one, two);
            && Visit(rt).Served?
            && Visit(Visit(rt).after).Lost?
            && Backlog(Visit(rt).after.queue, one.routed.session) == [one.routed]
            && Backlog(Visit(Visit(rt).after).after.queue, one.routed.session) == []
  {
    hide WellFormed, AttachmentsFit, Redelivered, Finish;
    CompletedTables(c, one, two);
    var s, t := one.routed.session, two.routed.session;
    var f := Visit(Finished(c, one, two)).after;
    assert f.queue.ready == [s] && f.queue.inFlight == {t} && f.queue.pending[s] == [one.routed];
  }

  function Losing(c: Config, e: Event, f: Event): seq<Op> {
    var k := KeyOfConfig(c);
    Setup(c, e, f) + [Deliver(k, e, true)]
    + [Done(k, if ResolveEvent(c, e).Ok? then ResolveEvent(c, e).value.routed.session else "", true)] + [Take]
  }

  /** Completing the first copy then erases the context of the second: the next scheduler call takes it from the queue
      and hands nothing out. */
  lemma ForgottenRedeliveryIsLost(c: Config, e: Event, f: Event)
    requires Scenario(c, e, f) && Forgetful(c)
    ensures var k, one, sup := KeyOfConfig(c), ResolveEvent(c, e).value, Run(NOBODY, Losing(c, e, f));
            && k in sup.accounts && k in TakeFair(sup).0.accounts
            && Backlog(sup.accounts[k].queue, one.routed.session) == [one.routed]
            && TakeFair(sup).1.None?
            && Backlog(TakeFair(sup).0.accounts[k].queue, one.routed.session) == []
  {
    hide Run, Step, ResolveEvent, Crowded, Redelivered, Finish, Accept, Visit, TakeFair, ValidConfig, Apart, Backlog;
    var k, one, two := KeyOfConfig(c), ResolveEvent(c, e).value, ResolveEvent(c, f).value;
    SetupRun(c, e, f);
    SecondAccepted(c, one, two);
    RedeliveredTables(c, one, two);
    CompletedTables(c, one, two);
    SecondTaken(c, one, two);
    var crowded, twice, done := Crowded(c, one, two), Accept(Crowded(c, one, two), one).0, Finished(c, one, two);
    assert twice == Redelivered(c, one, two) by { RedeliveredIs(c, one, two); }
    DeliverStep(k, crowded, e, one);
    DoneStep(k, twice, one.routed.session);
    TakeStep(k, done);
    TakeStep(k, Visit(done).after);
    var ops := Setup(c, e, f);
    RunMore(NOBODY, ops, Deliver(k, e, true));
    RunMore(NOBODY, ops + [Deliver(k, e, true)], Done(k, one.routed.session, true));
    RunMore(NOBODY, ops + [Deliver(k, e, true)] + [Done(k, one.routed.session, true)], Take);
  }

  lemma RedeliveredIs(c: Config, one: Durable, two: Durable)
    ensures Redelivered(c, one, two) == Accept(Crowded(c, one, two), one).0
  {
  }

  // ---------------------------------------------------------------- an account that cannot be restored

  /** With room for one waiting message, the record written after the setup cannot be restored. */
  lemma FullQueueCannotReopen(c: Config, e: Event, f: Event, now: int)
    requires Scenario(c, e, f) && c.limits.pending == 1
    ensures var sup := Run(NOBODY, Setup(c, e, f));
            Sound(sup) && KeyOfConfig(c) in sup.store && RestoreAccount(sup.store[KeyOfConfig(c)], now).Err?
  {
    hide Run, ResolveEvent, Crowded, Agreement, Sound, RestoreAccount, ValidConfig, Apart;
    var one, two := ResolveEvent(c, e).value, ResolveEvent(c, f).value;
    SetupRun(c, e, f);
    SetupSound(c, e, f);
    SecondAccepted(c, one, two);
    CrowdedAgrees(c, one, two);
    assert one.routed.session in Crowded(c, one, two).inFlight;
    FullWithOneInFlightFails(Crowded(c, one, two), now);
  }

  /** Nor can any account whose last adapter error was stored with a blank message: its health does not validate. */
  lemma BlankErrorCannotReopen(sup: Sup, k: AccountKey, enabled: bool, lifecycle: Lifecycle, until: Option<int>, error: string, now: int)
    requires k in sup.accounts && Text.Blank(error)
    ensures var after := Step(sup, Change(k, enabled, lifecycle, until, Some(error), true));
            k in after.store && RestoreAccount(after.store[k], now).Err?
  {
    hide Text.Blank;
  }

  // ---------------------------------------------------------------- an account that is restored with one copy of two

  /** Both messages are pending, the first in flight, the second waiting. */
  ghost predicate OneFlying(rt: Runtime, c: Config, one: Durable, two: Durable) {
    && rt.record.pendingInbound == [one, two] && rt.record.safeError.None?
    && rt.record.lifecycle == Running && rt.record.config == c
    && rt.queue.pending == map[one.routed.session := [], two.routed.session := [two.routed]]
    && rt.queue.ready == [two.routed.session] && rt.queue.inFlight == {one.routed.session}
    && (c.limits.seen == 1 ==> rt.queue.seen == {DKey(two)})
    && rt.queue.pendingCount == 1 && rt.queue.limits == c.limits
    && rt.context == map[DKey(one) := one.context, DKey(two) := two.context]
    && rt.inFlight == map[one.routed.session := DKey(one)]
  }

  lemma CrowdedOneFlying(c: Config, one: Durable, two: Durable)
    requires c.limits.Positive() && Apart(c.limits, one, two)
    ensures OneFlying(Crowded(c, one, two), c, one, two)
  {
    hide WellFormed, AttachmentsFit, Visit, FirstTaken, Enqueue, KeyOf;
    FirstAccepted(c, one, two);
    FirstDispatched(c, one, two);
    SecondAccepted(c, one, two);
    assert Accept(Start(c), one).0.record.pendingInbound == [] + [one] == [one];
    VisitKeepsRecord(Accept(Start(c), one).0);
    assert [one] + [two] == [one, two];
  }

  function BothFlying(rt: Runtime, two: Durable): Runtime {
    var s := two.routed.session;
    rt.(queue := rt.queue.(pending := rt.queue.pending[s := []], pendingCount := 0, ready := [], inFlight := rt.queue.inFlight + {s}),
        inFlight := rt.inFlight[s := DKey(two)])
  }

  lemma SecondServed(rt: Runtime, c: Config, one: Durable, two: Durable)
    requires OneFlying(rt, c, one, two) && one.routed.session != two.routed.session && c.limits.concurrency >= 2
    ensures Visit(rt) == Served(BothFlying(rt, two), two)
  {
    hide KeyOf;
    assert [two.routed][1..] == [] && [two.routed.session][1..] == [];
  }

  function FirstLeft(rt: Runtime, one: Durable, two: Durable): Runtime {
    var s := two.routed.session;
    rt.(record := rt.record.(pendingInbound := [one]),
        queue := rt.queue.(pending := rt.queue.pending - {s}, pendingCount := 0, ready := []),
        context := rt.context - {DKey(two)})
  }

  lemma SecondFinished(rt: Runtime, c: Config, one: Durable, two: Durable)
    requires OneFlying(rt, c, one, two) && one.routed.session != two.routed.session && DKey(one) != DKey(two)
    ensures Finish(BothFlying(rt, two), two.routed.session) == (FirstLeft(rt, one, two), Ok(()))
  {
    hide KeyOf;
    assert [one, two][1..] == [two] && [two][1..] == [];
    assert WithoutKey([two], DKey(two)) == [];
    assert WithoutKey([one, two], DKey(two)) == [one];
    var s := two.routed.session;
    assert rt.queue.inFlight + {s} - {s} == rt.queue.inFlight;
    assert rt.queue.pending[s := []] - {s} == rt.queue.pending - {s};
    assert rt.inFlight[s := DKey(two)] - {s} == rt.inFlight;
  }

  lemma FirstAcceptedAgain(rt: Runtime, c: Config, one: Durable, two: Durable)
    requires c.limits.Positive() && OneFlying(rt, c, one, two) && Apart(c.limits, one, two) && c.limits.seen == 1
    ensures var again := Accept(FirstLeft(rt, one, two), one);
            && again.1 == Ok(Queued) && again.0.record.pendingInbound == [one, one]
            && again.0.record.config == c && again.0.record.safeError.None?
  {
    hide WellFormed, AttachmentsFit, KeyOf, Append;
    assert [one] + [one] == [one, one];
  }

  function Doubling(c: Config, e: Event, f: Event): seq<Op> {
    var k := KeyOfConfig(c);
    Setup(c, e, f) + [Take]
    + [Done(k, if ResolveEvent(c, f).Ok? then ResolveEvent(c, f).value.routed.session else "", true)] + [Deliver(k, e, true)]
  }

  /** Take and complete the second message, then redeliver the first: it is stored twice, and a restart waits with one
      copy, although with room for one message a session the two do not fit. */
  lemma DoubledIsRestoredOnce(c: Config, e: Event, f: Event, now: int)
    requires Scenario(c, e, f) && Forgetful(c)
    ensures var k, one, sup := KeyOfConfig(c), ResolveEvent(c, e).value, Run(NOBODY, Doubling(c, e, f));
            && k in sup.store && sup.store[k].pendingInbound == [one, one]
            && RestoreAccount(sup.store[k], now).Ok?
            && Represents(RestoreAccount(sup.store[k], now).value.queue, [one.routed])
            && (c.limits.perSession == 1 ==> !FitsBounds(sup.store[k].pendingInbound, c.limits))
  {
    hide Run, Step, ResolveEvent, Crowded, Finish, Accept, Visit, TakeFair, ValidConfig, Admissible, RestoreAccount, Represents;
    var k, one, two := KeyOfConfig(c), ResolveEvent(c, e).value, ResolveEvent(c, f).value;
    SetupRun(c, e, f);
    var crowded := Crowded(c, one, two);
    CrowdedOneFlying(c, one, two);
    SecondServed(crowded, c, one, two);
    SecondFinished(crowded, c, one, two);
    FirstAcceptedAgain(crowded, c, one, two);
    var flying, left := BothFlying(crowded, two), FirstLeft(crowded, one, two);
    TakeStep(k, crowded);
    DoneStep(k, flying, two.routed.session);
    DeliverStep(k, left, e, one);
    var ops := Setup(c, e, f);
    RunMore(NOBODY, ops, Take);
    RunMore(NOBODY, ops + [Take], Done(k, two.routed.session, true));
    RunMore(NOBODY, ops + [Take] + [Done(k, two.routed.session, true)], Deliver(k, e, true));
    OneCopyRestored(Accept(left, one).0.record, one, now);
    TwoOfOneSession(one);
  }

  lemma TwoOfOneSession(one: Durable)
    ensures |OfSession(Routeds([one, one]), one.routed.session)| == 2
  {
    assert [one, one][1..] == [one] && [one][1..] == [];
    assert Routeds([one]) == [one.routed];
    assert Routeds([one, one]) == [one.routed, one.routed];
    assert [one.routed, one.routed][1..] == [one.routed] && [one.routed][1..] == [];
    assert OfSession([one.routed], one.routed.session) == [one.routed];
  }

  lemma OneCopyRestored(r: Record, one: Durable, now: int)
    requires r.config.limits.Positive() && r.pendingInbound == [one, one] && r.safeError.None?
    requires Admissible(r.config.limits, one.routed.message)
    ensures RestoreAccount(r, now).Ok? && Represents(RestoreAccount(r, now).value.queue, [one.routed])
  {
    hide RestoreAccount, Represents, Admissible, KeyOf, Agreement;
    var n := r.config.limits.seen;
    RestoreExact(r, now);
    OneKept(one, n);
  }

  lemma OneKept(one: Durable, n: nat)
    requires n > 0
    ensures Requeued([one, one], n) == [one] && Routeds([one]) == [one.routed]
    ensures forall s :: |OfSession(Routeds([one]), s)| <= 1
  {
    hide KeyOf;
    assert [one, one][..1] == [one] && [one][..0] == [];
    assert Requeued([one], n) == [one];
    assert KeyList([one]) == [DKey(one)];
  }

  // ---------------------------------------------------------------- such accounts and events exist

  /** A route for one conversation, named after it and leading to a session of that name. */
  function Route(v: string): Rule {
    Rule(v, true, 0, Some(v), None, None, "p", v, GroupPolicy(false, false, {}, {}, {}, false))
  }

  function Account(limits: Limits): Config {
    Config("discord", "a", true, limits, [Route("x"), Route("y")])
  }

  function Message(v: string): Inbound {
    Inbound("discord", "a", v, None, "u", v, None, v, [], 0, Prompt)
  }

  function Posted(v: string): Event {
    Event(v, true, true, MessageCreated(Message(v), false, false))
  }

  lemma TwoNames()
    ensures "x" != "y" && '\0' !in "x" && '\0' !in "y" && !Text.Blank("x") && !Text.Blank("y")
  {
    assert "x"[0] == 'x' && "y"[0] == 'y';
  }

  lemma Resolved(limits: Limits, v: string)
    requires v == "x" || v == "y"
    ensures ResolveEvent(Account(limits), Posted(v)) == Ok(Permitted(Route(v), Message(v), false))
  {
    TwoNames();
    var rules, m := [Route("x"), Route("y")], Message(v);
    assert rules[1..] == [Route("y")] && [Route("y")][1..] == [];
    assert Candidates([Route("y")], m) == if v == "y" then [Route("y")] else [];
    assert Candidates(rules, m) == [Route(v)];
    assert Sort([Route(v)]) == [Route(v)];
  }

  lemma WellMade(v: string)
    requires v == "x" || v == "y"
    ensures WellFormed(Message(v)) && NulFree(Message(v))
  {
    TwoNames();
    assert "discord"[0] == 'd' && "a"[0] == 'a' && "u"[0] == 'u';
  }

  lemma Witness(limits: Limits)
    requires limits.Positive()
    ensures Scenario(Account(limits), Posted("x"), Posted("y"))
  {
    hide WellFormed, ResolveEvent;
    TwoNames();
    Resolved(limits, "x");
    Resolved(limits, "y");
    WellMade("x");
    WellMade("y");
    KeyDistinguishes(Message("x"), Message("y"));
  }

  /** Concretely: with room for two messages and one remembered key, the redelivery of "x" is queued twice. */
  lemma RedeliveryHappens()
    ensures var c := Account(Limits(2, 2, 1, 1, 1, 1, 1));
            Redelivers(Run(NOBODY, Setup(c, Posted("x"), Posted("y"))), Deliver(KeyOfConfig(c), Posted("x"), true))
  {
    var limits := Limits(2, 2, 1, 1, 1, 1, 1);
    assert Account(limits).limits == limits;
    hide Scenario, Run, Redelivers, Account, Posted;
    Witness(limits);
    ForgottenRedelivery(Account(limits), Posted("x"), Posted("y"));
  }

  /** Concretely: with room for one message, the account of the same run cannot be restored. */
  lemma UnrestorableHappens(now: int)
    ensures var c := Account(Limits(1, 1, 1, 1, 1, 1, 1));
            var sup := Run(NOBODY, Setup(c, Posted("x"), Posted("y")));
            KeyOfConfig(c) in sup.store && RestoreAccount(sup.store[KeyOfConfig(c)], now).Err?
  {
    var limits := Limits(1, 1, 1, 1, 1, 1, 1);
    assert Account(limits).limits == limits;
    hide Scenario, Run, RestoreAccount, Account, Posted;
    Witness(limits);
    FullQueueCannotReopen(Account(limits), Posted("x"), Posted("y"), now);
  }

  // ---------------------------------------------------------------- a message handed out with another's permissions

  /** Both messages wait. */
  function BothWait(c: Config, one: Durable, two: Durable): Runtime {
    Accept(Accept(Start(c), one).0, two).0
  }

  lemma BothQueued(c: Config, one: Durable, two: Durable)
    requires c.limits.Positive() && Apart(c.limits, one, two) && c.limits.seen == 1 && c.limits.pending >= 2
    ensures Accept(Accept(Start(c), one).0, two).1 == Ok(Queued)
    ensures var rt := BothWait(c, one, two);
            && rt.queue.pending == map[one.routed.session := [one.routed], two.routed.session := [two.routed]]
            && rt.queue.ready == [one.routed.session, two.routed.session] && rt.queue.inFlight == {}
            && rt.queue.seen == {DKey(two)} && rt.queue.pendingCount == 2 && rt.queue.limits == c.limits
            && rt.record.lifecycle == Running && rt.record.config == c
  {
    hide WellFormed, AttachmentsFit, KeyOf;
    FirstAccepted(c, one, two);
    var order := [DKey(one), DKey(two)];
    assert [DKey(one)] + [DKey(two)] == order && Newest(order, 1) == [DKey(two)];
    assert ToSet([DKey(two)]) == {DKey(two)} && [] + [two.routed] == [two.routed];
    assert [one.routed.session] + [two.routed.session] == [one.routed.session, two.routed.session];
  }

  /** The first message delivered again, in another context. */
  lemma ThirdQueued(c: Config, one: Durable, two: Durable, again: Durable)
    requires c.limits.Positive() && Apart(c.limits, one, two) && c.limits.seen == 1 && c.limits.pending >= 3 && c.limits.perSession >= 2
    requires Admissible(c.limits, again.routed.message) && DKey(again) == DKey(one) && again.routed.session == one.routed.session
    ensures var rt := Accept(BothWait(c, one, two), again);
            && rt.1 == Ok(Queued) && Visit(rt.0).Served? && Visit(rt.0).item == Durable(again.context, one.routed)
  {
    hide WellFormed, AttachmentsFit, KeyOf, BothWait;
    BothQueued(c, one, two);
    assert [one.routed] + [again.routed] == [one.routed, again.routed];
  }

  /** A route that lets only "v" use tools in a group. */
  function Guarded(v: string): Rule {
    Route(v).(group := GroupPolicy(false, false, {}, {"v"}, {}, false))
  }

  function Group(limits: Limits): Config {
    Config("discord", "a", true, limits, [Guarded("x"), Guarded("y")])
  }

  function Spoken(v: string, who: string): Event {
    Event(v, true, true, MessageCreated(Message(v).(sender := who), true, false))
  }

  lemma SpokenResolved(limits: Limits, v: string, who: string)
    requires v == "x" || v == "y"
    ensures ResolveEvent(Group(limits), Spoken(v, who)) == Ok(Permitted(Guarded(v), Message(v).(sender := who), true))
  {
    TwoNames();
    var rules, m := [Guarded("x"), Guarded("y")], Message(v).(sender := who);
    assert rules[1..] == [Guarded("y")] && [Guarded("y")][1..] == [];
    assert Candidates([Guarded("y")], m) == if v == "y" then [Guarded("y")] else [];
    assert Candidates(rules, m) == [Guarded(v)];
    assert Sort([Guarded(v)]) == [Guarded(v)];
  }

  lemma SpokenApart(limits: Limits)
    requires limits.Positive()
    ensures Apart(limits, Permitted(Guarded("x"), Message("x"), true), Permitted(Guarded("y"), Message("y"), true))
  {
    hide WellFormed;
    TwoNames();
    WellMade("x");
    WellMade("y");
    KeyDistinguishes(Message("x"), Message("y"));
  }

  lemma SameKeyAgain()
    ensures KeyOf(Message("x").(sender := "v")) == KeyOf(Message("x")) && WellFormed(Message("x").(sender := "v"))
  {
    WellMade("x");
    assert "v"[0] == 'v';
  }

  function Deliveries(c: Config, e: Event, f: Event, g: Event): seq<Op> {
    var k := KeyOfConfig(c);
    [Add(c, true, true), Deliver(k, e, true), Deliver(k, f, true), Deliver(k, g, true)]
  }

  lemma FourSteps(sup: Sup, a: Op, b: Op, c: Op, d: Op)
    ensures Run(sup, [a, b, c, d]) == Step(Step(Step(Step(sup, a), b), c), d)
  {
    hide Step;
    assert [a, b, c, d][..3] == [a, b, c] && [a, b, c][..2] == [a, b] && [a, b][..1] == [a] && [a][..0] == [];
    assert Run(sup, []) == sup;
    assert Run(sup, [a]) == Step(sup, a);
    assert Run(sup, [a, b]) == Step(Step(sup, a), b);
  }

  lemma ThreeDelivered(c: Config, e: Event, f: Event, g: Event, one: Durable, two: Durable, again: Durable)
    requires ValidConfig(c) && c.enabled && e.valid && f.valid && g.valid
    requires ResolveEvent(c, e) == Ok(one) && ResolveEvent(c, f) == Ok(two) && ResolveEvent(c, g) == Ok(again)
    requires Accept(Start(c), one).1.Ok? && Accept(Accept(Start(c), one).0, two).1.Ok? && Accept(BothWait(c, one, two), again).1.Ok?
    ensures Run(NOBODY, Deliveries(c, e, f, g)) == Only(KeyOfConfig(c), Accept(BothWait(c, one, two), again).0)
  {
    hide Run, Step, Accept, ResolveEvent, ValidConfig, Available, Only, Start;
    var k, first := KeyOfConfig(c), Accept(Start(c), one).0;
    StartIsAvailable(c);
    AcceptedIsAvailable(Start(c), one);
    AcceptedIsAvailable(first, two);
    AddStep(c);
    DeliverStep(k, Start(c), e, one);
    DeliverStep(k, first, f, two);
    DeliverStep(k, BothWait(c, one, two), g, again);
    FourSteps(NOBODY, Add(c, true, true), Deliver(k, e, true), Deliver(k, f, true), Deliver(k, g, true));
  }

  lemma StartIsAvailable(c: Config)
    requires c.enabled
    ensures Available(Start(c).record) && Start(c).record.config == c
  {
  }

  lemma AcceptedIsAvailable(rt: Runtime, d: Durable)
    requires Available(rt.record)
    ensures Available(Accept(rt, d).0.record) && Accept(rt, d).0.record.config == rt.record.config
  {
    hide Enqueue;
  }

  lemma GroupIsValid(limits: Limits)
    requires limits.Positive()
    ensures ValidConfig(Group(limits)) && Group(limits).limits == limits && Group(limits).enabled
  {
    TwoNames();
  }

  lemma PostedByU()
    ensures Message("x").(sender := "u") == Message("x") && Message("y").(sender := "u") == Message("y")
  {
  }

  lemma BorrowingRun(limits: Limits)
    requires limits.Positive() && limits.seen == 1 && limits.pending >= 3 && limits.perSession >= 2
    ensures var c := Group(limits);
            var one, two := Permitted(Guarded("x"), Message("x"), true), Permitted(Guarded("y"), Message("y"), true);
            var again := Permitted(Guarded("x"), Message("x").(sender := "v"), true);
            && Run(NOBODY, Deliveries(c, Spoken("x", "u"), Spoken("y", "u"), Spoken("x", "v")))
               == Only(KeyOfConfig(c), Accept(BothWait(c, one, two), again).0)
            && Visit(Accept(BothWait(c, one, two), again).0).Served?
            && Visit(Accept(BothWait(c, one, two), again).0).item == Durable(again.context, one.routed)
  {
    var c := Group(limits);
    var one, two := Permitted(Guarded("x"), Message("x"), true), Permitted(Guarded("y"), Message("y"), true);
    var again := Permitted(Guarded("x"), Message("x").(sender := "v"), true);
    assert Admissible(limits, again.routed.message) && DKey(again) == DKey(one) && again.routed.session == one.routed.session by {
      SameKeyAgain();
      hide WellFormed, KeyOf;
    }
    hide *;
    GroupIsValid(limits);
    PostedByU();
    SpokenResolved(limits, "x", "u");
    SpokenResolved(limits, "y", "u");
    SpokenResolved(limits, "x", "v");
    SpokenApart(limits);
    FirstAccepted(c, one, two);
    BothQueued(c, one, two);
    ThirdQueued(c, one, two, again);
    SpokenIsValid("x", "u");
    SpokenIsValid("y", "u");
    SpokenIsValid("x", "v");
    ThreeDelivered(c, Spoken("x", "u"), Spoken("y", "u"), Spoken("x", "v"), one, two, again);
  }

  lemma SpokenIsValid(v: string, who: string)
    ensures Spoken(v, who).valid
  {
  }

  /** Concretely: "u" posts "x" in a group where only "v" may use tools, its key is forgotten, and "v" posts a message
      with the same identity.  What is handed out is the message of "u", with tools. */
  lemma BorrowedPermissions()
    ensures var c := Group(Limits(1, 3, 2, 1, 1, 1, 1));
            var taken := TakeFair(Run(NOBODY, Deliveries(c, Spoken("x", "u"), Spoken("y", "u"), Spoken("x", "v")))).1;
            && taken.Some? && taken.value.1.routed.message == Message("x") && Message("x").sender == "u"
            && taken.value.1.context.tools && "u" !in Guarded("x").group.tools
  {
    var limits := Limits(1, 3, 2, 1, 1, 1, 1);
    var c := Group(limits);
    var one, two := Permitted(Guarded("x"), Message("x"), true), Permitted(Guarded("y"), Message("y"), true);
    var again := Permitted(Guarded("x"), Message("x").(sender := "v"), true);
    assert again.context.tools && one.routed.message == Message("x");
    assert "u"[0] != "v"[0];
    hide Run, Visit, Accept, TakeFair, Group, Permitted;
    BorrowingRun(limits);
    TakeStep(KeyOfConfig(c), Accept(BothWait(c, one, two), again).0);
  }
}
