/** The channel gateway supervisor: accounts, their durable store and the round-robin order.  Every
    durable write either replaces the stored record or fails; which one happens is an input. */
module Supervisor {
  import opened Seqs
  import opened GatewayQueues
  import opened Routes
  import opened Accounts
  import opened Restore

  datatype AccountKey = AccountKey(channel: string, accountId: string)

  datatype Sup = Sup(
    store: map<AccountKey, Record>, accounts: map<AccountKey, Runtime>, order: seq<AccountKey>)

  function KeyOfConfig(c: Config): AccountKey {
    AccountKey(c.channel, c.accountId)
  }

  predicate ValidConfig(c: Config) {
    && c.limits.Positive() && c.routes != []
    && (forall i, j :: 0 <= i < j < |c.routes| ==> c.routes[i].id != c.routes[j].id)
  }

  function NewRecord(c: Config): Record {
    Record(c, if c.enabled then Starting else Paused, None, None, [])
  }

  /** `accepted` is the verdict of the adapter catalog and the credential checks. */
  datatype Op =
    | Add(config: Config, accepted: bool, written: bool)
    | Remove(key: AccountKey, written: bool)
    | Deliver(key: AccountKey, event: Event, written: bool)
    | Done(key: AccountKey, session: Session, written: bool)
    | Change(key: AccountKey, enabled: bool, lifecycle: Lifecycle, throttledUntil: Option<int>, safeError: Option<string>, written: bool)
    | Take

  datatype Effect = Nothing | InMemory(after: Runtime) | Persist(after: Runtime)

  /** The message an event is accepted as, when the account takes events and the event resolves. */
  function Incoming(rt: Runtime, event: Event): Result<Durable, GatewayError> {
    if !Available(rt.record) then Err(AccountUnavailable)
    else if !event.valid then Err(InvalidEvent)
    else ResolveEvent(rt.record.config, event)
  }

  function DeliverTo(rt: Runtime, event: Event): (Effect, Result<Outcome, GatewayError>) {
    match Incoming(rt, event)
    case Err(e) => (Nothing, Err(e))
    case Ok(d) =>
      match Accept(rt, d)
      case (_, Err(e)) => (Nothing, Err(e))
      case (after, Ok(outcome)) => (Persist(after), Ok(outcome))
  }

  function FinishOn(rt: Runtime, s: Session): (Effect, Result<(), GatewayError>) {
    match Finish(rt, s)
    case (after, Ok(_)) => (Persist(after), Ok(()))
    case (after, Err(e)) => (if e == NoDispatch then InMemory(after) else Nothing, Err(e))
  }

  /** What an operation on one account does to it. */
  function EffectOf(rt: Runtime, op: Op): Effect {
    match op
    case Deliver(_, event, _) => DeliverTo(rt, event).0
    case Done(_, s, _) => FinishOn(rt, s).0
    case Change(_, enabled, lifecycle, until, error, _) =>
      Persist(rt.(record := rt.record.(config := rt.record.config.(enabled := enabled),
                                       lifecycle := lifecycle, throttledUntil := until, safeError := error)))
    case _ => Nothing
  }

  function Apply(sup: Sup, k: AccountKey, effect: Effect, written: bool): Sup {
    match effect
    case Nothing => sup
    case InMemory(rt) => sup.(accounts := sup.accounts[k := rt])
    case Persist(rt) => sup.(accounts := sup.accounts[k := rt],
                             store := if written then sup.store[k := rt.record] else sup.store)
  }

  /** The number of accounts the scheduler skips before it finds one with something to hand out. */
  function Skips(accounts: map<AccountKey, Runtime>, order: seq<AccountKey>): nat {
    if order == [] || (order[0] in accounts && !Visit(accounts[order[0]]).Skipped?) then 0
    else 1 + Skips(accounts, order[1..])
  }

  function Rotated<T>(s: seq<T>, n: nat): seq<T>
    requires n <= |s|
  {
    s[n..] + s[..n]
  }

  function TakeFair(sup: Sup): (Sup, Option<(AccountKey, Durable)>) {
    var i := Skips(sup.accounts, sup.order);
    if i >= |sup.order| then (sup, None)
    else
      var k := sup.order[i];
      if k !in sup.accounts then (sup, None)
      else
        match Visit(sup.accounts[k])
        case Skipped => (sup, None)
        case Lost(after) =>
          (sup.(accounts := sup.accounts[k := after], order := Rotated(sup.order, i + 1)), None)
        case Served(after, item) =>
          (sup.(accounts := sup.accounts[k := after], order := Rotated(sup.order, i + 1)), Some((k, item)))
  }

  function WithoutAccount(order: seq<AccountKey>, k: AccountKey): seq<AccountKey> {
    if order == [] then []
    else (if order[0] == k then [] else [order[0]]) + WithoutAccount(order[1..], k)
  }

  function AddAccount(sup: Sup, config: Config, accepted: bool, written: bool): (Sup, Result<(), GatewayError>) {
    var k := KeyOfConfig(config);
    if !ValidConfig(config) then (sup, Err(Rejected))
    else if k in sup.accounts then (sup, Err(DuplicateAccount))
    else if !accepted then (sup, Err(Rejected))
    else if !written then (sup, Err(Persistence))
    else
      var r := NewRecord(config);
      (Sup(sup.store[k := r], sup.accounts[k := Blank(r)], sup.order + [k]), Ok(()))
  }

  function RemoveAccount(sup: Sup, k: AccountKey, written: bool): (Sup, Result<(), GatewayError>) {
    if k !in sup.accounts then (sup, Err(UnknownAccount))
    else if !written then (sup, Err(Persistence))
    else (Sup(sup.store - {k}, sup.accounts - {k}, WithoutAccount(sup.order, k)), Ok(()))
  }

  function Step(sup: Sup, op: Op): Sup {
    match op
    case Add(config, accepted, written) => AddAccount(sup, config, accepted, written).0
    case Remove(k, written) => RemoveAccount(sup, k, written).0
    case Take => TakeFair(sup).0
    case _ => if op.key in sup.accounts then Apply(sup, op.key, EffectOf(sup.accounts[op.key], op), op.written) else sup
  }

  /** The state after a sequence of operations. */
  function Run(sup: Sup, ops: seq<Op>): Sup {
    if ops == [] then sup else Step(Run(sup, ops[..|ops| - 1]), ops[|ops| - 1])
  }

  lemma RunPrefix(sup: Sup, ops: seq<Op>, i: nat)
    requires i < |ops|
    ensures Run(sup, ops[..i + 1]) == Step(Run(sup, ops[..i]), ops[i])
  {
    assert ops[..i + 1][..i] == ops[..i];
  }

  // ---------------------------------------------------------------- the fair order

  ghost predicate OrderValid(sup: Sup) {
    Distinct(sup.order) && ToSet(sup.order) == sup.accounts.Keys && sup.store.Keys == sup.accounts.Keys
  }

  lemma {:induction false} WithoutAccountMembers(order: seq<AccountKey>, k: AccountKey)
    ensures forall x :: x in WithoutAccount(order, k) <==> x in order && x != k
    ensures Distinct(order) ==> Distinct(WithoutAccount(order, k))
  {
    if order != [] {
      WithoutAccountMembers(order[1..], k);
      assert forall x :: x in order <==> x == order[0] || x in order[1..];
      var rest := WithoutAccount(order[1..], k);
      forall i | 0 <= i < |rest|
        ensures rest[i] in order[1..]
      {
        assert rest[i] in rest;
      }
    }
  }

  lemma {:induction false} SkipsSpec(accounts: map<AccountKey, Runtime>, order: seq<AccountKey>)
    requires forall x :: x in order ==> x in accounts
    ensures Skips(accounts, order) <= |order|
    ensures forall i :: 0 <= i < Skips(accounts, order) ==> Visit(accounts[order[i]]).Skipped?
    ensures Skips(accounts, order) < |order| ==> !Visit(accounts[order[Skips(accounts, order)]]).Skipped?
  {
    if order != [] {
      assert forall x :: x in order[1..] ==> x in order;
      SkipsSpec(accounts, order[1..]);
    }
  }

  lemma RotatedMembers<T>(s: seq<T>, n: nat)
    requires n <= |s|
    ensures forall x :: x in Rotated(s, n) <==> x in s
    ensures Distinct(s) ==> Distinct(Rotated(s, n))
  {
    assert s == s[..n] + s[n..];
  }

  lemma RotatedValid(sup: Sup, k: AccountKey, rt: Runtime, n: nat)
    requires OrderValid(sup) && k in sup.accounts && n <= |sup.order|
    ensures OrderValid(sup.(accounts := sup.accounts[k := rt], order := Rotated(sup.order, n)))
  {
    RotatedMembers(sup.order, n);
    assert ToSet(Rotated(sup.order, n)) == ToSet(sup.order);
    assert sup.accounts[k := rt].Keys == sup.accounts.Keys;
  }

  /** A call of the scheduler only rotates the order, past the first account that is not skipped; with
      nothing to hand out it changes nothing. */
  lemma TakeFairRotates(sup: Sup)
    requires OrderValid(sup)
    ensures OrderValid(TakeFair(sup).0)
    ensures exists n :: 0 <= n <= |sup.order| && TakeFair(sup).0.order == Rotated(sup.order, n)
    ensures (forall k :: k in sup.accounts ==> Visit(sup.accounts[k]).Skipped?) <==> Skips(sup.accounts, sup.order) == |sup.order|
    ensures Skips(sup.accounts, sup.order) == |sup.order| ==> TakeFair(sup) == (sup, None)
  {
    hide Visit, Rotated;
    assert forall x :: x in sup.order <==> x in ToSet(sup.order);
    SkipsSpec(sup.accounts, sup.order);
    var i := Skips(sup.accounts, sup.order);
    if i < |sup.order| {
      var k := sup.order[i];
      assert k in sup.order;
      RotatedValid(sup, k, Visit(sup.accounts[k]).after, i + 1);
      assert TakeFair(sup).0.order == Rotated(sup.order, i + 1);
    } else {
      RotatedNot(sup.order);
    }
  }

  lemma RotatedNot<T>(s: seq<T>)
    ensures Rotated(s, 0) == s == Rotated(s, |s|)
  {
  }

  lemma AddOrderValid(sup: Sup, config: Config, accepted: bool, written: bool)
    requires OrderValid(sup)
    ensures OrderValid(AddAccount(sup, config, accepted, written).0)
  {
    hide ValidConfig;
    var k := KeyOfConfig(config);
    assert forall x :: x in sup.order <==> x in ToSet(sup.order);
    assert ToSet(sup.order + [k]) == ToSet(sup.order) + {k};
  }

  lemma RemoveOrderValid(sup: Sup, k: AccountKey, written: bool)
    requires OrderValid(sup)
    ensures OrderValid(RemoveAccount(sup, k, written).0)
  {
    WithoutAccountMembers(sup.order, k);
    assert ToSet(WithoutAccount(sup.order, k)) == ToSet(sup.order) - {k};
  }

  /** The order always lists every account exactly once. */
  lemma StepOrderValid(sup: Sup, op: Op)
    requires OrderValid(sup)
    ensures OrderValid(Step(sup, op))
  {
    hide EffectOf, TakeFair, AddAccount, RemoveAccount;
    match op
    case Add(config, accepted, written) => AddOrderValid(sup, config, accepted, written);
    case Remove(k, written) => RemoveOrderValid(sup, k, written);
    case Take => TakeFairRotates(sup);
    case _ => if op.key in sup.accounts {  }
  }

  lemma {:induction false} RunOrderValid(sup: Sup, ops: seq<Op>)
    requires OrderValid(sup)
    ensures OrderValid(Run(sup, ops))
  {
    if ops != [] {
      RunOrderValid(sup, ops[..|ops| - 1]);
      StepOrderValid(Run(sup, ops[..|ops| - 1]), ops[|ops| - 1]);
    }
  }

  // ---------------------------------------------------------------- bounded waiting

  function Position(order: seq<AccountKey>, k: AccountKey): nat {
    if order == [] || order[0] == k then 0 else 1 + Position(order[1..], k)
  }

  /** The account is present, runnable and has a message that can be handed out. */
  predicate ReadyToServe(sup: Sup, k: AccountKey) {
    k in sup.accounts && Visit(sup.accounts[k]).Served?
  }

  predicate Serves(sup: Sup, op: Op, k: AccountKey) {
    op.Take? && TakeFair(sup).1.Some? && TakeFair(sup).1.value.0 == k
  }

  function Takes(ops: seq<Op>): nat {
    if ops == [] then 0 else Takes(ops[..|ops| - 1]) + if ops[|ops| - 1].Take? then 1 else 0
  }

  lemma {:induction false} PositionOf(order: seq<AccountKey>, k: AccountKey)
    requires k in order
    ensures Position(order, k) < |order| && order[Position(order, k)] == k
    ensures forall i :: 0 <= i < Position(order, k) ==> order[i] != k
  {
    if order[0] != k {
      assert k in order[1..];
      PositionOf(order[1..], k);
    }
  }

  lemma PositionIs(order: seq<AccountKey>, k: AccountKey, i: nat)
    requires i < |order| && order[i] == k && Distinct(order)
    ensures Position(order, k) == i
  {
    assert k in order;
    PositionOf(order, k);
  }

  lemma {:induction false} RemovalMovesUp(order: seq<AccountKey>, x: AccountKey, k: AccountKey)
    requires x != k && k in order
    ensures Position(WithoutAccount(order, x), k) <= Position(order, k)
  {
    if order[0] != k {
      assert k in order[1..];
      RemovalMovesUp(order[1..], x, k);
      var rest := WithoutAccount(order[1..], x);
      if order[0] != x {
        assert WithoutAccount(order, x) == [order[0]] + rest;
        assert ([order[0]] + rest)[1..] == rest;
      } else {
        assert WithoutAccount(order, x) == rest;
      }
    } else {
      assert WithoutAccount(order, x) == [k] + WithoutAccount(order[1..], x);
    }
  }

  lemma RotatedPosition(order: seq<AccountKey>, k: AccountKey, n: nat)
    requires Distinct(order) && k in order && n <= Position(order, k)
    ensures n <= |order| && Position(Rotated(order, n), k) == Position(order, k) - n
  {
    PositionOf(order, k);
    RotatedMembers(order, n);
    PositionIs(Rotated(order, n), k, Position(order, k) - n);
  }

  lemma SkipsBefore(sup: Sup, k: AccountKey)
    requires OrderValid(sup) && ReadyToServe(sup, k)
    ensures k in sup.order && Skips(sup.accounts, sup.order) <= Position(sup.order, k) < |sup.order|
    ensures sup.order[Skips(sup.accounts, sup.order)] in sup.accounts
  {
    assert k in ToSet(sup.order);
    assert forall x :: x in sup.order ==> x in ToSet(sup.order);
    SkipsSpec(sup.accounts, sup.order);
    PositionOf(sup.order, k);
  }

  lemma TakeMovesUp(sup: Sup, k: AccountKey)
    requires OrderValid(sup) && ReadyToServe(sup, k) && !Serves(sup, Take, k)
    ensures Position(TakeFair(sup).0.order, k) < Position(sup.order, k)
  {
    hide Visit, Position, Rotated;
    var i := Skips(sup.accounts, sup.order);
    SkipsBefore(sup, k);
    SkipsSpec(sup.accounts, sup.order);
    PositionOf(sup.order, k);
    assert sup.order[i] != k;
    RotatedPosition(sup.order, k, i + 1);
  }

  lemma AppendKeepsPosition(order: seq<AccountKey>, x: AccountKey, k: AccountKey)
    requires k in order && Distinct(order + [x])
    ensures Position(order + [x], k) == Position(order, k)
  {
    PositionOf(order, k);
    PositionIs(order + [x], k, Position(order, k));
  }

  /** No operation moves a waiting account back, and a scheduler call that serves another moves it up. */
  lemma StepMovesUp(sup: Sup, op: Op, k: AccountKey)
    requires OrderValid(sup) && ReadyToServe(sup, k) && !Serves(sup, op, k) && k in Step(sup, op).accounts
    ensures Position(Step(sup, op).order, k) + (if op.Take? then 1 else 0) <= Position(sup.order, k)
  {
    assert k in ToSet(sup.order);
    match op
    case Add(config, _, _) =>
      var x := KeyOfConfig(config);
      if Step(sup, op) != sup {
        StepOrderValid(sup, op);
        AppendKeepsPosition(sup.order, x, k);
      }
    case Remove(x, _) =>
      if Step(sup, op) != sup {
        RemovalMovesUp(sup.order, x, k);
      }
    case Take => TakeMovesUp(sup, k);
    case _ =>
  }

  /** Bounded waiting: while an account at index i is ready and not served, whatever else happens, at most i scheduler
      calls pass, and they have brought it that much further up. */
  lemma {:induction false} BoundedWaiting(sup: Sup, ops: seq<Op>, k: AccountKey)
    requires OrderValid(sup)
    requires forall i :: 0 <= i < |ops| ==> ReadyToServe(Run(sup, ops[..i]), k)
    requires forall i :: 0 <= i < |ops| ==> !Serves(Run(sup, ops[..i]), ops[i], k)
    ensures Takes(ops) <= Position(sup.order, k)
    ensures k in Run(sup, ops).accounts ==> Takes(ops) + Position(Run(sup, ops).order, k) <= Position(sup.order, k)
  {
    hide ReadyToServe, Serves, OrderValid, TakeFair;
    if ops != [] {
      var n := |ops| - 1;
      var before := ops[..n];
      assert forall i :: 0 <= i < n ==> before[..i] == ops[..i] && before[i] == ops[i];
      BoundedWaiting(sup, before, k);
      RunOrderValid(sup, before);
      assert ReadyToServe(Run(sup, ops[..n]), k) && !Serves(Run(sup, ops[..n]), ops[n], k);
      ReadyIsPresent(Run(sup, before), k);
      if ops[n].Take? {
        TakeMovesUp(Run(sup, before), k);
      }
      if k in Run(sup, ops).accounts {
        StepMovesUp(Run(sup, before), ops[n], k);
      }
    }
  }

  lemma ReadyIsPresent(sup: Sup, k: AccountKey)
    requires ReadyToServe(sup, k)
    ensures k in sup.accounts
  {
  }

  /** So an account at index i that stays ready until it is served is served by one of the next i+1 scheduler calls. */
  lemma ServedInTime(sup: Sup, ops: seq<Op>, k: AccountKey)
    requires OrderValid(sup)
    requires forall i :: 0 <= i < |ops| && UnservedBefore(sup, ops, k, i) ==> ReadyToServe(Run(sup, ops[..i]), k)
    requires Takes(ops) > Position(sup.order, k)
    ensures exists i :: 0 <= i < |ops| && Serves(Run(sup, ops[..i]), ops[i], k)
  {
    if forall i :: 0 <= i < |ops| ==> !Serves(Run(sup, ops[..i]), ops[i], k) {
      assert forall i :: 0 <= i < |ops| ==> UnservedBefore(sup, ops, k, i);
      BoundedWaiting(sup, ops, k);
    }
  }

  /** None of the first `n` operations served the account. */
  ghost predicate UnservedBefore(sup: Sup, ops: seq<Op>, k: AccountKey, n: nat)
    requires n <= |ops|
  {
    forall j :: 0 <= j < n ==> !Serves(Run(sup, ops[..j]), ops[j], k)
  }
}
