/** The bounded, persisted replay guard for webhook deliveries.  A flush either replaces the file or
    fails; which one happens is an input. */
module ReplayGuard {
  import opened Seqs
  import Text

  datatype Account = Account(kind: string, id: string)

  datatype Delivery = Delivery(account: Account, id: string)

  datatype Persisted = Persisted(version: nat, accounts: set<Account>, order: seq<Delivery>)

  datatype GuardError = Invalid | UnknownAccount | WebhookReplay | WebhookAuthentication | Persistence

  /** `disk` is absent until the first flush; a guard that is not `durable` never flushes. */
  datatype State = State(
    durable: bool, capacity: nat, accounts: set<Account>, seen: set<Delivery>, order: seq<Delivery>,
    disk: Option<Persisted>)

  predicate ValidAccount(a: Account) {
    !Text.Blank(a.id)
  }

  // ---------------------------------------------------------------- authentication

  datatype Raw = Raw(account: Account, deliveryId: string, receivedAt: int, signature: string, body: seq<int>)

  function Age(a: int, b: int): nat {
    if a >= b then a - b else b - a
  }

  /** `signed` is the verdict of the signature verifier on account, body and signature. */
  function Verify(raw: Raw, now: int, maxBytes: nat, maxSkew: nat, signed: bool): Result<Delivery, GuardError> {
    if !ValidAccount(raw.account) then Err(Invalid)
    else if Text.Blank(raw.deliveryId) || Text.Blank(raw.signature) || raw.body == [] || |raw.body| > maxBytes
            || maxSkew == 0 || Age(now, raw.receivedAt) > maxSkew || !signed then Err(WebhookAuthentication)
    else Ok(Delivery(raw.account, raw.deliveryId))
  }

  /** What authentication guarantees the guard. */
  predicate Wellformed(d: Delivery) {
    ValidAccount(d.account) && !Text.Blank(d.id)
  }

  /** A delivery is verified exactly when it is well formed and signed, its body is not empty and within the bound, and
      it was received within a positive skew of now. */
  lemma VerifiedIff(raw: Raw, now: int, maxBytes: nat, maxSkew: nat, signed: bool)
    ensures Verify(raw, now, maxBytes, maxSkew, signed) == Ok(Delivery(raw.account, raw.deliveryId)) <==>
            && Wellformed(Delivery(raw.account, raw.deliveryId)) && signed && !Text.Blank(raw.signature)
            && 0 < |raw.body| <= maxBytes && 0 < maxSkew && now - maxSkew <= raw.receivedAt <= now + maxSkew
    ensures Verify(raw, now, maxBytes, maxSkew, signed).Ok? ==> Wellformed(Verify(raw, now, maxBytes, maxSkew, signed).value)
  {
  }

  // ---------------------------------------------------------------- operations

  function OfOthers(order: seq<Delivery>, a: Account): seq<Delivery> {
    if order == [] then []
    else (if order[0].account == a then [] else [order[0]]) + OfOthers(order[1..], a)
  }

  /** Commits the tables `next` if the flush succeeds, and keeps the old ones if it does not. */
  function Flushed(s: State, next: State, written: bool): (State, bool) {
    if !s.durable then (next, true)
    else if written then (next.(disk := Some(Persisted(1, next.accounts, next.order))), true)
    else (s, false)
  }

  function Register(s: State, a: Account, written: bool): (State, Result<(), GuardError>) {
    if !ValidAccount(a) then (s, Err(Invalid))
    else
      var (t, ok) := Flushed(s, s.(accounts := s.accounts + {a}), written);
      (t, if ok then Ok(()) else Err(Persistence))
  }

  function Remove(s: State, a: Account, written: bool): (State, Result<(), GuardError>) {
    var order := OfOthers(s.order, a);
    var (t, ok) := Flushed(s, s.(accounts := s.accounts - {a}, order := order, seen := ToSet(order)), written);
    (t, if ok then Ok(()) else Err(Persistence))
  }

  function Admit(s: State, d: Delivery, written: bool): (State, Result<(), GuardError>) {
    if d.account !in s.accounts then (s, Err(UnknownAccount))
    else if d in s.seen then (s, Err(WebhookReplay))
    else
      var order := Newest(s.order + [d], s.capacity);
      var (t, ok) := Flushed(s, s.(order := order, seen := ToSet(order)), written);
      (t, if ok then Ok(()) else Err(Persistence))
  }

  function Fresh(durable: bool, capacity: nat): State {
    State(durable, capacity, {}, {}, [], None)
  }

  /** Reads the file; an absent one counts as empty. */
  function Open(disk: Option<Persisted>, capacity: nat): Option<State> {
    var p := Contents(disk);
    var order := Newest(p.order, capacity);
    if capacity == 0 || p.version != 1 || !Acceptable(order, p.accounts) then None
    else Some(State(true, capacity, p.accounts, ToSet(order), order, disk))
  }

  function Contents(disk: Option<Persisted>): Persisted {
    if disk.Some? then disk.value else Persisted(1, {}, [])
  }

  predicate Acceptable(order: seq<Delivery>, accounts: set<Account>) {
    (forall i, j :: 0 <= i < j < |order| ==> order[i] != order[j])
    && (forall d :: d in order ==> Wellformed(d) && d.account in accounts)
    && (forall a :: a in accounts ==> ValidAccount(a))
  }

  datatype Op =
    | RegisterOp(account: Account, written: bool)
    | RemoveOp(account: Account, written: bool)
    | AdmitOp(delivery: Delivery, written: bool)
    | RestartOp(capacity: nat)

  /** The process stops, and the next one opens the file under its own capacity. */
  function Restart(s: State, capacity: nat): (State, Result<(), GuardError>) {
    if !s.durable || Open(s.disk, capacity).None? then (s, Err(Persistence)) else (Open(s.disk, capacity).value, Ok(()))
  }

  function Step(s: State, op: Op): (State, Result<(), GuardError>) {
    match op
    case RegisterOp(a, w) => Register(s, a, w)
    case RemoveOp(a, w) => Remove(s, a, w)
    case AdmitOp(d, w) => Admit(s, d, w)
    case RestartOp(c) => Restart(s, c)
  }

  function Run(s: State, ops: seq<Op>): State {
    if ops == [] then s else Step(Run(s, ops[..|ops| - 1]), ops[|ops| - 1]).0
  }

  // ---------------------------------------------------------------- what every operation keeps

  /** What a durable guard's file holds: the same accounts, and an acceptable order whose newest entries are those
      remembered. */
  ghost predicate OnDisk(s: State, p: Persisted) {
    p.version == 1 && p.accounts == s.accounts && Acceptable(p.order, p.accounts) && Newest(p.order, s.capacity) == s.order
  }

  ghost predicate Valid(s: State) {
    && s.capacity > 0
    && s.seen == ToSet(s.order) && |s.order| <= s.capacity
    && Acceptable(s.order, s.accounts)
    && (s.disk.Some? ==> s.durable)
    && (s.durable ==> OnDisk(s, Contents(s.disk)))
  }

  /** Only authenticated deliveries reach the guard. */
  predicate Authentic(op: Op) {
    op.AdmitOp? ==> Wellformed(op.delivery)
  }

  lemma {:induction false} OfOthersMembers(order: seq<Delivery>, a: Account)
    ensures forall d :: d in OfOthers(order, a) <==> d in order && d.account != a
    ensures |OfOthers(order, a)| <= |order|
    ensures Distinct(order) ==> Distinct(OfOthers(order, a))
  {
    if order != [] {
      OfOthersMembers(order[1..], a);
      assert forall d :: d in order <==> d == order[0] || d in order[1..];
      var rest := OfOthers(order[1..], a);
      forall i | 0 <= i < |rest|
        ensures rest[i] in order[1..]
      {
        assert rest[i] in rest;
      }
    }
  }

  lemma AdmitAcceptable(order: seq<Delivery>, accounts: set<Account>, d: Delivery, n: nat)
    requires Acceptable(order, accounts) && d !in order && Wellformed(d) && d.account in accounts
    ensures Acceptable(Newest(order + [d], n), accounts)
  {
    var all := order + [d];
    assert forall x :: x in all <==> x in order || x == d;
    assert Distinct(all);
  }

  lemma RegisterKeeps(s: State, a: Account, written: bool)
    requires Valid(s)
    ensures Valid(Register(s, a, written).0)
  {
  }

  lemma RemoveKeeps(s: State, a: Account, written: bool)
    requires Valid(s)
    ensures Valid(Remove(s, a, written).0)
  {
    OfOthersMembers(s.order, a);
  }

  lemma AdmitKeeps(s: State, d: Delivery, written: bool)
    requires Valid(s) && Wellformed(d)
    ensures Valid(Admit(s, d, written).0)
  {
    if d.account in s.accounts && d !in s.seen {
      AdmitAcceptable(s.order, s.accounts, d, s.capacity);
      hide Acceptable;
    }
  }

  lemma RestartKeeps(s: State, capacity: nat)
    requires Valid(s)
    ensures Valid(Restart(s, capacity).0)
  {
    SuffixAcceptable(Contents(s.disk).order, Contents(s.disk).accounts, capacity);
    hide Acceptable;
  }

  /** The remembered set is the set of the order, without repetition and within capacity; the newest entries of the file
      are the same; an operation that does not succeed changes nothing. */
  lemma StepKeeps(s: State, op: Op)
    requires Valid(s) && Authentic(op)
    ensures Valid(Step(s, op).0)
    ensures Step(s, op).1.Err? ==> Step(s, op).0 == s
    ensures Step(s, op).0.durable == s.durable
    ensures Step(s, op).0.capacity == if op.RestartOp? && Step(s, op).1.Ok? then op.capacity else s.capacity
  {
    hide Valid, Wellformed, Acceptable, Newest, OfOthers;
    match op
    case RegisterOp(a, written) => RegisterKeeps(s, a, written);
    case RemoveOp(a, written) => RemoveKeeps(s, a, written);
    case AdmitOp(d, written) => AdmitKeeps(s, d, written);
    case RestartOp(c) => RestartKeeps(s, c);
  }

  lemma {:induction false} RunKeeps(s: State, ops: seq<Op>)
    requires Valid(s) && forall i :: 0 <= i < |ops| ==> Authentic(ops[i])
    ensures Valid(Run(s, ops)) && Run(s, ops).durable == s.durable
  {
    if ops != [] {
      RunKeeps(s, ops[..|ops| - 1]);
      StepKeeps(Run(s, ops[..|ops| - 1]), ops[|ops| - 1]);
    }
  }

  /** Whatever a durable guard has come to in a run, restarts included, opening its file succeeds under any positive
      capacity, restores the same accounts, and remembers the newest deliveries: of those remembered before under a
      smaller capacity, and all of those under a larger one. */
  lemma ReopenRestores(capacity: nat, ops: seq<Op>, reopened: nat)
    requires capacity > 0 && reopened > 0 && forall i :: 0 <= i < |ops| ==> Authentic(ops[i])
    ensures var s := Run(Fresh(true, capacity), ops);
            var r := Open(s.disk, reopened);
            && r.Some? && Valid(r.value) && r.value.accounts == s.accounts && r.value.capacity == reopened
            && (reopened <= s.capacity ==> r.value.order == Newest(s.order, reopened))
            && (reopened >= s.capacity ==> s.order == Newest(r.value.order, s.capacity))
  {
    RunKeeps(Fresh(true, capacity), ops);
    var s := Run(Fresh(true, capacity), ops);
    var order := Contents(s.disk).order;
    SuffixAcceptable(order, s.accounts, reopened);
    if reopened <= s.capacity {
      NewestOfNewest(order, s.capacity, reopened);
    } else {
      NewestOfNewest(order, reopened, s.capacity);
    }
  }

  lemma NewestOfNewest(order: seq<Delivery>, n: nat, m: nat)
    requires m <= n
    ensures Newest(Newest(order, n), m) == Newest(order, m)
  {
  }

  lemma SuffixAcceptable(order: seq<Delivery>, accounts: set<Account>, n: nat)
    requires Acceptable(order, accounts)
    ensures Acceptable(Newest(order, n), accounts)
  {
    assert forall d :: d in Newest(order, n) ==> d in order;
  }

  // ---------------------------------------------------------------- replays

  /** Admissions of a run that succeeded. */
  function Admissions(s: State, ops: seq<Op>): nat {
    if ops == [] then 0
    else
      var before, op := ops[..|ops| - 1], ops[|ops| - 1];
      Admissions(s, before) + if op.AdmitOp? && Step(Run(s, before), op).1.Ok? then 1 else 0
  }

  predicate Removes(op: Op, a: Account) {
    op.RemoveOp? && op.account == a
  }

  /** How many remembered deliveries are newer than `d`. */
  function NewerThan(order: seq<Delivery>, d: Delivery): nat {
    if order == [] || order[|order| - 1] == d then 0 else 1 + NewerThan(order[..|order| - 1], d)
  }

  lemma {:induction false} NewerFound(order: seq<Delivery>, d: Delivery)
    requires d in order
    ensures NewerThan(order, d) < |order| && order[|order| - 1 - NewerThan(order, d)] == d
  {
    if order[|order| - 1] != d {
      NewerFound(order[..|order| - 1], d);
    }
  }

  lemma {:induction false} OthersNewer(order: seq<Delivery>, a: Account, d: Delivery)
    requires d in order && d.account != a
    ensures NewerThan(OfOthers(order, a), d) <= NewerThan(order, d)
  {
    var n := |order| - 1;
    OfOthersBack(order, a);
    var kept := OfOthers(order[..n], a);
    if order[n].account != a {
      var rest := kept + [order[n]];
      assert OfOthers(order, a) == rest && rest[..|rest| - 1] == kept && rest[|rest| - 1] == order[n];
    } else {
      assert OfOthers(order, a) == kept;
    }
    if order[n] != d {
      assert d in order[..n];
      OthersNewer(order[..n], a, d);
    }
  }

  lemma {:induction false} OfOthersBack(order: seq<Delivery>, a: Account)
    requires order != []
    ensures var n := |order| - 1;
            OfOthers(order, a) == OfOthers(order[..n], a) + if order[n].account == a then [] else [order[n]]
  {
    var n := |order| - 1;
    if n > 0 {
      OfOthersBack(order[1..], a);
      assert order[1..][..n - 1] == order[..n][1..];
    }
  }

  lemma AdmitNewer(order: seq<Delivery>, d: Delivery, x: Delivery, n: nat)
    requires d in order && x != d && NewerThan(order, d) + 1 < n
    ensures d in Newest(order + [x], n) && NewerThan(Newest(order + [x], n), d) == NewerThan(order, d) + 1
  {
    var all := order + [x];
    assert all[..|all| - 1] == order;
    NewerFound(order, d);
    NewestNewer(all, d, n);
  }

  lemma NewestSnoc(front: seq<Delivery>, last: Delivery, n: nat)
    requires n > 0
    ensures Newest(front + [last], n) == Newest(front, n - 1) + [last]
  {
  }

  lemma {:induction false} NewestNewer(order: seq<Delivery>, d: Delivery, n: nat)
    requires d in order && NewerThan(order, d) < n
    ensures d in Newest(order, n) && NewerThan(Newest(order, n), d) == NewerThan(order, d)
  {
    var front, last := order[..|order| - 1], order[|order| - 1];
    NewestSnoc(front, last, n);
    assert order == front + [last];
    hide Newest;
    if last != d {
      NewestNewer(front, d, n - 1);
    }
  }

  lemma {:induction false} NewerSuffix(older: seq<Delivery>, s: seq<Delivery>, d: Delivery)
    requires d in s
    ensures NewerThan(older + s, d) == NewerThan(s, d)
  {
    hide NewerThan;
    var front, last := s[..|s| - 1], s[|s| - 1];
    assert s == front + [last] && older + s == (older + front) + [last];
    NewerSnoc(front, last, d);
    NewerSnoc(older + front, last, d);
    if last != d {
      NewerSuffix(older, front, d);
    }
  }

  lemma NewestHas(order: seq<Delivery>, d: Delivery, n: nat)
    requires d in Newest(order, n)
    ensures d in order && NewerThan(order, d) == NewerThan(Newest(order, n), d) < n
  {
    hide NewerThan;
    var s := Newest(order, n);
    assert order == order[..|order| - |s|] + s;
    NewerSuffix(order[..|order| - |s|], s, d);
    NewerFound(s, d);
  }

  lemma NewerSnoc(front: seq<Delivery>, last: Delivery, d: Delivery)
    ensures NewerThan(front + [last], d) == if last == d then 0 else 1 + NewerThan(front, d)
  {
    assert (front + [last])[..|front|] == front;
  }

  /** Every capacity in use is at least `least`. */
  predicate Roomy(op: Op, least: nat) {
    op.RestartOp? ==> least <= op.capacity
  }

  lemma RestartRemembers(s: State, capacity: nat, d: Delivery)
    requires Valid(s) && d in s.seen && NewerThan(s.order, d) < capacity
    ensures var t := Restart(s, capacity).0; d in t.seen && NewerThan(t.order, d) == NewerThan(s.order, d)
  {
    hide Acceptable, NewerThan, Newest;
    if Restart(s, capacity).1.Ok? {
      var order := Contents(s.disk).order;
      NewestHas(order, d, s.capacity);
      NewestNewer(order, d, capacity);
    }
  }

  lemma StepRemembers(s: State, op: Op, d: Delivery, least: nat)
    requires Valid(s) && Authentic(op) && d in s.seen && least <= s.capacity && Roomy(op, least)
    requires !(Removes(op, d.account) && Step(s, op).1.Ok?)
    requires NewerThan(s.order, d) + (if op.AdmitOp? && Step(s, op).1.Ok? then 1 else 0) < least
    ensures d in Step(s, op).0.seen
    ensures NewerThan(Step(s, op).0.order, d) <=
            NewerThan(s.order, d) + (if op.AdmitOp? && Step(s, op).1.Ok? then 1 else 0)
  {
    match op
    case RegisterOp(_, _) =>
    case RestartOp(c) => RestartRemembers(s, c, d);
    case RemoveOp(a, _) =>
      OfOthersMembers(s.order, a);
      if a != d.account {
        OthersNewer(s.order, a, d);
      }
    case AdmitOp(x, _) =>
      if Step(s, op).1.Ok? {
        AdmitNewer(s.order, d, x, s.capacity);
      }
  }

  lemma {:induction false} RunRemembers(s: State, ops: seq<Op>, d: Delivery, least: nat)
    requires Valid(s) && least <= s.capacity
    requires forall i :: 0 <= i < |ops| ==> Authentic(ops[i]) && Roomy(ops[i], least)
    requires forall i :: 0 <= i < |ops| && Removes(ops[i], d.account) ==> !Succeeds(s, ops, i)
    requires d in s.seen && NewerThan(s.order, d) + Admissions(s, ops) < least
    ensures d in Run(s, ops).seen && NewerThan(Run(s, ops).order, d) <= NewerThan(s.order, d) + Admissions(s, ops)
    ensures d.account in Run(s, ops).accounts && least <= Run(s, ops).capacity
  {
    hide NewerThan, Step;
    RunKeeps(s, ops);
    hide Valid;
    if ops != [] {
      var n := |ops| - 1;
      var before := ops[..n];
      forall i | 0 <= i < n && Removes(before[i], d.account)
        ensures !Succeeds(s, before, i)
      {
        assert before[..i] == ops[..i] && !Succeeds(s, ops, i);
      }
      RunRemembers(s, before, d, least);
      RunKeeps(s, before);
      StepKeeps(Run(s, before), ops[n]);
      assert Removes(ops[n], d.account) ==> !Succeeds(s, ops, n);
      StepRemembers(Run(s, before), ops[n], d, least);
    }
  }

  lemma AdmittedIsNewest(s: State, d: Delivery, written: bool)
    requires Valid(s) && Wellformed(d) && Admit(s, d, written).1.Ok?
    ensures var t := Admit(s, d, written).0;
            Valid(t) && d in t.seen && NewerThan(t.order, d) == 0 && t.capacity == s.capacity
  {
    StepKeeps(s, AdmitOp(d, written));
    var t := Admit(s, d, written).0;
    assert t.order[|t.order| - 1] == d;
  }

  /** A delivery that was admitted is refused as a replay as long as no removal of its account succeeds and fewer
      admissions follow than the least capacity in use, through failed flushes, failed removals, other accounts' removals
      and restarts. */
  lemma ReplayRefused(s: State, d: Delivery, written: bool, ops: seq<Op>, least: nat, again: bool)
    requires Valid(s) && Wellformed(d) && least <= s.capacity && Admit(s, d, written).1.Ok?
    requires forall i :: 0 <= i < |ops| ==> Authentic(ops[i]) && Roomy(ops[i], least)
    requires forall i :: 0 <= i < |ops| && Removes(ops[i], d.account) ==> !Succeeds(Admit(s, d, written).0, ops, i)
    requires Admissions(Admit(s, d, written).0, ops) < least
    ensures Admit(Run(Admit(s, d, written).0, ops), d, again).1 == Err(WebhookReplay)
  {
    hide Valid, NewerThan;
    AdmittedIsNewest(s, d, written);
    RunRemembers(Admit(s, d, written).0, ops, d, least);
  }

  predicate Succeeds(s: State, ops: seq<Op>, i: nat)
    requires i < |ops|
  {
    Step(Run(s, ops[..i]), ops[i]).1.Ok?
  }

  /** In memory, or only in the file, from where a later restart may bring it back. */
  predicate Known(s: State, d: Delivery) {
    d in s.seen || d in Contents(s.disk).order
  }

  lemma SeenOrigin(s: State, op: Op, d: Delivery)
    requires Valid(s) && Authentic(op) && Known(Step(s, op).0, d)
    ensures (Known(s, d) && !(Removes(op, d.account) && Step(s, op).1.Ok?))
            || (op.AdmitOp? && op.delivery == d && Step(s, op).1.Ok?)
  {
    hide Acceptable;
    if op.RemoveOp? {
      OfOthersMembers(s.order, op.account);
    }
  }

  /** Operation `i` admitted `d`, and no later one of `ops` removed its account. */
  ghost predicate AdmittedAt(s: State, ops: seq<Op>, i: nat, d: Delivery) {
    && i < |ops| && ops[i].AdmitOp? && ops[i].delivery == d && Succeeds(s, ops, i)
    && forall j :: i < j < |ops| && Removes(ops[j], d.account) ==> !Succeeds(s, ops, j)
  }

  lemma AdmittedBefore(s: State, ops: seq<Op>, i: nat, d: Delivery)
    requires ops != [] && AdmittedAt(s, ops[..|ops| - 1], i, d)
    requires !(Removes(ops[|ops| - 1], d.account) && Succeeds(s, ops, |ops| - 1))
    ensures AdmittedAt(s, ops, i, d)
  {
    var before := ops[..|ops| - 1];
    assert forall j :: 0 <= j < |before| ==> before[..j] == ops[..j] && before[j] == ops[j];
    forall j | i < j < |ops| && Removes(ops[j], d.account)
      ensures !Succeeds(s, ops, j)
    {
      if j < |before| {
        assert !Succeeds(s, before, j);
      }
    }
  }

  /** And only such a delivery is refused: whatever is remembered, in memory or on disk, was admitted, and its account has
      not been removed since. */
  lemma {:induction false} RefusedWasAdmitted(durable: bool, capacity: nat, ops: seq<Op>, d: Delivery) returns (i: nat)
    requires capacity > 0 && forall j :: 0 <= j < |ops| ==> Authentic(ops[j])
    requires Known(Run(Fresh(durable, capacity), ops), d)
    ensures AdmittedAt(Fresh(durable, capacity), ops, i, d)
  {
    var s := Fresh(durable, capacity);
    var n := |ops| - 1;
    RunKeeps(s, ops[..n]);
    SeenOrigin(Run(s, ops[..n]), ops[n], d);
    if ops[n].AdmitOp? && ops[n].delivery == d && Succeeds(s, ops, n) {
      i := n;
    } else {
      i := RefusedWasAdmitted(durable, capacity, ops[..n], d);
      AdmittedBefore(s, ops, i, d);
    }
  }

  /** The write of the operation succeeds, if there is a file to write. */
  predicate Lasting(durable: bool, op: Op) {
    !op.RestartOp? && (!durable || op.written)
  }

  /** Operation `i` registers the account, under a name that is not blank, and no later one of `ops` removes it. */
  ghost predicate RegisteredAt(durable: bool, ops: seq<Op>, i: nat, a: Account) {
    && i < |ops| && ops[i].RegisterOp? && ops[i].account == a && Lasting(durable, ops[i]) && !Text.Blank(a.id)
    && forall j :: i < j < |ops| ==> !(Removes(ops[j], a) && Lasting(durable, ops[j]))
  }

  lemma AccountOrigin(s: State, op: Op, a: Account)
    requires Valid(s)
    ensures a in Step(s, op).0.accounts <==>
            || (op.RegisterOp? && op.account == a && Lasting(s.durable, op) && !Text.Blank(a.id))
            || (a in s.accounts && !(Removes(op, a) && Lasting(s.durable, op)))
  {
    hide Acceptable, Newest, OfOthers;
  }

  lemma RegisteredBefore(durable: bool, ops: seq<Op>, a: Account)
    requires ops != [] && !(Removes(ops[|ops| - 1], a) && Lasting(durable, ops[|ops| - 1]))
    ensures var n := |ops| - 1;
            (exists i :: RegisteredAt(durable, ops, i, a)) <==>
            (exists i :: RegisteredAt(durable, ops[..n], i, a))
            || (ops[n].RegisterOp? && ops[n].account == a && Lasting(durable, ops[n]) && !Text.Blank(a.id))
  {
    hide Lasting, Text.Blank;
    var n := |ops| - 1;
    var before := ops[..n];
    if i: nat :| RegisteredAt(durable, ops, i, a) {
      assert i < n ==> RegisteredAt(durable, before, i, a);
    }
    if i: nat :| RegisteredAt(durable, before, i, a) {
      assert RegisteredAt(durable, ops, i, a);
    }
    if ops[n].RegisterOp? && ops[n].account == a && Lasting(durable, ops[n]) && !Text.Blank(a.id) {
      assert RegisteredAt(durable, ops, n, a);
    }
  }

  /** The accounts are those that the run registered and did not remove again. */
  lemma {:induction false} RegisteredIff(durable: bool, capacity: nat, ops: seq<Op>, a: Account)
    requires capacity > 0 && forall j :: 0 <= j < |ops| ==> Authentic(ops[j])
    ensures a in Run(Fresh(durable, capacity), ops).accounts <==> exists i :: RegisteredAt(durable, ops, i, a)
  {
    var s := Fresh(durable, capacity);
    if ops == [] {
      assert forall i: nat :: !RegisteredAt(durable, ops, i, a);
    } else {
      var n := |ops| - 1;
      var before := ops[..n];
      RunKeeps(s, before);
      RegisteredIff(durable, capacity, before, a);
      AccountOrigin(Run(s, before), ops[n], a);
      hide Step, Valid, Authentic, Lasting, Text.Blank;
      if Removes(ops[n], a) && Lasting(durable, ops[n]) {
        assert forall i: nat :: !RegisteredAt(durable, ops, i, a);
      } else {
        RegisteredBefore(durable, ops, a);
      }
    }
  }

  /** An account is registered, again or for the first time, unless its name is blank or the write fails; it is removed,
      known or not, unless the write fails. */
  lemma ChangeAnswers(s: State, a: Account, written: bool)
    ensures Register(s, a, written).1 ==
            if Text.Blank(a.id) then Err(Invalid) else if s.durable && !written then Err(Persistence) else Ok(())
    ensures Remove(s, a, written).1 == if s.durable && !written then Err(Persistence) else Ok(())
  {
  }

  /** What a run answers to a delivery: an account that it did not register is unknown, only what it admitted is refused
      as a replay, and anything else is admitted when the write succeeds. */
  lemma AnswerOverRuns(durable: bool, capacity: nat, ops: seq<Op>, d: Delivery, written: bool)
    requires capacity > 0 && forall j :: 0 <= j < |ops| ==> Authentic(ops[j])
    ensures var s := Fresh(durable, capacity);
            var answer := Admit(Run(s, ops), d, written).1;
            && (answer == Err(UnknownAccount) <==> forall i: nat :: !RegisteredAt(durable, ops, i, d.account))
            && (answer == Err(WebhookReplay) ==> exists i :: AdmittedAt(s, ops, i, d))
            && (answer != Err(UnknownAccount) && (forall i: nat :: !AdmittedAt(s, ops, i, d)) ==>
                  answer == if durable && !written then Err(Persistence) else Ok(()))
  {
    var s := Fresh(durable, capacity);
    RegisteredIff(durable, capacity, ops, d.account);
    RunKeeps(s, ops);
    hide RegisteredAt, AdmittedAt, Run, Valid, Authentic;
    if d in Run(s, ops).seen {
      var i := RefusedWasAdmitted(durable, capacity, ops, d);
    }
  }

  // ---------------------------------------------------------------- the guard itself

  lemma RetainedOthers(order: seq<Delivery>, a: Account)
    ensures (set d | d in ToSet(order) && d.account != a) == ToSet(OfOthers(order, a))
  {
    OfOthersMembers(order, a);
  }

  class WebhookIngressRouter {
    const durable: bool
    const capacity: nat
    var accounts: set<Account>
    var seen: set<Delivery>
    var order: seq<Delivery>
    var disk: Option<Persisted>

    ghost function View(): State
      reads this
    {
      State(durable, capacity, accounts, seen, order, disk)
    }

    constructor (s: State)
      ensures View() == s
    {
      durable, capacity := s.durable, s.capacity;
      accounts, seen, order, disk := s.accounts, s.seen, s.order, s.disk;
    }

    method Flush(written: bool) returns (ok: bool)
      modifies this`disk
      ensures ok == (!durable || written)
      ensures disk == if durable && written then Some(Persisted(1, accounts, order)) else old(disk)
    {
      if durable && written {
        disk := Some(Persisted(1, accounts, order));
      }
      ok := !durable || written;
    }

    method RegisterAccount(a: Account, written: bool) returns (out: Result<(), GuardError>)
      requires Valid(View())
      modifies this
      ensures (View(), out) == Register(old(View()), a, written)
    {
      if !ValidAccount(a) { return Err(Invalid); }
      var inserted := a !in accounts;
      accounts := accounts + {a};
      var ok := Flush(written);
      if !ok {
        if inserted { accounts := accounts - {a}; }
        assert accounts == old(accounts);
        return Err(Persistence);
      }
      out := Ok(());
    }

    method RemoveAccount(a: Account, written: bool) returns (out: Result<(), GuardError>)
      requires Valid(View())
      modifies this
      ensures (View(), out) == Remove(old(View()), a, written)
    {
      hide Acceptable;
      var removed, oldSeen, oldOrder := a in accounts, seen, order;
      RetainedOthers(order, a);
      accounts := accounts - {a};
      seen := set d | d in seen && d.account != a;
      order := OfOthers(order, a);
      var ok := Flush(written);
      if !ok {
        if removed { accounts := accounts + {a}; }
        assert accounts == old(accounts);
        seen, order := oldSeen, oldOrder;
        return Err(Persistence);
      }
      out := Ok(());
    }

    /** Remembers one delivery, forgetting the oldest beyond the capacity. */
    method Push(d: Delivery)
      requires capacity > 0 && |order| <= capacity && Distinct(order) && seen == ToSet(order) && d !in seen
      modifies this`seen, this`order
      ensures order == Newest(old(order) + [d], capacity) && seen == ToSet(order)
    {
      ghost var all := order + [d];
      seen := seen + {d};
      order := order + [d];
      while |order| > capacity
        invariant order == all || order == Newest(all, capacity)
        invariant |all| <= capacity + 1 && Distinct(all) && seen == ToSet(order)
      {
        OldestExpires(order);
        var expired := order[0];
        order := order[1..];
        seen := seen - {expired};
      }
    }

    method AdmitDelivery(d: Delivery, written: bool) returns (out: Result<(), GuardError>)
      requires Valid(View())
      modifies this
      ensures (View(), out) == Admit(old(View()), d, written)
    {
      if d.account !in accounts { return Err(UnknownAccount); }
      var oldOrder, oldSeen := order, seen;
      if d in seen { return Err(WebhookReplay); }
      Push(d);
      var ok := Flush(written);
      if !ok {
        order, seen := oldOrder, oldSeen;
        return Err(Persistence);
      }
      out := Ok(());
    }
  }

  /** Drops the oldest entries until the capacity is met. */
  method Trim(all: seq<Delivery>, capacity: nat) returns (order: seq<Delivery>)
    ensures order == Newest(all, capacity)
  {
    order := all;
    while |order| > capacity
      invariant |order| <= |all| && order == all[|all| - |order|..]
      invariant |order| >= Min(|all|, capacity)
    {
      order := order[1..];
    }
  }

  /** Checks the entries one by one, collecting them as a set. */
  method Check(order: seq<Delivery>, accounts: set<Account>) returns (out: Result<set<Delivery>, GuardError>)
    ensures out.Ok? <==> Distinct(order) && forall d :: d in order ==> Wellformed(d) && d.account in accounts
    ensures out.Ok? ==> out.value == ToSet(order)
  {
    var seen: set<Delivery> := {};
    for i := 0 to |order|
      invariant forall d :: d in seen <==> d in order[..i]
      invariant Distinct(order[..i])
      invariant forall d :: d in order[..i] ==> Wellformed(d) && d.account in accounts
    {
      var d := order[i];
      assert order[..i + 1] == order[..i] + [d];
      if !ValidAccount(d.account) { return Err(Invalid); }
      if Text.Blank(d.id) || d.account !in accounts { return Err(Persistence); }
      if d in seen {
        ghost var j :| 0 <= j < i && order[..i][j] == d;
        assert order[j] == order[i];
        return Err(Persistence);
      }
      seen := seen + {d};
    }
    assert order[..|order|] == order;
    out := Ok(seen);
  }

  /** Reading the file entry by entry accepts exactly the well-formed, registered, repetition-free ones. */
  method OpenFile(disk: Option<Persisted>, capacity: nat) returns (out: Result<State, GuardError>)
    ensures out.Ok? <==> Open(disk, capacity).Some?
    ensures out.Ok? ==> Some(out.value) == Open(disk, capacity)
    ensures var p := if disk.Some? then disk.value else Persisted(1, {}, []);
            var kept := if |p.order| > capacity then p.order[|p.order| - capacity..] else p.order;
            && (out.Ok? <==>
                  && capacity > 0 && p.version == 1 && Distinct(kept)
                  && (forall d :: d in kept ==> !Text.Blank(d.account.id) && !Text.Blank(d.id) && d.account in p.accounts)
                  && forall a :: a in p.accounts ==> !Text.Blank(a.id))
            && (out.Ok? ==> out.value == State(true, capacity, p.accounts, ToSet(kept), kept, disk))
  {
    var p := Contents(disk);
    if capacity == 0 || p.version != 1 { return Err(Persistence); }
    var order := Trim(p.order, capacity);
    var seen := Check(order, p.accounts);
    if seen.Err? { return Err(seen.error); }
    if a :| a in p.accounts && !ValidAccount(a) { return Err(Invalid); }
    out := Ok(State(true, capacity, p.accounts, seen.value, order, disk));
  }
}
