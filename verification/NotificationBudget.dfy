/** The fixed-window budget for proactive notifications of one account, with failing writes and
    restarts.  `memory` is the supervisor's record, `stored` the copy a restart reads. */
module NotificationBudget {
  import opened Seqs

  const I64_MAX: int := 0x7FFF_FFFF_FFFF_FFFF

  datatype Settings = Settings(capacity: nat, window: nat)

  datatype Budget = Budget(remaining: nat, resetsAt: int)

  datatype Sys = Sys(memory: Budget, stored: Budget)

  datatype BudgetError = MissingRoute | ProactivePostDenied | Exhausted | Persistence

  /** `route` is the enabled route asked for, if any, with its permission for proactive posts. */
  datatype Op =
    | Reserve(now: int, route: Option<bool>, written: bool)
    | OtherWrite(now: int, written: bool)
    | Restart(now: int)

  function Deadline(now: int, window: nat): int {
    Min(now + Min(window, I64_MAX), I64_MAX)
  }

  function Refresh(c: Settings, b: Budget, now: int): Budget {
    if now >= b.resetsAt then Budget(c.capacity, Deadline(now, c.window))
    else b.(remaining := Min(b.remaining, c.capacity))
  }

  function ReserveOne(c: Settings, s: Sys, now: int, route: Option<bool>, written: bool): (Sys, Result<nat, BudgetError>) {
    if route.None? then (s, Err(MissingRoute))
    else if !route.value then (s, Err(ProactivePostDenied))
    else
      var b := Refresh(c, s.memory, now);
      if b.remaining == 0 then (s.(memory := b), Err(Exhausted))
      else
        var spent := b.(remaining := b.remaining - 1);
        if written then (Sys(spent, spent), Ok(spent.remaining)) else (s.(memory := spent), Err(Persistence))
  }

  function Step(c: Settings, s: Sys, op: Op): Sys {
    match op
    case Reserve(now, route, written) => ReserveOne(c, s, now, route, written).0
    case OtherWrite(_, written) => if written then s.(stored := s.memory) else s
    case Restart(now) => s.(memory := Refresh(c, s.stored, now))
  }

  function Run(c: Settings, s: Sys, ops: seq<Op>): Sys {
    if ops == [] then s else Step(c, Run(c, s, ops[..|ops| - 1]), ops[|ops| - 1])
  }

  /** A reservation that was granted: when, and the end of the window it was charged to. */
  datatype Grant = Grant(time: int, window: int)

  function Granted(c: Settings, s: Sys, op: Op): seq<Grant> {
    if op.Reserve? && ReserveOne(c, s, op.now, op.route, op.written).1.Ok? then
      [Grant(op.now, Step(c, s, op).memory.resetsAt)]
    else []
  }

  function Grants(c: Settings, s: Sys, ops: seq<Op>): seq<Grant> {
    if ops == [] then []
    else Grants(c, s, ops[..|ops| - 1]) + Granted(c, Run(c, s, ops[..|ops| - 1]), ops[|ops| - 1])
  }

  function Charged(grants: seq<Grant>, window: int): nat {
    if grants == [] then 0
    else Charged(grants[..|grants| - 1], window) + if grants[|grants| - 1].window == window then 1 else 0
  }

  function Within(grants: seq<Grant>, from: int, length: nat): nat {
    if grants == [] then 0
    else Within(grants[..|grants| - 1], from, length)
         + if from <= grants[|grants| - 1].time < from + length then 1 else 0
  }

  // ---------------------------------------------------------------- assumptions on a run

  ghost predicate Valid(c: Settings) {
    c.capacity > 0 && 0 < c.window <= I64_MAX
  }

  /** Time does not go back and stays clear of the end of the clock. */
  ghost predicate Clock(c: Settings, start: int, ops: seq<Op>) {
    (forall i :: 0 <= i < |ops| ==> start <= ops[i].now && ops[i].now + c.window <= I64_MAX)
    && forall i, j :: 0 <= i < j < |ops| ==> ops[i].now <= ops[j].now
  }

  // ---------------------------------------------------------------- the invariant

  /** Windows do not overlap. */
  ghost predicate Apart(c: Settings, a: int, b: int) {
    a == b || b >= a + c.window
  }

  function Left(c: Settings, b: Budget): int {
    Min(b.remaining, c.capacity)
  }

  ghost predicate GrantsValid(c: Settings, s: Sys, grants: seq<Grant>) {
    && (forall g :: g in grants ==> g.window - c.window <= g.time < g.window && Apart(c, g.window, s.stored.resetsAt))
    && (forall i, j :: 0 <= i < j < |grants| ==> Apart(c, grants[i].window, grants[j].window))
  }

  ghost predicate Inv(c: Settings, s: Sys, grants: seq<Grant>, clock: int) {
    && GrantsValid(c, s, grants)
    && Apart(c, s.stored.resetsAt, s.memory.resetsAt) && s.memory.resetsAt <= clock + c.window
    && (forall w :: Charged(grants, w) <= c.capacity)
    && Charged(grants, s.stored.resetsAt) + Left(c, s.stored) <= c.capacity
    && Charged(grants, s.memory.resetsAt) + Left(c, s.memory) <= c.capacity
  }

  lemma {:induction false} NoneCharged(grants: seq<Grant>, w: int)
    requires forall g :: g in grants ==> g.window != w
    ensures Charged(grants, w) == 0
  {
    if grants != [] {
      NoneCharged(grants[..|grants| - 1], w);
    }
  }

  lemma NewWindowUncharged(c: Settings, s: Sys, grants: seq<Grant>, w: int)
    requires Valid(c) && GrantsValid(c, s, grants) && w > s.stored.resetsAt
    ensures Charged(grants, w) == 0
  {
    NoneCharged(grants, w);
  }

  lemma RefreshKeeps(c: Settings, s: Sys, grants: seq<Grant>, from: Budget, now: int)
    requires Valid(c) && now + c.window <= I64_MAX
    requires GrantsValid(c, s, grants) && Apart(c, s.stored.resetsAt, from.resetsAt)
    requires from.resetsAt <= now + c.window
    requires Charged(grants, from.resetsAt) + Left(c, from) <= c.capacity
    ensures var b := Refresh(c, from, now);
            && now < b.resetsAt <= now + c.window && b.remaining <= c.capacity
            && Apart(c, s.stored.resetsAt, b.resetsAt)
            && Charged(grants, b.resetsAt) + b.remaining <= c.capacity
  {
    if now >= from.resetsAt {
      NewWindowUncharged(c, s, grants, now + c.window);
    }
  }

  lemma GrantKeeps(c: Settings, s: Sys, grants: seq<Grant>, clock: int, now: int)
    requires Valid(c) && clock <= now && now + c.window <= I64_MAX && Inv(c, s, grants, clock)
    requires Refresh(c, s.memory, now).remaining > 0
    ensures var b := Refresh(c, s.memory, now);
            var spent := b.(remaining := b.remaining - 1);
            Inv(c, Sys(spent, spent), grants + [Grant(now, b.resetsAt)], now)
  {
    RefreshKeeps(c, s, grants, s.memory, now);
    hide Refresh;
    var b := Refresh(c, s.memory, now);
    var more := grants + [Grant(now, b.resetsAt)];
    assert more[..|more| - 1] == grants;
    forall g | g in grants
      ensures Apart(c, g.window, b.resetsAt)
    {
      assert Apart(c, g.window, s.stored.resetsAt);
    }
    forall w
      ensures Charged(more, w) <= c.capacity
    {
      assert Charged(grants, w) <= c.capacity;
    }
  }

  /** The window moved on in memory only, and at most lost what it had left. */
  lemma MemoryKeeps(c: Settings, s: Sys, grants: seq<Grant>, clock: int, now: int, remaining: nat)
    requires Valid(c) && clock <= now && now + c.window <= I64_MAX && Inv(c, s, grants, clock)
    requires remaining <= Refresh(c, s.memory, now).remaining
    ensures Inv(c, s.(memory := Refresh(c, s.memory, now).(remaining := remaining)), grants, now)
  {
    RefreshKeeps(c, s, grants, s.memory, now);
    hide Charged, GrantsValid, Refresh;
  }

  lemma LaterKeeps(c: Settings, s: Sys, grants: seq<Grant>, clock: int, now: int)
    requires Inv(c, s, grants, clock) && clock <= now
    ensures Inv(c, s, grants, now)
  {
    hide Charged, GrantsValid, Apart;
  }

  lemma ReserveKeeps(c: Settings, s: Sys, grants: seq<Grant>, clock: int, op: Op)
    requires Valid(c) && clock <= op.now && op.now + c.window <= I64_MAX && Inv(c, s, grants, clock)
    requires op.Reserve?
    ensures Inv(c, Step(c, s, op), grants + Granted(c, s, op), op.now)
  {
    hide Inv, Refresh;
    var b := Refresh(c, s.memory, op.now);
    assert grants + [] == grants;
    if op.route != Some(true) {
      LaterKeeps(c, s, grants, clock, op.now);
    } else if b.remaining > 0 && op.written {
      GrantKeeps(c, s, grants, clock, op.now);
    } else {
      MemoryKeeps(c, s, grants, clock, op.now, if b.remaining == 0 then 0 else b.remaining - 1);
    }
  }

  lemma WriteKeeps(c: Settings, s: Sys, grants: seq<Grant>, clock: int, now: int)
    requires Valid(c) && clock <= now && Inv(c, s, grants, clock)
    ensures Inv(c, s.(stored := s.memory), grants, now)
  {
    forall g | g in grants
      ensures Apart(c, g.window, s.memory.resetsAt)
    {
      assert Apart(c, g.window, s.stored.resetsAt);
    }
  }

  lemma StepKeeps(c: Settings, s: Sys, grants: seq<Grant>, clock: int, op: Op)
    requires Valid(c) && clock <= op.now && op.now + c.window <= I64_MAX && Inv(c, s, grants, clock)
    ensures Inv(c, Step(c, s, op), grants + Granted(c, s, op), op.now)
  {
    if op.Reserve? {
      ReserveKeeps(c, s, grants, clock, op);
    } else {
      assert Granted(c, s, op) == [] && grants + [] == grants;
      if op.Restart? {
        RefreshKeeps(c, s, grants, s.stored, op.now);
      } else if op.written {
        WriteKeeps(c, s, grants, clock, op.now);
      }
    }
  }

  lemma {:induction false} RunKeeps(c: Settings, b: Budget, start: int, ops: seq<Op>)
    requires Valid(c) && Clock(c, start, ops) && b.resetsAt <= start + c.window
    ensures var clock := if ops == [] then start else ops[|ops| - 1].now;
            Inv(c, Run(c, Sys(b, b), ops), Grants(c, Sys(b, b), ops), clock)
  {
    if ops != [] {
      var before := ops[..|ops| - 1];
      RunKeeps(c, b, start, before);
      var clock := if before == [] then start else before[|before| - 1].now;
      StepKeeps(c, Run(c, Sys(b, b), before), Grants(c, Sys(b, b), before), clock, ops[|ops| - 1]);
    }
  }

  // ---------------------------------------------------------------- the limits

  /** Each window grants at most `capacity` reservations, whatever writes fail and however often the
      process restarts. */
  lemma WindowLimit(c: Settings, b: Budget, start: int, ops: seq<Op>, window: int)
    requires Valid(c) && Clock(c, start, ops) && b.resetsAt <= start + c.window
    ensures Charged(Grants(c, Sys(b, b), ops), window) <= c.capacity
  {
    RunKeeps(c, b, start, ops);
  }

  lemma {:induction false} TwoWindows(grants: seq<Grant>, from: int, length: nat, first: int, last: int)
    requires forall g :: g in grants && from <= g.time < from + length ==> g.window == first || g.window == last
    ensures Within(grants, from, length) <= Charged(grants, first) + Charged(grants, last)
  {
    if grants != [] {
      TwoWindows(grants[..|grants| - 1], from, length, first, last);
    }
  }

  /** Any interval as long as a window grants at most twice `capacity`. */
  lemma IntervalLimit(c: Settings, b: Budget, start: int, ops: seq<Op>, from: int)
    requires Valid(c) && Clock(c, start, ops) && b.resetsAt <= start + c.window
    ensures Within(Grants(c, Sys(b, b), ops), from, c.window) <= 2 * c.capacity
  {
    var grants := Grants(c, Sys(b, b), ops);
    RunKeeps(c, b, start, ops);
    var first, last := EarliestAndLatest(c, Run(c, Sys(b, b), ops), grants, from);
    TwoWindows(grants, from, c.window, first, last);
    assert Charged(grants, first) <= c.capacity && Charged(grants, last) <= c.capacity;
  }

  /** Of the non-overlapping windows only two can reach into the interval. */
  lemma EarliestAndLatest(c: Settings, s: Sys, grants: seq<Grant>, from: int) returns (first: int, last: int)
    requires Valid(c) && GrantsValid(c, s, grants)
    ensures forall g :: g in grants && from <= g.time < from + c.window ==> g.window == first || g.window == last
  {
    first, last := 0, 0;
    if exists g :: g in grants && from <= g.time < from + c.window {
      var g :| g in grants && from <= g.time < from + c.window;
      first := g.window;
      if exists h :: h in grants && from <= h.time < from + c.window && h.window != first {
        var h :| h in grants && from <= h.time < from + c.window && h.window != first;
        last := h.window;
        forall x | x in grants && from <= x.time < from + c.window
          ensures x.window == first || x.window == last
        {
          PairApart(c, s, grants, g, h);
          PairApart(c, s, grants, g, x);
          PairApart(c, s, grants, h, x);
        }
      }
    }
  }

  lemma PairApart(c: Settings, s: Sys, grants: seq<Grant>, g: Grant, h: Grant)
    requires GrantsValid(c, s, grants) && g in grants && h in grants
    ensures Apart(c, g.window, h.window) || Apart(c, h.window, g.window)
  {
    var i :| 0 <= i < |grants| && grants[i] == g;
    var j :| 0 <= j < |grants| && grants[j] == h;
  }

  // ---------------------------------------------------------------- refusals are justified

  /** Reservations that a failed write took from the window in memory, and from the one on disk, without granting them. */
  datatype Waste = Waste(memory: nat, stored: nat)

  function Wasted(c: Settings, s: Sys, ops: seq<Op>): Waste {
    if ops == [] then Waste(0, 0)
    else
      var before, op := ops[..|ops| - 1], ops[|ops| - 1];
      StepWaste(c, Run(c, s, before), Wasted(c, s, before), op)
  }

  /** A new window starts without waste; a write puts the memory's on disk; a restart takes it from there. */
  function StepWaste(c: Settings, s: Sys, w: Waste, op: Op): Waste {
    match op
    case Reserve(now, route, written) =>
      if route != Some(true) then w
      else
        var inWindow := if now < s.memory.resetsAt then w.memory else 0;
        (match ReserveOne(c, s, now, route, written).1
         case Ok(_) => Waste(inWindow, inWindow)
         case Err(Persistence) => Waste(inWindow + 1, w.stored)
         case Err(_) => Waste(inWindow, w.stored))
    case OtherWrite(_, written) => if written then Waste(w.memory, w.memory) else w
    case Restart(now) => Waste(if now < s.stored.resetsAt then w.stored else 0, w.stored)
  }

  /** What was granted, what is left and what was wasted make up the capacity. */
  ghost predicate Exact(c: Settings, b: Budget, grants: seq<Grant>, wasted: nat) {
    Charged(grants, b.resetsAt) + b.remaining + wasted == c.capacity
  }

  lemma RefreshExact(c: Settings, s: Sys, grants: seq<Grant>, b: Budget, wasted: nat, now: int)
    requires Valid(c) && GrantsValid(c, s, grants) && now + c.window <= I64_MAX && Exact(c, b, grants, wasted)
    requires Apart(c, s.stored.resetsAt, b.resetsAt)
    ensures Exact(c, Refresh(c, b, now), grants, if now < b.resetsAt then wasted else 0)
  {
    if now >= b.resetsAt {
      NewWindowUncharged(c, s, grants, now + c.window);
    }
  }

  lemma ReserveExact(c: Settings, s: Sys, grants: seq<Grant>, clock: int, w: Waste, op: Op)
    requires Valid(c) && clock <= op.now && op.now + c.window <= I64_MAX && Inv(c, s, grants, clock)
    requires op.Reserve? && Exact(c, s.memory, grants, w.memory) && Exact(c, s.stored, grants, w.stored)
    ensures var more, next := grants + Granted(c, s, op), StepWaste(c, s, w, op);
            Exact(c, Step(c, s, op).memory, more, next.memory) && Exact(c, Step(c, s, op).stored, more, next.stored)
  {
    hide Refresh, GrantsValid;
    assert grants + [] == grants;
    RefreshExact(c, s, grants, s.memory, w.memory, op.now);
    var more := grants + [Grant(op.now, Step(c, s, op).memory.resetsAt)];
    assert more[..|more| - 1] == grants;
  }

  lemma StepExact(c: Settings, s: Sys, grants: seq<Grant>, clock: int, w: Waste, op: Op)
    requires Valid(c) && clock <= op.now && op.now + c.window <= I64_MAX && Inv(c, s, grants, clock)
    requires Exact(c, s.memory, grants, w.memory) && Exact(c, s.stored, grants, w.stored)
    ensures var more, next := grants + Granted(c, s, op), StepWaste(c, s, w, op);
            Exact(c, Step(c, s, op).memory, more, next.memory) && Exact(c, Step(c, s, op).stored, more, next.stored)
  {
    if op.Reserve? {
      ReserveExact(c, s, grants, clock, w, op);
    } else {
      assert grants + [] == grants;
      if op.Restart? { RefreshExact(c, s, grants, s.stored, w.stored, op.now); }
    }
  }

  function Full(c: Settings, start: int): Sys {
    var b := Budget(c.capacity, Deadline(start, c.window));
    Sys(b, b)
  }

  /** Over every run, whatever writes fail and whenever it restarts, in memory and on disk: grants, waste and what is left
      make up the capacity of the window. */
  lemma {:induction false} RunExact(c: Settings, start: int, ops: seq<Op>)
    requires Valid(c) && Clock(c, start, ops) && start + c.window <= I64_MAX
    ensures var s, grants, w := Run(c, Full(c, start), ops), Grants(c, Full(c, start), ops), Wasted(c, Full(c, start), ops);
            Exact(c, s.memory, grants, w.memory) && Exact(c, s.stored, grants, w.stored)
  {
    if ops != [] {
      var before := ops[..|ops| - 1];
      RunKeeps(c, Full(c, start).memory, start, before);
      RunExact(c, start, before);
      var clock := if before == [] then start else before[|before| - 1].now;
      hide Inv, Exact, Valid, Step;
      StepExact(c, Run(c, Full(c, start), before), Grants(c, Full(c, start), before), clock,
                Wasted(c, Full(c, start), before), ops[|ops| - 1]);
    }
  }

  /** A reservation is refused as exhausted exactly in a window that grants and waste have used up; one that is granted is
      answered with what it leaves. */
  lemma AnswersExact(c: Settings, start: int, ops: seq<Op>, now: int, written: bool)
    requires Valid(c) && Clock(c, start, ops + [Reserve(now, Some(true), written)]) && start + c.window <= I64_MAX
    ensures var s, op := Full(c, start), Reserve(now, Some(true), written);
            var state, answer := Run(c, s, ops), ReserveOne(c, Run(c, s, ops), now, Some(true), written).1;
            var after, all := Step(c, state, op), Grants(c, s, ops + [op]);
            && (answer == Err(Exhausted) <==>
                  now < state.memory.resetsAt && Charged(Grants(c, s, ops), state.memory.resetsAt) + Wasted(c, s, ops).memory == c.capacity)
            && (answer == Err(Persistence) ==> !written)
            && ReserveOne(c, state, now, None, written) == (state, Err(MissingRoute))
            && ReserveOne(c, state, now, Some(false), written) == (state, Err(ProactivePostDenied))
            && (answer.Ok? ==> Charged(all, after.memory.resetsAt) + answer.value + Wasted(c, s, ops + [op]).memory == c.capacity)
  {
    var op := Reserve(now, Some(true), written);
    var more := ops + [op];
    assert more[..|ops|] == ops;
    assert Clock(c, start, ops) by { assert forall i :: 0 <= i < |ops| ==> more[i] == ops[i]; }
    assert more[|ops|].now == now;
    RunExact(c, start, ops);
    RunExact(c, start, more);
    hide Clock, Wasted, Grants, Run, Charged;
    assert Run(c, Full(c, start), more) == Step(c, Run(c, Full(c, start), ops), op) by { RunMore(c, Full(c, start), ops, op); }
  }

  lemma RunMore(c: Settings, s: Sys, ops: seq<Op>, op: Op)
    ensures Run(c, s, ops + [op]) == Step(c, Run(c, s, ops), op)
  {
    assert (ops + [op])[..|ops|] == ops;
  }

  ghost predicate AllWritten(ops: seq<Op>) {
    forall i :: 0 <= i < |ops| ==> ops[i].Restart? || ops[i].written
  }

  lemma {:induction false} NothingWasted(c: Settings, s: Sys, ops: seq<Op>)
    requires AllWritten(ops)
    ensures Wasted(c, s, ops) == Waste(0, 0)
  {
    if ops != [] {
      NothingWasted(c, s, ops[..|ops| - 1]);
    }
  }

  /** When every write succeeds, exactly in a window that has granted its whole capacity. */
  lemma ExhaustedOnlyWhenSpent(c: Settings, start: int, ops: seq<Op>, now: int)
    requires Valid(c) && Clock(c, start, ops) && AllWritten(ops) && start + c.window <= I64_MAX
    requires now + c.window <= I64_MAX
    ensures var s := Run(c, Full(c, start), ops);
            ReserveOne(c, s, now, Some(true), true).1 == Err(Exhausted) <==>
            now < s.memory.resetsAt && Charged(Grants(c, Full(c, start), ops), s.memory.resetsAt) == c.capacity
  {
    RunExact(c, start, ops);
    NothingWasted(c, Full(c, start), ops);
  }

  // ---------------------------------------------------------------- as the supervisor runs it

  class AccountBudget {
    const settings: Settings
    var memory: Budget
    var stored: Budget

    ghost function View(): Sys
      reads this
    {
      Sys(memory, stored)
    }

    constructor (settings: Settings, now: int)
      ensures this.settings == settings
      ensures View() == Full(settings, now)
    {
      this.settings := settings;
      memory := Budget(settings.capacity, Deadline(now, settings.window));
      stored := Budget(settings.capacity, Deadline(now, settings.window));
    }

    method ReserveNotification(now: int, route: Option<bool>, written: bool) returns (out: Result<nat, BudgetError>)
      modifies this
      ensures (View(), out) == ReserveOne(settings, old(View()), now, route, written)
    {
      if route.None? { return Err(MissingRoute); }
      if !route.value { return Err(ProactivePostDenied); }
      if now >= memory.resetsAt {
        memory := Budget(settings.capacity, Deadline(now, settings.window));
      } else {
        memory := memory.(remaining := Min(memory.remaining, settings.capacity));
      }
      if memory.remaining == 0 { return Err(Exhausted); }
      memory := memory.(remaining := memory.remaining - 1);
      if !written { return Err(Persistence); }
      stored := memory;
      out := Ok(memory.remaining);
    }
  }
}
