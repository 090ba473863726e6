/** Browser sessions and their mutation limiter: a table pruned in place, against a reference that keeps
    every session and every accepted mutation for ever. */
module BrowserSecurity {
  import opened Seqs

  /** Instants in nanoseconds. */
  const SECOND: int := 1_000_000_000

  type Key = string

  datatype Record = Record(csrf: string, expiresAt: int, recent: seq<int>)

  type Sessions = map<Key, Record>

  datatype Settings = Settings(lifetime: int, limit: nat)

  datatype SecurityError = Authentication | Origin | Csrf | RateLimit

  // ---------------------------------------------------------------- the pruned table

  /** Drops the front while it is at least a second old. */
  function Pruned(times: seq<int>, now: int): seq<int> {
    if times != [] && now - times[0] >= SECOND then Pruned(times[1..], now) else times
  }

  function Unexpired(sessions: Sessions, now: int): Sessions {
    map k | k in sessions && sessions[k].expiresAt > now :: sessions[k]
  }

  function Issue(c: Settings, sessions: Sessions, secret: bool, key: Key, csrf: string, now: int): (Sessions, Result<(), SecurityError>) {
    if !secret then (sessions, Err(Authentication))
    else (sessions[key := Record(csrf, now + c.lifetime, [])], Ok(()))
  }

  /** A request without a session cookie has no key. */
  function Authenticate(sessions: Sessions, key: Option<Key>, now: int): (Sessions, Result<Key, SecurityError>) {
    if key.None? then (sessions, Err(Authentication))
    else
      var live := Unexpired(sessions, now);
      (live, if key.value in live then Ok(key.value) else Err(Authentication))
  }

  function Authorize(c: Settings, sessions: Sessions, origin: bool, key: Option<Key>, csrf: string, now: int, later: int)
    : (Sessions, Result<Key, SecurityError>)
  {
    if !origin then (sessions, Err(Origin))
    else
      var (live, who) := Authenticate(sessions, key, now);
      if who.Err? || who.value !in live then (live, Err(Authentication))
      else
        var r := live[who.value];
        if csrf != r.csrf then (live, Err(Csrf))
        else
          var recent := Pruned(r.recent, later);
          if |recent| >= c.limit then (live[who.value := r.(recent := recent)], Err(RateLimit))
          else (live[who.value := r.(recent := recent + [later])], who)
  }

  // ---------------------------------------------------------------- the reference

  /** A session that is never forgotten, with all its accepted mutations. */
  datatype Full = Full(csrf: string, expiresAt: int, accepted: seq<int>)

  type Archive = map<Key, Full>

  function Young(times: seq<int>, now: int): seq<int> {
    if times == [] then []
    else Young(times[..|times| - 1], now) + if now - times[|times| - 1] < SECOND then [times[|times| - 1]] else []
  }

  predicate Known(archive: Archive, key: Option<Key>, now: int) {
    key.Some? && key.value in archive && archive[key.value].expiresAt > now
  }

  function RefIssue(c: Settings, archive: Archive, secret: bool, key: Key, csrf: string, now: int): (Archive, Result<(), SecurityError>) {
    if !secret then (archive, Err(Authentication))
    else (archive[key := Full(csrf, now + c.lifetime, [])], Ok(()))
  }

  function RefAuthenticate(archive: Archive, key: Option<Key>, now: int): Result<Key, SecurityError> {
    if Known(archive, key, now) then Ok(key.value) else Err(Authentication)
  }

  function RefAuthorize(c: Settings, archive: Archive, origin: bool, key: Option<Key>, csrf: string, now: int, later: int)
    : (Archive, Result<Key, SecurityError>)
  {
    if !origin then (archive, Err(Origin))
    else if !Known(archive, key, now) then (archive, Err(Authentication))
    else
      var f := archive[key.value];
      if csrf != f.csrf then (archive, Err(Csrf))
      else if |Young(f.accepted, later)| >= c.limit then (archive, Err(RateLimit))
      else (archive[key.value := f.(accepted := f.accepted + [later])], Ok(key.value))
  }

  // ---------------------------------------------------------------- both at once

  datatype Op =
    | IssueOp(secret: bool, key: Key, csrf: string, now: int)
    | AuthenticateOp(cookie: Option<Key>, now: int)
    | AuthorizeOp(origin: bool, cookie: Option<Key>, proof: string, now: int, later: int)

  /** The clock after an operation. */
  function Ends(op: Op): int {
    if op.AuthorizeOp? then op.later else op.now
  }

  datatype Answer = Granted | Refused(error: SecurityError)

  function AnswerOf<T>(r: Result<T, SecurityError>): Answer {
    match r
    case Ok(_) => Granted
    case Err(e) => Refused(e)
  }

  function Step(c: Settings, s: Sessions, op: Op): (Sessions, Answer) {
    match op
    case IssueOp(secret, key, csrf, now) => var (t, r) := Issue(c, s, secret, key, csrf, now); (t, AnswerOf(r))
    case AuthenticateOp(cookie, now) => var (t, r) := Authenticate(s, cookie, now); (t, AnswerOf(r))
    case AuthorizeOp(origin, cookie, proof, now, later) =>
      var (t, r) := Authorize(c, s, origin, cookie, proof, now, later); (t, AnswerOf(r))
  }

  function RefStep(c: Settings, a: Archive, op: Op): (Archive, Answer) {
    match op
    case IssueOp(secret, key, csrf, now) => var (t, r) := RefIssue(c, a, secret, key, csrf, now); (t, AnswerOf(r))
    case AuthenticateOp(cookie, now) => (a, AnswerOf(RefAuthenticate(a, cookie, now)))
    case AuthorizeOp(origin, cookie, proof, now, later) =>
      var (t, r) := RefAuthorize(c, a, origin, cookie, proof, now, later); (t, AnswerOf(r))
  }

  function Run(c: Settings, s: Sessions, ops: seq<Op>): (Sessions, seq<Answer>) {
    if ops == [] then (s, [])
    else
      var (t, answers) := Run(c, s, ops[..|ops| - 1]);
      var (u, answer) := Step(c, t, ops[|ops| - 1]);
      (u, answers + [answer])
  }

  function RefRun(c: Settings, a: Archive, ops: seq<Op>): (Archive, seq<Answer>) {
    if ops == [] then (a, [])
    else
      var (t, answers) := RefRun(c, a, ops[..|ops| - 1]);
      var (u, answer) := RefStep(c, t, ops[|ops| - 1]);
      (u, answers + [answer])
  }

  /** Operations happen one after another on a clock that does not go back. */
  ghost predicate Clock(start: int, ops: seq<Op>) {
    && (forall i :: 0 <= i < |ops| && ops[i].AuthorizeOp? ==> ops[i].now <= ops[i].later)
    && (forall i :: 0 <= i < |ops| ==> start <= ops[i].now)
    && (forall i, j :: 0 <= i < j < |ops| ==> Ends(ops[i]) <= ops[j].now)
  }

  // ---------------------------------------------------------------- pruning

  ghost predicate Sorted(times: seq<int>) {
    forall i, j :: 0 <= i < j < |times| ==> times[i] <= times[j]
  }

  lemma {:induction false} YoungSuffix(times: seq<int>, now: int, k: nat)
    requires k <= |times|
    requires (forall i :: 0 <= i < k ==> now - times[i] >= SECOND) && (forall i :: k <= i < |times| ==> now - times[i] < SECOND)
    ensures Young(times, now) == times[k..]
  {
    if times != [] {
      var n := |times| - 1;
      if k <= n {
        YoungSuffix(times[..n], now, k);
        assert times[..n][k..] + [times[n]] == times[k..];
      } else {
        YoungSuffix(times[..n], now, n);
      }
    }
  }

  lemma {:induction false} PrunedSuffix(times: seq<int>, now: int) returns (k: nat)
    requires Sorted(times)
    ensures k <= |times| && Pruned(times, now) == times[k..]
    ensures (forall i :: 0 <= i < k ==> now - times[i] >= SECOND) && (forall i :: k <= i < |times| ==> now - times[i] < SECOND)
  {
    if times != [] && now - times[0] >= SECOND {
      var j := PrunedSuffix(times[1..], now);
      k := j + 1;
      assert times[1..][j..] == times[k..];
      forall i | k <= i < |times|
        ensures now - times[i] < SECOND
      {
        assert times[i] == times[1..][i - 1];
      }
      forall i | 0 <= i < k
        ensures now - times[i] >= SECOND
      {
        if i > 0 { assert times[i] == times[1..][i - 1]; }
      }
    } else {
      k := 0;
    }
  }

  /** The deque holds the newest accepted mutations, and what it lacks is at least a second old. */
  ghost predicate Tracks(recent: seq<int>, accepted: seq<int>, clock: int) {
    && Sorted(accepted) && (forall i :: 0 <= i < |accepted| ==> accepted[i] <= clock)
    && |recent| <= |accepted| && recent == accepted[|accepted| - |recent|..]
    && forall i :: 0 <= i < |accepted| - |recent| ==> clock - accepted[i] >= SECOND
  }

  /** Where the second before `now` begins in the accepted mutations, seen through the deque. */
  lemma PrunedIsTail(recent: seq<int>, accepted: seq<int>, clock: int, now: int) returns (cut: nat)
    requires Tracks(recent, accepted, clock) && clock <= now
    ensures cut <= |accepted| && Pruned(recent, now) == accepted[cut..]
    ensures forall i :: 0 <= i < cut ==> now - accepted[i] >= SECOND
    ensures forall i :: cut <= i < |accepted| ==> now - accepted[i] < SECOND
  {
    hide Pruned;
    var gap := |accepted| - |recent|;
    assert forall i :: 0 <= i < |recent| ==> recent[i] == accepted[gap + i];
    var k := PrunedSuffix(recent, now);
    cut := gap + k;
    assert recent[k..] == accepted[cut..];
    forall i | gap <= i < |accepted|
      ensures i < cut ==> now - accepted[i] >= SECOND
      ensures i >= cut ==> now - accepted[i] < SECOND
    {
      assert accepted[i] == recent[i - gap];
    }
  }

  /** Pruned, it is exactly the accepted mutations less than a second old. */
  lemma PrunedIsYoung(recent: seq<int>, accepted: seq<int>, clock: int, now: int)
    requires Tracks(recent, accepted, clock) && clock <= now
    ensures Pruned(recent, now) == Young(accepted, now)
    ensures Tracks(Pruned(recent, now), accepted, now)
  {
    hide Pruned, Young;
    var cut := PrunedIsTail(recent, accepted, clock, now);
    YoungSuffix(accepted, now, cut);
  }

  lemma TracksAppend(recent: seq<int>, accepted: seq<int>, now: int)
    requires Tracks(recent, accepted, now)
    ensures Tracks(recent + [now], accepted + [now], now)
  {
    var gap := |accepted| - |recent|;
    assert accepted[gap..] + [now] == (accepted + [now])[gap..];
  }

  // ---------------------------------------------------------------- simulation

  /** The table and the archive agree on every session that has not expired. */
  ghost predicate Agree(s: Sessions, a: Archive, clock: int) {
    && (forall k :: k in a && a[k].expiresAt > clock ==> k in s)
    && (forall k :: k in s ==>
          k in a && s[k].csrf == a[k].csrf && s[k].expiresAt == a[k].expiresAt && Tracks(s[k].recent, a[k].accepted, clock))
  }

  lemma LaterAgree(s: Sessions, a: Archive, clock: int, now: int)
    requires Agree(s, a, clock) && clock <= now
    ensures Agree(s, a, now)
  {
  }

  lemma AuthenticateAgrees(s: Sessions, a: Archive, key: Option<Key>, clock: int, now: int)
    requires Agree(s, a, clock) && clock <= now
    ensures Agree(Authenticate(s, key, now).0, a, now)
    ensures Authenticate(s, key, now).1 == RefAuthenticate(a, key, now)
    ensures key.Some? && Known(a, key, now) ==> key.value in Authenticate(s, key, now).0
  {
    LaterAgree(s, a, clock, now);
  }

  lemma AuthorizeAgrees(c: Settings, s: Sessions, a: Archive, op: Op, clock: int)
    requires Agree(s, a, clock) && op.AuthorizeOp? && clock <= op.now <= op.later
    ensures Agree(Step(c, s, op).0, RefStep(c, a, op).0, op.later)
    ensures Step(c, s, op).1 == RefStep(c, a, op).1
  {
    hide Pruned, Young, Sorted, Tracks;
    LaterAgree(s, a, clock, op.later);
    AuthenticateAgrees(s, a, op.cookie, clock, op.now);
    var live := Authenticate(s, op.cookie, op.now).0;
    LaterAgree(live, a, op.now, op.later);
    if op.origin && Known(a, op.cookie, op.now) {
      var k := op.cookie.value;
      PrunedIsYoung(live[k].recent, a[k].accepted, op.now, op.later);
      TracksAppend(Pruned(live[k].recent, op.later), a[k].accepted, op.later);
    }
  }

  lemma StepAgrees(c: Settings, s: Sessions, a: Archive, op: Op, clock: int)
    requires Agree(s, a, clock) && clock <= op.now && (op.AuthorizeOp? ==> op.now <= op.later)
    ensures Agree(Step(c, s, op).0, RefStep(c, a, op).0, Ends(op))
    ensures Step(c, s, op).1 == RefStep(c, a, op).1
  {
    match op
    case IssueOp(_, _, _, _) => LaterAgree(s, a, clock, op.now);
    case AuthenticateOp(cookie, now) => AuthenticateAgrees(s, a, cookie, clock, now);
    case AuthorizeOp(_, _, _, _, _) => AuthorizeAgrees(c, s, a, op, clock);
  }

  lemma {:induction false} RunAgrees(c: Settings, start: int, ops: seq<Op>)
    requires Clock(start, ops)
    ensures var clock := if ops == [] then start else Ends(ops[|ops| - 1]);
            Agree(Run(c, map[], ops).0, RefRun(c, map[], ops).0, clock)
    ensures Run(c, map[], ops).1 == RefRun(c, map[], ops).1
  {
    if ops != [] {
      var before := ops[..|ops| - 1];
      RunAgrees(c, start, before);
      var clock := if before == [] then start else Ends(before[|before| - 1]);
      StepAgrees(c, Run(c, map[], before).0, RefRun(c, map[], before).0, ops[|ops| - 1], clock);
    }
  }

  /** Purging and pruning are invisible: every answer of every run is the one the archive would give. */
  lemma PruningIsInvisible(c: Settings, start: int, ops: seq<Op>)
    requires Clock(start, ops)
    ensures Run(c, map[], ops).1 == RefRun(c, map[], ops).1
  {
    RunAgrees(c, start, ops);
  }

  // ---------------------------------------------------------------- the limit

  /** Any `limit` + 1 consecutive accepted mutations span at least a second. */
  ghost predicate Limited(c: Settings, accepted: seq<int>) {
    Sorted(accepted) && forall i :: 0 <= i && i + c.limit < |accepted| ==> accepted[i + c.limit] - accepted[i] >= SECOND
  }

  lemma {:induction false} CrowdedIsFull(accepted: seq<int>, now: int, k: nat)
    requires Sorted(accepted) && k <= |accepted| && (k < |accepted| ==> now - accepted[k] < SECOND)
    ensures |Young(accepted, now)| >= |accepted| - k
  {
    if k < |accepted| {
      var n := |accepted| - 1;
      assert accepted[k] <= accepted[n];
      if k < n {
        CrowdedIsFull(accepted[..n], now, k);
      }
    }
  }

  lemma AcceptedStaysLimited(c: Settings, accepted: seq<int>, now: int)
    requires Limited(c, accepted) && |Young(accepted, now)| < c.limit
    requires forall i :: 0 <= i < |accepted| ==> accepted[i] <= now
    ensures Limited(c, accepted + [now])
  {
    var more := accepted + [now];
    forall i | 0 <= i && i + c.limit < |more|
      ensures more[i + c.limit] - more[i] >= SECOND
    {
      if i + c.limit == |accepted| && now - accepted[i] < SECOND {
        CrowdedIsFull(accepted, now, i);
      }
    }
  }

  ghost predicate AllLimited(c: Settings, a: Archive, clock: int) {
    forall k :: k in a ==> Limited(c, a[k].accepted) && forall i :: 0 <= i < |a[k].accepted| ==> a[k].accepted[i] <= clock
  }

  lemma {:induction false} RunLimited(c: Settings, start: int, ops: seq<Op>)
    requires Clock(start, ops)
    ensures var clock := if ops == [] then start else Ends(ops[|ops| - 1]);
            AllLimited(c, RefRun(c, map[], ops).0, clock)
  {
    if ops != [] {
      var before, op := ops[..|ops| - 1], ops[|ops| - 1];
      RunLimited(c, start, before);
      StepLimited(c, RefRun(c, map[], before).0, op, if before == [] then start else Ends(before[|before| - 1]));
    }
  }

  lemma StepLimited(c: Settings, a: Archive, op: Op, clock: int)
    requires AllLimited(c, a, clock) && clock <= op.now && (op.AuthorizeOp? ==> op.now <= op.later)
    ensures AllLimited(c, RefStep(c, a, op).0, Ends(op))
  {
    if op.AuthorizeOp? && op.origin && Known(a, op.cookie, op.now) {
      var accepted := a[op.cookie.value].accepted;
      if |Young(accepted, op.later)| < c.limit {
        AcceptedStaysLimited(c, accepted, op.later);
      }
    }
  }

  /** When mutations were granted to the session under `key`, as the server answered; issuing the key anew begins another
      session. */
  function Grants(c: Settings, ops: seq<Op>, key: Key): seq<int> {
    if ops == [] then []
    else
      var before, op := ops[..|ops| - 1], ops[|ops| - 1];
      if Step(c, Run(c, map[], before).0, op).1 != Granted then Grants(c, before, key)
      else if op.IssueOp? && op.key == key then []
      else if op.AuthorizeOp? && op.cookie == Some(key) then Grants(c, before, key) + [op.later]
      else Grants(c, before, key)
  }

  lemma StepGrants(c: Settings, a: Archive, op: Op, key: Key)
    ensures var b, granted := RefStep(c, a, op).0, RefStep(c, a, op).1 == Granted;
            if granted && op.IssueOp? && op.key == key then key in b && b[key].accepted == []
            else if granted && op.AuthorizeOp? && op.cookie == Some(key) then
              key in a && key in b && b[key].accepted == a[key].accepted + [op.later]
            else (key in b <==> key in a) && (key in a ==> b[key].accepted == a[key].accepted)
  {
  }

  lemma {:induction false} GrantsAreAccepted(c: Settings, start: int, ops: seq<Op>, key: Key)
    requires Clock(start, ops)
    ensures var a := RefRun(c, map[], ops).0; Grants(c, ops, key) == if key in a then a[key].accepted else []
  {
    hide Step, RefStep, Agree;
    if ops != [] {
      var before, op := ops[..|ops| - 1], ops[|ops| - 1];
      GrantsAreAccepted(c, start, before, key);
      RunAgrees(c, start, ops);
      LastAnswer(c, ops);
      StepGrants(c, RefRun(c, map[], before).0, op, key);
    }
  }

  lemma LastAnswer(c: Settings, ops: seq<Op>)
    requires ops != [] && Run(c, map[], ops).1 == RefRun(c, map[], ops).1
    ensures var before, op := ops[..|ops| - 1], ops[|ops| - 1];
            Step(c, Run(c, map[], before).0, op).1 == RefStep(c, RefRun(c, map[], before).0, op).1
  {
    hide Step, RefStep;
    var x, y := Run(c, map[], ops).1, RefRun(c, map[], ops).1;
    assert x[|x| - 1] == y[|y| - 1];
  }

  /** In every run, any `limit` + 1 consecutive mutations that the server grants to one session span at least a second. */
  lemma MutationsAreLimited(c: Settings, start: int, ops: seq<Op>, key: Key)
    requires Clock(start, ops)
    ensures Limited(c, Grants(c, ops, key))
  {
    GrantsAreAccepted(c, start, ops, key);
    RunLimited(c, start, ops);
  }

  // ---------------------------------------------------------------- as the server runs it

  class SessionTable {
    const settings: Settings
    var sessions: Sessions

    constructor (settings: Settings)
      ensures this.settings == settings && sessions == map[]
    {
      this.settings := settings;
      sessions := map[];
    }

    method IssueSession(secret: bool, key: Key, csrf: string, now: int) returns (out: Result<(), SecurityError>)
      modifies this
      ensures (sessions, out) == Issue(settings, old(sessions), secret, key, csrf, now)
    {
      if !secret { return Err(Authentication); }
      sessions := sessions[key := Record(csrf, now + settings.lifetime, [])];
      out := Ok(());
    }

    method AuthenticateRequest(key: Option<Key>, now: int) returns (out: Result<Key, SecurityError>)
      modifies this
      ensures (sessions, out) == Authenticate(old(sessions), key, now)
    {
      if key.None? { return Err(Authentication); }
      sessions := map k | k in sessions && sessions[k].expiresAt > now :: sessions[k];
      out := if key.value in sessions then Ok(key.value) else Err(Authentication);
    }

    method AuthorizeMutation(origin: bool, key: Option<Key>, csrf: string, now: int, later: int) returns (out: Result<Key, SecurityError>)
      modifies this
      ensures (sessions, out) == Authorize(settings, old(sessions), origin, key, csrf, now, later)
    {
      if !origin { return Err(Origin); }
      var who := AuthenticateRequest(key, now);
      if who.Err? { return Err(Authentication); }
      if who.value !in sessions { return Err(Authentication); }
      var r := sessions[who.value];
      if csrf != r.csrf { return Err(Csrf); }
      var recent := r.recent;
      while recent != [] && later - recent[0] >= SECOND
        invariant Pruned(recent, later) == Pruned(r.recent, later)
        decreases |recent|
      {
        recent := recent[1..];
      }
      if |recent| >= settings.limit {
        sessions := sessions[who.value := r.(recent := recent)];
        return Err(RateLimit);
      }
      sessions := sessions[who.value := r.(recent := recent + [later])];
      out := who;
    }
  }
}
