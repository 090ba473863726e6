/** Signed desktop updates: staging, key pinning, activation and rollback on a disk that can fail at every call and
    a process that can stop after every write. */
module DesktopUpdate {
  import opened Seqs

  /** A release directory; its contents are only ever seen through the publisher checks. */
  type Tree = seq<string>
  type Key = string

  datatype Manifest = Manifest(version: string, target: string)

  /** What checking a directory says: its signed manifest under a key, its build reports, its digest. */
  datatype Publisher = Publisher(
    verify: (Tree, Key) -> Option<Manifest>,
    reports: (Tree, Manifest) -> bool,
    digest: Tree -> Option<string>,
    host: string)

  datatype ActiveRelease = ActiveRelease(current: string, previous: Option<string>, digest: string, activatedAt: int)

  /** The trusted key file: not there, created but not fully written, or written. */
  datatype Pin = Absent | Partial | Full(key: Key)

  /** `staging` names the unfinished copies, which live in the same directory as the installed versions. */
  datatype Disk = Disk(versions: map<string, Tree>, staging: set<string>, pin: Pin, active: Option<ActiveRelease>)

  datatype DesktopError =
    Io | InvalidKey | InvalidRelease | InvalidConfiguration | UntrustedKey | VersionExists | RollbackUnavailable

  /** Which file-system calls fail. */
  datatype Faults = Faults(
    readPin: bool, beginCopy: bool, copy: bool, openPin: bool, writePin: bool, syncPin: bool, rename: bool,
    remove: bool, syncVersions: bool, readActive: bool, writeActive: bool, syncActive: bool)

  const NO_FAULTS := Faults(false, false, false, false, false, false, false, false, false, false, false, false)

  /** `copied` is what the staged directory holds when it is checked again: the source may have changed meanwhile. */
  datatype Request = Request(source: Tree, copied: Tree, key: Option<Key>, id: string, now: int, io: Faults)

  /** The disk after each write, and the answer. */
  datatype Outcome<T> = Outcome(trace: seq<Disk>, result: Result<T, DesktopError>)

  function After(d: Disk, trace: seq<Disk>): Disk {
    if trace == [] then d else trace[|trace| - 1]
  }

  // ---------------------------------------------------------------- names

  predicate VersionChar(c: char) {
    'a' <= c <= 'z' || 'A' <= c <= 'Z' || '0' <= c <= '9' || c == '.' || c == '-'
  }

  predicate ValidVersion(v: string) {
    0 < |v| <= 64 && forall i :: 0 <= i < |v| ==> VersionChar(v[i])
  }

  predicate HexDigest(s: string) {
    |s| == 64 && forall i :: 0 <= i < |s| ==> '0' <= s[i] <= '9' || 'a' <= s[i] <= 'f' || 'A' <= s[i] <= 'F'
  }

  predicate Exists(d: Disk, name: string) {
    name in d.versions || name in d.staging || name == "." || name == ".."
  }

  function Temporary(version: string, id: string): string {
    "." + version + "-" + id + ".tmp"
  }

  // ---------------------------------------------------------------- operations

  function ReadActive(d: Disk): Result<ActiveRelease, DesktopError> {
    if d.active.None? then Err(Io)
    else
      var a := d.active.value;
      if !ValidVersion(a.current) || (a.previous.Some? && !ValidVersion(a.previous.value)) || !HexDigest(a.digest)
      then Err(InvalidConfiguration)
      else Ok(a)
  }

  function ReadPin(d: Disk, fault: bool): Result<Key, DesktopError> {
    if fault || d.pin.Absent? then Err(Io) else if d.pin.Partial? then Err(InvalidKey) else Ok(d.pin.key)
  }

  /** A missing key file trusts anyone's first release. */
  function Ensure(d: Disk, key: Key, fault: bool): Result<(), DesktopError> {
    if fault then Err(Io)
    else match d.pin
      case Absent => Ok(())
      case Partial => Err(InvalidKey)
      case Full(k) => if k == key then Ok(()) else Err(UntrustedKey)
  }

  /** The checks made on the source before anything is written. */
  function Vet(p: Publisher, d: Disk, q: Request): Result<string, DesktopError> {
    if q.key.None? then Err(InvalidKey)
    else match p.verify(q.source, q.key.value)
      case None => Err(InvalidRelease)
      case Some(m) =>
        if m.target != p.host then Err(InvalidConfiguration)
        else if !p.reports(q.source, m) then Err(InvalidRelease)
        else if !ValidVersion(m.version) then Err(InvalidConfiguration)
        else match Ensure(d, q.key.value, q.io.readPin)
          case Err(e) => Err(e)
          case Ok(_) => if Exists(d, m.version) then Err(VersionExists) else Ok(m.version)
  }

  /** The checks made on the copy; the target is not among them. */
  function Inspect(p: Publisher, copied: Tree, key: Key, version: string): Result<string, DesktopError> {
    match p.verify(copied, key)
    case None => Err(InvalidRelease)
    case Some(m) =>
      if m.version != version then Err(InvalidConfiguration)
      else if !p.reports(copied, m) then Err(InvalidRelease)
      else match p.digest(copied)
        case None => Err(Io)
        case Some(digest) => Ok(digest)
  }

  function PinKey(d: Disk, key: Key, io: Faults): Outcome<()> {
    if io.openPin then Outcome([], Err(Io))
    else match d.pin
      case Absent =>
        var created, written := d.(pin := Partial), d.(pin := Full(key));
        if io.writePin then Outcome([created], Err(Io))
        else Outcome([created, written], if io.syncPin then Err(Io) else Ok(()))
      case Partial => Outcome([], Err(UntrustedKey))
      case Full(k) => Outcome([], if k == key then Ok(()) else Err(UntrustedKey))
  }

  /** Clears the copy away after an error. */
  function Discard(d: Disk, temporary: string, fault: bool, error: DesktopError): Outcome<string> {
    if fault then Outcome([], Err(Io)) else Outcome([d.(staging := d.staging - {temporary})], Err(error))
  }

  function Install(d: Disk, temporary: string, version: string, tree: Tree): Disk {
    d.(staging := d.staging - {temporary}, versions := d.versions[version := tree])
  }

  /** From the staged copy on: check it, pin the key, rename. */
  function Settle(p: Publisher, d: Disk, q: Request, key: Key, version: string, temporary: string): Outcome<string> {
    match Inspect(p, q.copied, key, version)
    case Err(e) => Discard(d, temporary, q.io.remove, e)
    case Ok(digest) =>
      var pin := PinKey(d, key, q.io);
      var e := After(d, pin.trace);
      if pin.result.Err? || q.io.rename then
        var undo := Discard(e, temporary, q.io.remove, if pin.result.Err? then pin.result.error else Io);
        Outcome(pin.trace + undo.trace, undo.result)
      else
        Outcome(pin.trace + [Install(e, temporary, version, q.copied)], Ok(digest))
  }

  function Stage(p: Publisher, d: Disk, q: Request, key: Key, version: string): Outcome<string> {
    if q.io.beginCopy then Outcome([], Err(Io))
    else
      var temporary := Temporary(version, q.id);
      var begun := d.(staging := d.staging + {temporary});
      var rest := if q.io.copy then Discard(begun, temporary, q.io.remove, Io) else Settle(p, begun, q, key, version, temporary);
      Outcome([begun] + rest.trace, rest.result)
  }

  /** Replaces the active record in one rename; the sync that follows can still fail. */
  function Point(d: Disk, a: ActiveRelease, io: Faults): Outcome<ActiveRelease> {
    if io.writeActive then Outcome([], Err(Io))
    else Outcome([d.(active := Some(a))], if io.syncActive then Err(Io) else Ok(a))
  }

  /** What the new active record gives as the version to return to. */
  function Predecessor(d: Disk, fault: bool): Option<string> {
    if fault || ReadActive(d).Err? then None else Some(ReadActive(d).value.current)
  }

  function Activate(p: Publisher, d: Disk, q: Request): Outcome<ActiveRelease> {
    match Vet(p, d, q)
    case Err(e) => Outcome([], Err(e))
    case Ok(version) =>
      var staged := Stage(p, d, q, q.key.value, version);
      if staged.result.Err? then Outcome(staged.trace, Err(staged.result.error))
      else if q.io.syncVersions then Outcome(staged.trace, Err(Io))
      else
        var e := After(d, staged.trace);
        var pointed := Point(e, ActiveRelease(version, Predecessor(e, q.io.readActive), staged.result.value, q.now), q.io);
        Outcome(staged.trace + pointed.trace, pointed.result)
  }

  function Rollback(p: Publisher, d: Disk, now: int, io: Faults): Outcome<ActiveRelease> {
    var active := ReadActive(d);
    if io.readActive then Outcome([], Err(Io))
    else if active.Err? then Outcome([], Err(active.error))
    else if active.value.previous.None? || active.value.previous.value !in d.versions then Outcome([], Err(RollbackUnavailable))
    else
      var key := ReadPin(d, io.readPin);
      if key.Err? then Outcome([], Err(key.error))
      else
        var previous := active.value.previous.value;
        var checked := Inspect(p, d.versions[previous], key.value, previous);
        if checked.Err? then Outcome([], Err(checked.error))
        else Point(d, ActiveRelease(previous, Some(active.value.current), checked.value, now), io)
  }

  /** The directory to run, checked once more. */
  function ActiveReleaseRoot(p: Publisher, d: Disk, io: Faults): Result<string, DesktopError> {
    var active := ReadActive(d);
    if io.readActive then Err(Io)
    else if active.Err? then Err(active.error)
    else
      var key := ReadPin(d, io.readPin);
      if key.Err? then Err(key.error)
      else
        var current := active.value.current;
        if current !in d.versions then Err(InvalidRelease)
        else
          var tree := d.versions[current];
          match p.verify(tree, key.value)
          case None => Err(InvalidRelease)
          case Some(m) =>
            if m.version != current || m.target != p.host then Err(InvalidConfiguration)
            else if p.digest(tree) != Some(active.value.digest) then Err(InvalidConfiguration)
            else if !p.reports(tree, m) then Err(InvalidRelease)
            else Ok(current)
  }

  // ---------------------------------------------------------------- runs

  datatype Op = ActivateOp(request: Request) | RollbackOp(now: int, io: Faults)

  function Trace(p: Publisher, d: Disk, op: Op): seq<Disk> {
    match op
    case ActivateOp(q) => Activate(p, d, q).trace
    case RollbackOp(now, io) => Rollback(p, d, now, io).trace
  }

  /** One operation of one process; the process stops after `writes` writes, or when the operation is over. */
  datatype Session = Session(op: Op, writes: nat)

  function Play(p: Publisher, d: Disk, s: Session): Disk {
    var trace := Trace(p, d, s.op);
    After(d, trace[..Min(s.writes, |trace|)])
  }

  function Run(p: Publisher, d: Disk, sessions: seq<Session>): Disk {
    if sessions == [] then d else Play(p, Run(p, d, sessions[..|sessions| - 1]), sessions[|sessions| - 1])
  }

  /** Temporary names are fresh: their entity ids never repeat. */
  ghost predicate FreshNames(d: Disk, op: Op) {
    op.ActivateOp? ==> forall v :: !Exists(d, Temporary(v, op.request.id))
  }

  ghost predicate FreshRun(p: Publisher, d: Disk, sessions: seq<Session>) {
    forall i :: 0 <= i < |sessions| ==> FreshNames(Run(p, d, sessions[..i]), sessions[i].op)
  }

  const EMPTY := Disk(map[], {}, Absent, None)

  // ---------------------------------------------------------------- the invariant

  ghost predicate Hashes(p: Publisher) {
    forall t: Tree :: p.digest(t).Some? ==> HexDigest(p.digest(t).value)
  }

  /** A directory that passed every check on a staged copy. */
  ghost predicate Installable(p: Publisher, name: string, tree: Tree, key: Key) {
    && ValidVersion(name) && name != "." && name != ".."
    && p.verify(tree, key).Some? && p.verify(tree, key).value.version == name
    && p.reports(tree, p.verify(tree, key).value)
    && p.digest(tree).Some?
  }

  /** The active record names an installed version by its digest, and another one to return to. */
  ghost predicate Pointed(p: Publisher, d: Disk, a: ActiveRelease) {
    && a.current in d.versions && p.digest(d.versions[a.current]) == Some(a.digest)
    && (a.previous.Some? ==> a.previous.value in d.versions && a.previous.value != a.current)
  }

  ghost predicate Sound(p: Publisher, d: Disk) {
    && (forall v :: v in d.versions ==> d.pin.Full? && Installable(p, v, d.versions[v], d.pin.key))
    && d.staging !! d.versions.Keys
    && (d.active.Some? ==> Pointed(p, d, d.active.value))
  }

  ghost predicate AllSound(p: Publisher, trace: seq<Disk>) {
    forall i :: 0 <= i < |trace| ==> Sound(p, trace[i])
  }

  lemma StagingSound(p: Publisher, d: Disk, staging: set<string>)
    requires Sound(p, d) && staging !! d.versions.Keys
    ensures Sound(p, d.(staging := staging))
  {
    hide Installable;
  }

  lemma PinKeySound(p: Publisher, d: Disk, key: Key, io: Faults)
    requires Sound(p, d)
    ensures AllSound(p, PinKey(d, key, io).trace)
    ensures var o := PinKey(d, key, io); After(d, o.trace) == d.(pin := After(d, o.trace).pin)
    ensures var o := PinKey(d, key, io); o.result.Ok? ==> After(d, o.trace).pin == Full(key)
  {
    hide Installable, Pointed;
    if d.pin.Absent? {
      assert Sound(p, d.(pin := Partial)) && Sound(p, d.(pin := Full(key))) by {
        assert forall v :: v !in d.versions;
        if d.active.Some? { SoundActive(p, d); }
      }
    }
  }

  /** An active record needs an installed version, and so a written key. */
  lemma SoundActive(p: Publisher, d: Disk)
    requires Sound(p, d) && d.active.Some?
    ensures d.active.value.current in d.versions && d.pin.Full?
  {
  }

  lemma InstallSound(p: Publisher, d: Disk, temporary: string, version: string, tree: Tree, key: Key)
    requires Sound(p, d) && d.pin == Full(key) && Installable(p, version, tree, key)
    requires version !in d.versions && version !in d.staging
    ensures Sound(p, Install(d, temporary, version, tree))
  {
    hide Installable;
  }

  lemma SettleSound(p: Publisher, d: Disk, q: Request, key: Key, version: string, temporary: string)
    requires Sound(p, d) && ValidVersion(version) && !Exists(d, version)
    ensures AllSound(p, Settle(p, d, q, key, version, temporary).trace)
    ensures var o := Settle(p, d, q, key, version, temporary); var e := After(d, o.trace);
            o.result.Ok? ==>
              e.versions == d.versions[version := q.copied] && e.active == d.active && p.digest(q.copied) == Some(o.result.value)
  {
    hide PinKey, Pointed, ValidVersion;
    StagingSound(p, d, d.staging - {temporary});
    if Inspect(p, q.copied, key, version).Ok? {
      PinKeySound(p, d, key, q.io);
      var pin := PinKey(d, key, q.io);
      var e := After(d, pin.trace);
      StagingSound(p, e, e.staging - {temporary});
      if pin.result.Ok? {
        InstallSound(p, e, temporary, version, q.copied, key);
      }
    }
  }

  lemma TemporaryDiffers(version: string, id: string)
    ensures Temporary(version, id) != version
  {
    assert |Temporary(version, id)| > |version|;
  }

  lemma StageSound(p: Publisher, d: Disk, q: Request, key: Key, version: string)
    requires Sound(p, d) && ValidVersion(version) && !Exists(d, version) && !Exists(d, Temporary(version, q.id))
    ensures AllSound(p, Stage(p, d, q, key, version).trace)
    ensures var o := Stage(p, d, q, key, version); var e := After(d, o.trace);
            o.result.Ok? ==>
              e.versions == d.versions[version := q.copied] && e.active == d.active && p.digest(q.copied) == Some(o.result.value)
  {
    hide Settle, Installable, Pointed, ValidVersion, Temporary;
    var temporary := Temporary(version, q.id);
    TemporaryDiffers(version, q.id);
    var begun := d.(staging := d.staging + {temporary});
    StagingSound(p, d, begun.staging);
    StagingSound(p, begun, begun.staging - {temporary});
    SettleSound(p, begun, q, key, version, temporary);
  }

  /** The version an activation returns to is the one it replaces. */
  lemma PredecessorInstalled(p: Publisher, d: Disk, e: Disk, version: string, tree: Tree, fault: bool)
    requires Sound(p, d) && version !in d.versions && e.versions == d.versions[version := tree] && e.active == d.active
    ensures var prior := Predecessor(e, fault);
            prior.Some? ==> d.active.Some? && prior.value == d.active.value.current && prior.value in d.versions
  {
  }

  lemma ActivateSound(p: Publisher, d: Disk, q: Request)
    requires Hashes(p) && Sound(p, d) && FreshNames(d, ActivateOp(q))
    ensures AllSound(p, Activate(p, d, q).trace)
  {
    hide Stage, Installable, ValidVersion, HexDigest, Predecessor;
    var vetted := Vet(p, d, q);
    if vetted.Ok? {
      var version := vetted.value;
      StageSound(p, d, q, q.key.value, version);
      var staged := Stage(p, d, q, q.key.value, version);
      var e := After(d, staged.trace);
      if staged.result.Ok? {
        PredecessorInstalled(p, d, e, version, q.copied, q.io.readActive);
      }
    }
  }

  lemma RollbackSound(p: Publisher, d: Disk, now: int, io: Faults)
    requires Sound(p, d)
    ensures AllSound(p, Rollback(p, d, now, io).trace)
  {
    hide Installable, ValidVersion, HexDigest;
  }

  /** Every write of every operation leaves a sound disk. */
  lemma TraceSound(p: Publisher, d: Disk, op: Op)
    requires Hashes(p) && Sound(p, d) && FreshNames(d, op)
    ensures AllSound(p, Trace(p, d, op))
  {
    hide Activate, Rollback;
    match op
    case ActivateOp(q) => ActivateSound(p, d, q);
    case RollbackOp(now, io) => RollbackSound(p, d, now, io);
  }

  /** Any sequence of operations, each with any I/O failures and each cut short after any write, leaves a sound disk. */
  lemma {:induction false} RunSound(p: Publisher, d: Disk, sessions: seq<Session>)
    requires Hashes(p) && Sound(p, d) && FreshRun(p, d, sessions)
    ensures Sound(p, Run(p, d, sessions))
  {
    hide Trace, FreshNames, Sound;
    if sessions != [] {
      var n := |sessions| - 1;
      var before := sessions[..n];
      assert forall i :: 0 <= i < n ==> before[..i] == sessions[..i] && before[i] == sessions[i];
      RunSound(p, d, before);
      TraceSound(p, Run(p, d, before), sessions[n].op);
    }
  }

  /** From a first start, what is installed was verified under the one pinned key and the active record is good. */
  lemma EveryCrashPointIsSound(p: Publisher, sessions: seq<Session>)
    requires Hashes(p) && FreshRun(p, EMPTY, sessions)
    ensures Sound(p, Run(p, EMPTY, sessions))
  {
    RunSound(p, EMPTY, sessions);
  }

  // ---------------------------------------------------------------- activation

  lemma {:induction false} StageKeepsActive(p: Publisher, d: Disk, q: Request, key: Key, version: string)
    ensures forall e :: e in Stage(p, d, q, key, version).trace ==> e.active == d.active
  {
  }

  /** An active record of the release of a request, returning to the version it replaces unless that cannot be read. */
  ghost predicate Succeeds(p: Publisher, d: Disk, q: Request, a: ActiveRelease) {
    && q.key.Some? && p.verify(q.source, q.key.value).Some?
    && a.current == p.verify(q.source, q.key.value).value.version
    && a.previous == (if q.io.readActive || d.active.None? then None else Some(d.active.value.current))
    && Some(a.digest) == p.digest(q.copied)
  }

  /** The active record stays until the last write, which makes it name the new version and the one it replaces. */
  lemma ActivationIsAtomic(p: Publisher, d: Disk, q: Request)
    requires Hashes(p) && Sound(p, d) && FreshNames(d, ActivateOp(q))
    ensures var trace := Activate(p, d, q).trace; forall i :: 0 <= i < |trace| - 1 ==> trace[i].active == d.active
    ensures var last := After(d, Activate(p, d, q).trace).active;
            last != d.active ==> last.Some? && Succeeds(p, d, q, last.value)
    ensures var o := Activate(p, d, q);
            o.result.Ok? ==> After(d, o.trace).active == Some(o.result.value) && Succeeds(p, d, q, o.result.value)
  {
    hide Stage, Installable, ValidVersion, HexDigest;
    var vetted := Vet(p, d, q);
    if vetted.Ok? {
      var version := vetted.value;
      StageKeepsActive(p, d, q, q.key.value, version);
      StageSound(p, d, q, q.key.value, version);
      var staged := Stage(p, d, q, q.key.value, version);
      var e := After(d, staged.trace);
      if d.active.Some? { ActiveReadable(p, d); }
      if staged.trace != [] { assert e in staged.trace; }
      assert forall i :: 0 <= i < |staged.trace| ==> staged.trace[i] in staged.trace;
    }
  }

  lemma ActiveReadable(p: Publisher, d: Disk)
    requires Hashes(p) && Sound(p, d) && d.active.Some?
    ensures ReadActive(d) == Ok(d.active.value) && d.pin.Full?
  {
    hide HexDigest, ValidVersion;
  }

  // ---------------------------------------------------------------- rollback

  function Swapped(a: ActiveRelease, digest: string, now: int): ActiveRelease
    requires a.previous.Some?
  {
    ActiveRelease(a.previous.value, Some(a.current), digest, now)
  }

  /** Rollback answers exactly when there is a version to return to. */
  lemma RollbackIff(p: Publisher, d: Disk, now: int)
    requires Hashes(p) && Sound(p, d)
    ensures Rollback(p, d, now, NO_FAULTS).result.Ok? <==> d.active.Some? && d.active.value.previous.Some?
    ensures var o := Rollback(p, d, now, NO_FAULTS);
            if o.result.Ok? then
              var previous := d.active.value.previous.value;
              && p.digest(d.versions[previous]).Some?
              && o.trace == [d.(active := Some(Swapped(d.active.value, p.digest(d.versions[previous]).value, now)))]
            else o.trace == []
  {
    hide HexDigest, ValidVersion;
    if d.active.Some? { ActiveReadable(p, d); }
  }

  /** Two rollbacks restore the active record, time of activation apart. */
  lemma RollbackTwiceRestores(p: Publisher, d: Disk, now: int, later: int)
    requires Hashes(p) && Sound(p, d) && d.active.Some? && d.active.value.previous.Some?
    ensures var once := After(d, Rollback(p, d, now, NO_FAULTS).trace);
            && Rollback(p, once, later, NO_FAULTS).result.Ok?
            && After(once, Rollback(p, once, later, NO_FAULTS).trace) == d.(active := Some(d.active.value.(activatedAt := later)))
  {
    hide Rollback, Installable;
    RollbackIff(p, d, now);
    var once := After(d, Rollback(p, d, now, NO_FAULTS).trace);
    RollbackSound(p, d, now, NO_FAULTS);
    assert once == Rollback(p, d, now, NO_FAULTS).trace[0];
    RollbackIff(p, once, later);
  }

  // ---------------------------------------------------------------- launching

  ghost predicate ForHost(p: Publisher, d: Disk, name: string)
    requires name in d.versions
  {
    d.pin.Full? && p.verify(d.versions[name], d.pin.key).Some? && p.verify(d.versions[name], d.pin.key).value.target == p.host
  }

  /** What is active can be run exactly when its manifest is for this host. */
  lemma LaunchIff(p: Publisher, d: Disk)
    requires Hashes(p) && Sound(p, d)
    ensures ActiveReleaseRoot(p, d, NO_FAULTS).Ok? <==>
            d.active.Some? && d.active.value.current in d.versions && ForHost(p, d, d.active.value.current)
  {
    hide HexDigest, ValidVersion;
    if d.active.Some? { ActiveReadable(p, d); }
  }

  /** The target of the copy is never checked: a source that changes while it is copied can activate what cannot run. */
  lemma ActivatedLaunchesIff(p: Publisher, d: Disk, q: Request)
    requires Hashes(p) && Sound(p, d) && FreshNames(d, ActivateOp(q)) && Activate(p, d, q).result.Ok?
    ensures q.key.Some? && p.verify(q.copied, q.key.value).Some?
    ensures ActiveReleaseRoot(p, After(d, Activate(p, d, q).trace), NO_FAULTS).Ok? <==>
            p.verify(q.copied, q.key.value).value.target == p.host
  {
    hide Settle, Installable, ValidVersion, HexDigest, ActiveReleaseRoot, Temporary, Predecessor;
    var version := Vet(p, d, q).value;
    var e := After(d, Activate(p, d, q).trace);
    ActivateSound(p, d, q);
    assert e == Activate(p, d, q).trace[|Activate(p, d, q).trace| - 1];
    assert Sound(p, e);
    var begun := d.(staging := d.staging + {Temporary(version, q.id)});
    StagedPin(p, begun, q, q.key.value, version, Temporary(version, q.id));
    StageSound(p, d, q, q.key.value, version);
    LaunchIff(p, e);
  }

  lemma StagedPin(p: Publisher, d: Disk, q: Request, key: Key, version: string, temporary: string)
    ensures var o := Settle(p, d, q, key, version, temporary);
            o.result.Ok? ==> After(d, o.trace).pin == Full(key) && p.verify(q.copied, key).Some?
  {
  }

  ghost predicate HostOnly(p: Publisher, d: Disk) {
    forall v :: v in d.versions ==> ForHost(p, d, v)
  }

  /** The source did not change while it was copied. */
  predicate Faithful(op: Op) {
    op.ActivateOp? ==> op.request.copied == op.request.source
  }

  lemma PinKeyHostOnly(p: Publisher, d: Disk, key: Key, io: Faults)
    requires Sound(p, d) && HostOnly(p, d)
    ensures forall e :: e in PinKey(d, key, io).trace ==> HostOnly(p, e) && e == d.(pin := e.pin)
  {
    hide Installable, Pointed;
  }

  lemma SettleHostOnly(p: Publisher, d: Disk, q: Request, key: Key, version: string, temporary: string)
    requires Sound(p, d) && HostOnly(p, d)
    requires p.verify(q.copied, key).Some? ==> p.verify(q.copied, key).value.target == p.host
    ensures forall e :: e in Settle(p, d, q, key, version, temporary).trace ==> HostOnly(p, e)
  {
    hide PinKey, Installable, Pointed;
    PinKeySound(p, d, key, q.io);
    PinKeyHostOnly(p, d, key, q.io);
    var pin := PinKey(d, key, q.io);
    if pin.trace != [] { assert After(d, pin.trace) in pin.trace; }
  }

  lemma TraceHostOnly(p: Publisher, d: Disk, op: Op)
    requires Sound(p, d) && HostOnly(p, d) && FreshNames(d, op) && Faithful(op)
    ensures forall e :: e in Trace(p, d, op) ==> HostOnly(p, e)
  {
    hide Settle, Installable, Pointed, ValidVersion, HexDigest, Temporary, Predecessor;
    if op.ActivateOp? && Vet(p, d, op.request).Ok? {
      var q := op.request;
      var version := Vet(p, d, q).value;
      var temporary := Temporary(version, q.id);
      var begun := d.(staging := d.staging + {temporary});
      StagingSound(p, d, begun.staging);
      SettleHostOnly(p, begun, q, q.key.value, version, temporary);
      var staged := Stage(p, d, q, q.key.value, version);
      if staged.trace != [] { assert After(d, staged.trace) in staged.trace; }
    }
  }

  /** When no source changes while it is copied, whatever is active can always be run. */
  lemma {:induction false} FaithfulRunLaunches(p: Publisher, sessions: seq<Session>)
    requires Hashes(p) && FreshRun(p, EMPTY, sessions) && forall i :: 0 <= i < |sessions| ==> Faithful(sessions[i].op)
    ensures HostOnly(p, Run(p, EMPTY, sessions))
    ensures ActiveReleaseRoot(p, Run(p, EMPTY, sessions), NO_FAULTS).Ok? <==> Run(p, EMPTY, sessions).active.Some?
  {
    hide Trace, FreshNames, ActiveReleaseRoot, Installable;
    RunSound(p, EMPTY, sessions);
    LaunchIff(p, Run(p, EMPTY, sessions));
    if sessions != [] {
      var n := |sessions| - 1;
      var before := sessions[..n];
      assert forall i :: 0 <= i < n ==> before[..i] == sessions[..i] && before[i] == sessions[i];
      FaithfulRunLaunches(p, before);
      RunSound(p, EMPTY, before);
      TraceHostOnly(p, Run(p, EMPTY, before), sessions[n].op);
    }
  }

  // ---------------------------------------------------------------- what never changes

  /** Once a key is pinned it stays; half a key refuses every later activation. */
  lemma PinStays(p: Publisher, d: Disk, op: Op)
    requires !d.pin.Absent?
    ensures forall e :: e in Trace(p, d, op) ==> e.pin == d.pin
    ensures d.pin.Partial? && op.ActivateOp? ==> Trace(p, d, op) == [] && Activate(p, d, op.request).result.Err?
  {
    hide ValidVersion, HexDigest;
  }

  lemma {:induction false} RunKeepsPin(p: Publisher, d: Disk, sessions: seq<Session>)
    requires !d.pin.Absent?
    ensures Run(p, d, sessions).pin == d.pin
    ensures d.pin.Partial? ==> Run(p, d, sessions).versions == d.versions
  {
    hide Trace;
    if sessions != [] {
      var n := |sessions| - 1;
      RunKeepsPin(p, d, sessions[..n]);
      var e := Run(p, d, sessions[..n]);
      PinStays(p, e, sessions[n].op);
      if sessions[n].op.RollbackOp? { RollbackKeepsVersions(p, e, sessions[n].op); }
    }
  }

  lemma RollbackKeepsVersions(p: Publisher, d: Disk, op: Op)
    requires op.RollbackOp?
    ensures forall e :: e in Trace(p, d, op) ==> e.versions == d.versions
  {
  }

  /** Installed, and named by the active record neither as current nor as previous. */
  ghost predicate Retired(d: Disk, v: string) {
    && v in d.versions
    && (d.active.Some? ==> d.active.value.current != v && d.active.value.previous != Some(v))
  }

  lemma SettleKeepsVersions(p: Publisher, d: Disk, q: Request, key: Key, version: string, temporary: string)
    requires version !in d.versions
    ensures forall e, v :: e in Settle(p, d, q, key, version, temporary).trace && v in d.versions ==> v in e.versions
  {
  }

  lemma ActivationRetires(p: Publisher, d: Disk, q: Request, v: string)
    requires Hashes(p) && Sound(p, d) && FreshNames(d, ActivateOp(q)) && Retired(d, v)
    ensures forall e :: e in Activate(p, d, q).trace ==> Retired(e, v)
  {
    hide Settle, Installable, ValidVersion, HexDigest, Temporary, Predecessor;
    var vetted := Vet(p, d, q);
    if vetted.Ok? {
      var version := vetted.value;
      var temporary := Temporary(version, q.id);
      SettleKeepsVersions(p, d.(staging := d.staging + {temporary}), q, q.key.value, version, temporary);
      StageKeepsActive(p, d, q, q.key.value, version);
      StageSound(p, d, q, q.key.value, version);
      var staged := Stage(p, d, q, q.key.value, version);
      if staged.result.Ok? {
        PredecessorInstalled(p, d, After(d, staged.trace), version, q.copied, q.io.readActive);
      }
    }
  }

  lemma RetiredStays(p: Publisher, d: Disk, op: Op, v: string)
    requires Hashes(p) && Sound(p, d) && FreshNames(d, op) && Retired(d, v)
    ensures forall e :: e in Trace(p, d, op) ==> Retired(e, v)
  {
    hide Activate, Installable, ValidVersion, HexDigest;
    match op
    case ActivateOp(q) => ActivationRetires(p, d, q, v);
    case RollbackOp(_, _) =>
  }

  /** A version that the active record has stopped naming, or never came to name, is never active again. */
  lemma {:induction false} RunKeepsRetired(p: Publisher, d: Disk, sessions: seq<Session>, v: string)
    requires Hashes(p) && Sound(p, d) && FreshRun(p, d, sessions) && Retired(d, v)
    ensures Retired(Run(p, d, sessions), v)
  {
    hide Trace, FreshNames, Sound, Retired;
    if sessions != [] {
      var n := |sessions| - 1;
      var before := sessions[..n];
      assert forall i :: 0 <= i < n ==> before[..i] == sessions[..i] && before[i] == sessions[i];
      RunKeepsRetired(p, d, before, v);
      RunSound(p, d, before);
      RetiredStays(p, Run(p, d, before), sessions[n].op, v);
    }
  }

  /** An activation that stops between the rename and the new active record strands its version for ever. */
  lemma StrandedForEver(p: Publisher, d: Disk, q: Request, writes: nat, sessions: seq<Session>, v: string)
    requires Hashes(p) && Sound(p, d) && FreshNames(d, ActivateOp(q)) && v !in d.versions
    requires var e := Play(p, d, Session(ActivateOp(q), writes)); v in e.versions && e.active == d.active && FreshRun(p, e, sessions)
    ensures Retired(Run(p, Play(p, d, Session(ActivateOp(q), writes)), sessions), v)
  {
    hide Trace, FreshNames, Installable, FreshRun;
    TraceSound(p, d, ActivateOp(q));
    var e := Play(p, d, Session(ActivateOp(q), writes));
    assert Sound(p, e);
    RunKeepsRetired(p, e, sessions, v);
  }

  // ---------------------------------------------------------------- repeating an activation

  lemma PinKeyCases(d: Disk, key: Key, io: Faults)
    ensures d.pin == Full(key) && !io.openPin ==> PinKey(d, key, io) == Outcome([], Ok(()))
    ensures d.pin.Absent? && io == NO_FAULTS ==> PinKey(d, key, io) == Outcome([d.(pin := Partial), d.(pin := Full(key))], Ok(()))
  {
  }

  lemma EnsuredPin(p: Publisher, d: Disk, q: Request)
    requires Vet(p, d, q).Ok?
    ensures q.key.Some? && (d.pin.Absent? || d.pin == Full(q.key.value))
    ensures p.verify(q.source, q.key.value).Some? && Vet(p, d, q).value == p.verify(q.source, q.key.value).value.version
    ensures !Exists(d, Vet(p, d, q).value)
  {
    hide ValidVersion;
  }

  /** Without I/O failures an activation succeeds exactly when source and copy pass their checks. */
  lemma ActivateChecked(p: Publisher, d: Disk, q: Request)
    requires q.io == NO_FAULTS
    ensures Activate(p, d, q).result.Ok? <==>
            Vet(p, d, q).Ok? && Inspect(p, q.copied, q.key.value, Vet(p, d, q).value).Ok?
  {
    hide Vet, Inspect, PinKey, Predecessor, Temporary, ValidVersion;
    if Vet(p, d, q).Ok? {
      EnsuredPin(p, d, q);
      PinKeyCases(d.(staging := d.staging + {Temporary(Vet(p, d, q).value, q.id)}), q.key.value, q.io);
    }
  }

  // ---------------------------------------------------------------- exactly when each operation succeeds

  ghost predicate SafeName(v: string) {
    1 <= |v| <= 64 && forall c :: c in v ==> '0' <= c <= '9' || 'A' <= c <= 'Z' || 'a' <= c <= 'z' || c == '.' || c == '-'
  }

  lemma SafeNames(v: string)
    ensures ValidVersion(v) <==> SafeName(v)
  {
    assert forall i :: 0 <= i < |v| ==> v[i] in v;
  }

  /** The directory verifies under the key, with its build reports. */
  ghost predicate IsRelease(p: Publisher, tree: Tree, key: Key, m: Manifest) {
    p.verify(tree, key) == Some(m) && p.reports(tree, m)
  }

  /** Source and copy are the same version of a release under a trusted key, for this host as far as the source says, and
      nothing of that name is there. */
  ghost predicate Activatable(p: Publisher, d: Disk, q: Request) {
    && q.key.Some? && (d.pin == Absent || d.pin == Full(q.key.value))
    && exists m, n ::
         && IsRelease(p, q.source, q.key.value, m) && IsRelease(p, q.copied, q.key.value, n)
         && m.version == n.version && SafeName(m.version) && m.target == p.host
         && m.version !in d.versions && m.version !in d.staging && m.version !in {".", ".."}
         && p.digest(q.copied).Some?
  }

  /** No call that the activation makes fails; what fails of the rest does not matter. */
  predicate ActivationWrites(d: Disk, io: Faults) {
    && !io.readPin && !io.beginCopy && !io.copy && !io.openPin && !io.rename && !io.syncVersions
    && !io.writeActive && !io.syncActive && (d.pin.Absent? ==> !io.writePin && !io.syncPin)
  }

  lemma VetOrInspect(p: Publisher, d: Disk, q: Request)
    ensures (Vet(p, d, q).Ok? && Inspect(p, q.copied, q.key.value, Vet(p, d, q).value).Ok?) <==> Activatable(p, d, q) && !q.io.readPin
  {
    hide ValidVersion, SafeName;
    if q.key.Some? && p.verify(q.source, q.key.value).Some? {
      var m := p.verify(q.source, q.key.value).value;
      SafeNames(m.version);
      if p.verify(q.copied, q.key.value).Some? {
        var n := p.verify(q.copied, q.key.value).value;
        assert IsRelease(p, q.source, q.key.value, m) <==> p.reports(q.source, m);
        assert IsRelease(p, q.copied, q.key.value, n) <==> p.reports(q.copied, n);
      }
    }
  }

  lemma SettledIff(p: Publisher, d: Disk, q: Request, key: Key, version: string, temporary: string)
    requires d.pin.Absent? || d.pin == Full(key)
    ensures Settle(p, d, q, key, version, temporary).result.Ok? <==>
            Inspect(p, q.copied, key, version).Ok? && !q.io.openPin && !q.io.rename && (d.pin.Absent? ==> !q.io.writePin && !q.io.syncPin)
  {
    hide Inspect;
  }

  /** An activation succeeds exactly when its release is activatable and every write it makes lasts. */
  lemma ActivateIff(p: Publisher, d: Disk, q: Request)
    ensures Activate(p, d, q).result.Ok? <==> Activatable(p, d, q) && ActivationWrites(d, q.io)
  {
    hide Activatable, Settle, Predecessor, Temporary;
    VetOrInspect(p, d, q);
    hide Inspect;
    if Vet(p, d, q).Ok? {
      EnsuredPin(p, d, q);
      var version := Vet(p, d, q).value;
      hide Vet;
      var temporary := Temporary(version, q.id);
      SettledIff(p, d.(staging := d.staging + {temporary}), q, q.key.value, version, temporary);
    }
  }

  lemma SettleClears(p: Publisher, d: Disk, q: Request, key: Key, version: string, temporary: string)
    ensures var o := Settle(p, d, q, key, version, temporary);
            o.result.Ok? || !q.io.remove ==> After(d, o.trace).staging == d.staging - {temporary}
  {
    hide Inspect;
  }

  lemma StageClears(p: Publisher, d: Disk, q: Request, key: Key, version: string)
    requires Temporary(version, q.id) !in d.staging
    ensures var o := Stage(p, d, q, key, version); o.result.Ok? || !q.io.remove ==> After(d, o.trace).staging == d.staging
  {
    hide Settle, Temporary;
    if !q.io.beginCopy {
      var temporary := Temporary(version, q.id);
      var begun := d.(staging := d.staging + {temporary});
      SettleClears(p, begun, q, key, version, temporary);
      assert begun.staging - {temporary} == d.staging;
    }
  }

  /** Whether it succeeds or fails, it leaves no unfinished copy, unless removing that fails. */
  lemma NoCopyLeft(p: Publisher, d: Disk, q: Request)
    requires FreshNames(d, ActivateOp(q))
    ensures Activate(p, d, q).result.Ok? || !q.io.remove ==> After(d, Activate(p, d, q).trace).staging == d.staging
  {
    hide Vet, Stage, Predecessor, Temporary;
    if Vet(p, d, q).Ok? {
      EnsuredPin(p, d, q);
      assert !Exists(d, Temporary(Vet(p, d, q).value, q.id));
      StageClears(p, d, q, q.key.value, Vet(p, d, q).value);
    }
  }

  ghost predicate Readable(a: ActiveRelease) {
    SafeName(a.current) && (a.previous.Some? ==> SafeName(a.previous.value)) && HexDigest(a.digest)
  }

  lemma ReadActiveIff(d: Disk)
    ensures ReadActive(d).Ok? <==> d.active.Some? && Readable(d.active.value)
    ensures ReadActive(d).Ok? ==> ReadActive(d) == Ok(d.active.value)
  {
    hide ValidVersion, SafeName, HexDigest;
    if d.active.Some? {
      SafeNames(d.active.value.current);
      if d.active.value.previous.Some? { SafeNames(d.active.value.previous.value); }
    }
  }

  /** On any disk, tampered with or not: what is active is run exactly when it is a release under the pinned key, of the
      recorded version and digest, and for this host. */
  lemma LaunchChecks(p: Publisher, d: Disk, io: Faults)
    ensures ActiveReleaseRoot(p, d, io).Ok? <==>
            && !io.readActive && !io.readPin && d.active.Some? && Readable(d.active.value) && d.pin.Full?
            && var a := d.active.value;
            && a.current in d.versions && p.digest(d.versions[a.current]) == Some(a.digest)
            && exists m :: IsRelease(p, d.versions[a.current], d.pin.key, m) && m.version == a.current && m.target == p.host
    ensures ActiveReleaseRoot(p, d, io).Ok? ==> ActiveReleaseRoot(p, d, io) == Ok(d.active.value.current)
  {
    hide ReadActive, Readable;
    ReadActiveIff(d);
    if d.active.Some? && d.pin.Full? && d.active.value.current in d.versions {
      var found := p.verify(d.versions[d.active.value.current], d.pin.key);
      assert found.Some? ==> (IsRelease(p, d.versions[d.active.value.current], d.pin.key, found.value) <==>
                              p.reports(d.versions[d.active.value.current], found.value));
    }
  }

  /** On any disk: a rollback succeeds exactly when the version to return to is there and is still a release of that
      version under the pinned key, and its writes last. */
  lemma RollbackChecks(p: Publisher, d: Disk, now: int, io: Faults)
    ensures Rollback(p, d, now, io).result.Ok? <==>
            && !io.readActive && !io.readPin && !io.writeActive && !io.syncActive
            && d.active.Some? && Readable(d.active.value) && d.active.value.previous.Some? && d.pin.Full?
            && var previous := d.active.value.previous.value;
            && previous in d.versions && p.digest(d.versions[previous]).Some?
            && exists m :: IsRelease(p, d.versions[previous], d.pin.key, m) && m.version == previous
  {
    hide ReadActive, Readable;
    ReadActiveIff(d);
    if d.active.Some? && d.pin.Full? && d.active.value.previous.Some? && d.active.value.previous.value in d.versions {
      var tree := d.versions[d.active.value.previous.value];
      var found := p.verify(tree, d.pin.key);
      assert found.Some? ==> (IsRelease(p, tree, d.pin.key, found.value) <==> p.reports(tree, found.value));
    }
  }

  /** What an activation, finished or not, can have done to the rest of the disk. */
  ghost predicate Leaves(d: Disk, key: Key, version: string, tree: Tree, temporary: string, e: Disk) {
    && e.staging <= d.staging + {temporary}
    && (e.versions == d.versions || e.versions == d.versions[version := tree])
    && (e.pin == d.pin || (d.pin.Absent? && (e.pin.Partial? || e.pin == Full(key))))
  }

  lemma SettleLeaves(p: Publisher, d: Disk, q: Request, key: Key, version: string, temporary: string, e: Disk)
    requires e in Settle(p, d, q, key, version, temporary).trace
    ensures Leaves(d, key, version, q.copied, temporary, e)
  {
    hide Inspect;
  }

  lemma StageLeaves(p: Publisher, d: Disk, q: Request, key: Key, version: string, e: Disk)
    requires e in Stage(p, d, q, key, version).trace
    ensures Leaves(d, key, version, q.copied, Temporary(version, q.id), e)
  {
    hide Settle, Temporary;
    var temporary := Temporary(version, q.id);
    var begun := d.(staging := d.staging + {temporary});
    if e in Settle(p, begun, q, key, version, temporary).trace {
      SettleLeaves(p, begun, q, key, version, temporary, e);
    }
  }

  lemma ActivationLeaves(p: Publisher, d: Disk, q: Request, e: Disk)
    requires Vet(p, d, q).Ok? && e in Activate(p, d, q).trace
    ensures q.key.Some?
    ensures var version := Vet(p, d, q).value; Leaves(d, q.key.value, version, q.copied, Temporary(version, q.id), e)
  {
    hide Vet, Stage, Predecessor, Temporary;
    EnsuredPin(p, d, q);
    var version := Vet(p, d, q).value;
    var staged := Stage(p, d, q, q.key.value, version).trace;
    if e in staged {
      StageLeaves(p, d, q, q.key.value, version, e);
    } else if staged != [] {
      assert After(d, staged) in staged;
      StageLeaves(p, d, q, q.key.value, version, After(d, staged));
    }
  }

  lemma VetAgain(p: Publisher, d: Disk, q: Request, e: Disk, r: Request)
    requires Vet(p, d, q).Ok? && r.source == q.source && r.key == q.key && !r.io.readPin
    requires e.pin == d.pin || (d.pin.Absent? && (e.pin.Partial? || e.pin == Full(q.key.value)))
    ensures Vet(p, e, r).Ok? <==> !e.pin.Partial? && !Exists(e, Vet(p, d, q).value)
    ensures Vet(p, e, r).Ok? ==> Vet(p, e, r).value == Vet(p, d, q).value
  {
    hide ValidVersion;
  }

  /** An activation that would have succeeded but failed or stopped anywhere can be repeated, without failures and under
      a fresh name, exactly when it left neither half a key nor the version itself behind. */
  lemma RepeatIff(p: Publisher, d: Disk, q: Request, writes: nat, id: string)
    requires Activate(p, d, q.(io := NO_FAULTS)).result.Ok?
    ensures var e := Play(p, d, Session(ActivateOp(q), writes));
            Activate(p, e, q.(id := id, io := NO_FAULTS)).result.Ok? <==>
            !e.pin.Partial? && Vet(p, d, q.(io := NO_FAULTS)).value !in e.versions
  {
    hide Activate, Vet, Inspect, Temporary, ValidVersion;
    var clean, again := q.(io := NO_FAULTS), q.(id := id, io := NO_FAULTS);
    var trace, e := Activate(p, d, q).trace, Play(p, d, Session(ActivateOp(q), writes));
    ActivateChecked(p, d, clean);
    var version := Vet(p, d, clean).value;
    EnsuredPin(p, d, clean);
    StoppedLeaves(p, d, q, writes);
    VetAgain(p, d, clean, e, again);
    TemporaryDiffers(version, q.id);
    ActivateChecked(p, e, again);
  }

  lemma StoppedLeaves(p: Publisher, d: Disk, q: Request, writes: nat)
    requires Vet(p, d, q.(io := NO_FAULTS)).Ok?
    ensures var e, version := Play(p, d, Session(ActivateOp(q), writes)), Vet(p, d, q.(io := NO_FAULTS)).value;
            q.key.Some? && Leaves(d, q.key.value, version, q.copied, Temporary(version, q.id), e)
  {
    hide Temporary, ValidVersion, Stage, Predecessor;
    var trace, e := Activate(p, d, q).trace, Play(p, d, Session(ActivateOp(q), writes));
    if e != d {
      assert e in trace;
      ActivationLeaves(p, d, q, e);
    }
  }

  /** The writes of a first activation, one by one. */
  lemma FirstActivation(p: Publisher, d: Disk, q: Request)
    requires q.io == NO_FAULTS && d.pin.Absent? && Activate(p, d, q).result.Ok?
    ensures var trace, version := Activate(p, d, q).trace, Vet(p, d, q).value;
            && |trace| == 5 && trace[1].pin.Partial?
            && trace[3].versions == d.versions[version := q.copied] && trace[3].active == d.active
  {
    hide Vet, Inspect, Predecessor, Temporary, ValidVersion;
  }

  lemma PlayAt(p: Publisher, d: Disk, op: Op, n: nat)
    requires 0 < n <= |Trace(p, d, op)|
    ensures Play(p, d, Session(op, n)) == Trace(p, d, op)[n - 1]
  {
    hide Trace;
  }

  /** Any first activation that stops after its second write leaves half a key; one that stops after its fourth leaves its
      version installed and not active; either way repeating it fails. */
  lemma FirstStops(p: Publisher, q: Request, id: string)
    requires q.io == NO_FAULTS && Activate(p, EMPTY, q).result.Ok?
    ensures var half, stranded := Play(p, EMPTY, Session(ActivateOp(q), 2)), Play(p, EMPTY, Session(ActivateOp(q), 4));
            && half.pin.Partial? && Activate(p, half, q.(id := id)).result.Err?
            && stranded.versions.Keys == {Vet(p, EMPTY, q).value} && stranded.active.None?
            && Activate(p, stranded, q.(id := id)).result.Err?
  {
    hide Activate, Vet;
    FirstActivation(p, EMPTY, q);
    PlayAt(p, EMPTY, ActivateOp(q), 2);
    PlayAt(p, EMPTY, ActivateOp(q), 4);
    RepeatIff(p, EMPTY, q, 2, id);
    RepeatIff(p, EMPTY, q, 4, id);
  }

  // ---------------------------------------------------------------- such releases exist

  const ZEROS: string := seq(64, _ => '0')

  /** A publisher whose directories are a version and a target, all signed by everyone. */
  const OPEN_HOUSE := Publisher(
    (t, _) => if |t| == 2 then Some(Manifest(t[0], t[1])) else None, (_, _) => true, _ => Some(ZEROS), "h")

  function Changing(target: string): Request {
    Request(["1", "h"], ["1", target], Some("k"), "i", 0, NO_FAULTS)
  }

  lemma ChangingActivates(target: string)
    ensures Hashes(OPEN_HOUSE) && Activate(OPEN_HOUSE, EMPTY, Changing(target)).result.Ok?
    ensures FreshNames(EMPTY, ActivateOp(Changing(target)))
  {
    hide Activate;
    var q := Changing(target);
    assert "1"[0] == '1' && ValidVersion("1");
    assert Vet(OPEN_HOUSE, EMPTY, q) == Ok("1");
    assert Inspect(OPEN_HOUSE, q.copied, "k", "1") == Ok(ZEROS);
    ActivateChecked(OPEN_HOUSE, EMPTY, q);
    forall v
      ensures !Exists(EMPTY, Temporary(v, "i"))
    {
      assert |Temporary(v, "i")| > 2;
    }
  }

  /** Concretely: stopped after two writes, or after four, an unchanged release can never be activated again. */
  lemma UnrepeatableHappens(id: string)
    ensures var q := Changing("h");
            var half, stranded := Play(OPEN_HOUSE, EMPTY, Session(ActivateOp(q), 2)), Play(OPEN_HOUSE, EMPTY, Session(ActivateOp(q), 4));
            && half.pin.Partial? && Activate(OPEN_HOUSE, half, q.(id := id)).result.Err?
            && stranded.versions.Keys == {"1"} && stranded.active.None? && Activate(OPEN_HOUSE, stranded, q.(id := id)).result.Err?
  {
    hide Activate, Play, FreshNames, Hashes;
    var q := Changing("h");
    ChangingActivates("h");
    FirstStops(OPEN_HOUSE, q, id);
    assert Vet(OPEN_HOUSE, EMPTY, q) == Ok("1") by { assert "1"[0] == '1' && ValidVersion("1"); }
  }

  /** A release whose target changes while it is copied is activated, and then cannot be run. */
  lemma ChangedTargetHappens()
    ensures var q := Changing("g");
            && Activate(OPEN_HOUSE, EMPTY, q).result.Ok?
            && ActiveReleaseRoot(OPEN_HOUSE, After(EMPTY, Activate(OPEN_HOUSE, EMPTY, q).trace), NO_FAULTS).Err?
  {
    hide Activate, ActiveReleaseRoot, FreshNames, Hashes;
    ChangingActivates("g");
    ActivatedLaunchesIff(OPEN_HOUSE, EMPTY, Changing("g"));
    assert "g"[0] != "h"[0];
  }

  // ---------------------------------------------------------------- as the desktop runs it

  /** The update area; `log` records the disk after every write since the object was opened. */
  class DesktopUpdateManager {
    const publisher: Publisher
    var versions: map<string, Tree>
    var staging: set<string>
    var pin: Pin
    var active: Option<ActiveRelease>
    ghost var log: seq<Disk>

    ghost function View(): Disk
      reads this
    {
      Disk(versions, staging, pin, active)
    }

    constructor (publisher: Publisher, disk: Disk)
      ensures this.publisher == publisher && View() == disk && log == []
    {
      this.publisher := publisher;
      versions, staging, pin, active, log := disk.versions, disk.staging, disk.pin, disk.active, [];
    }

    method PinTrustedPublicKey(key: Key, io: Faults) returns (out: Result<(), DesktopError>)
      modifies this
      ensures var o := PinKey(old(View()), key, io);
              out == o.result && log == old(log) + o.trace && View() == After(old(View()), o.trace)
    {
      if io.openPin { return Err(Io); }
      match pin
      case Absent =>
        pin := Partial;
        log := log + [View()];
        if io.writePin { return Err(Io); }
        pin := Full(key);
        log := log + [View()];
        out := if io.syncPin then Err(Io) else Ok(());
      case Partial => out := Err(UntrustedKey);
      case Full(k) => out := if k == key then Ok(()) else Err(UntrustedKey);
    }

    method Remove(temporary: string, fault: bool, error: DesktopError) returns (out: Result<string, DesktopError>)
      modifies this
      ensures var o := Discard(old(View()), temporary, fault, error);
              out == o.result && log == old(log) + o.trace && View() == After(old(View()), o.trace)
    {
      if fault { return Err(Io); }
      staging := staging - {temporary};
      log := log + [View()];
      out := Err(error);
    }

    method SettleCopy(q: Request, key: Key, version: string, temporary: string) returns (out: Result<string, DesktopError>)
      modifies this
      ensures var o := Settle(publisher, old(View()), q, key, version, temporary);
              out == o.result && log == old(log) + o.trace && View() == After(old(View()), o.trace)
    {
      var inspected := Inspect(publisher, q.copied, key, version);
      if inspected.Err? {
        out := Remove(temporary, q.io.remove, inspected.error);
        return;
      }
      var pinned := PinTrustedPublicKey(key, q.io);
      if pinned.Err? {
        out := Remove(temporary, q.io.remove, pinned.error);
        return;
      }
      if q.io.rename {
        out := Remove(temporary, q.io.remove, Io);
        return;
      }
      staging, versions := staging - {temporary}, versions[version := q.copied];
      log := log + [View()];
      out := inspected;
    }

    method StageCopy(q: Request, key: Key, version: string) returns (out: Result<string, DesktopError>)
      modifies this
      ensures var o := Stage(publisher, old(View()), q, key, version);
              out == o.result && log == old(log) + o.trace && View() == After(old(View()), o.trace)
    {
      if q.io.beginCopy { return Err(Io); }
      var temporary := Temporary(version, q.id);
      staging := staging + {temporary};
      log := log + [View()];
      if q.io.copy {
        out := Remove(temporary, q.io.remove, Io);
      } else {
        out := SettleCopy(q, key, version, temporary);
      }
    }

    method WriteActive(a: ActiveRelease, io: Faults) returns (out: Result<ActiveRelease, DesktopError>)
      modifies this
      ensures var o := Point(old(View()), a, io);
              out == o.result && log == old(log) + o.trace && View() == After(old(View()), o.trace)
    {
      if io.writeActive { return Err(Io); }
      active := Some(a);
      log := log + [View()];
      out := if io.syncActive then Err(Io) else Ok(a);
    }

    method ActivateRelease(q: Request) returns (out: Result<ActiveRelease, DesktopError>)
      modifies this
      ensures var o := Activate(publisher, old(View()), q);
              out == o.result && log == old(log) + o.trace && View() == After(old(View()), o.trace)
    {
      var vetted := Vet(publisher, Disk(versions, staging, pin, active), q);
      if vetted.Err? { return Err(vetted.error); }
      var digest := StageCopy(q, q.key.value, vetted.value);
      if digest.Err? { return Err(digest.error); }
      if q.io.syncVersions { return Err(Io); }
      var previous := Predecessor(Disk(versions, staging, pin, active), q.io.readActive);
      out := WriteActive(ActiveRelease(vetted.value, previous, digest.value, q.now), q.io);
    }

    method RollbackRelease(now: int, io: Faults) returns (out: Result<ActiveRelease, DesktopError>)
      modifies this
      ensures var o := Rollback(publisher, old(View()), now, io);
              out == o.result && log == old(log) + o.trace && View() == After(old(View()), o.trace)
    {
      if io.readActive { return Err(Io); }
      var disk := Disk(versions, staging, pin, active);
      var read := ReadActive(disk);
      if read.Err? { return Err(read.error); }
      if read.value.previous.None? || read.value.previous.value !in versions { return Err(RollbackUnavailable); }
      var previous := read.value.previous.value;
      var key := ReadPin(disk, io.readPin);
      if key.Err? { return Err(key.error); }
      var checked := Inspect(publisher, versions[previous], key.value, previous);
      if checked.Err? { return Err(checked.error); }
      out := WriteActive(ActiveRelease(previous, Some(read.value.current), checked.value, now), io);
    }
  }
}
