/** Replay-then-live hand-over of server-sent events.  A publisher assigns frame ids, retains the newest
    frames and broadcasts; a client subscribes to the broadcast, reads the retained frames past its
    cursor, delivers them, and goes on with broadcast frames newer than the last one replayed.  Publisher
    and client steps interleave in any order. */
module SseHandover {
  import opened Seqs
  import Utf8

  const U64_MAX: nat := 0xFFFF_FFFF_FFFF_FFFF

  datatype Frame = Frame(id: nat, json: string)

  datatype TransportError = Closed | BadFrame | ReplayCursor

  /** The connection state shared by the publisher and the clients. */
  datatype Connection = Connection(maxBytes: nat, maxReplay: nat, next: nat, replay: seq<Frame>, closed: bool)

  /** `valid` is the verdict on the JSON-RPC shape of the line. */
  function Publish(c: Connection, json: string, valid: bool): (Connection, Result<Frame, TransportError>) {
    if c.closed then (c, Err(Closed))
    else if json == [] || |Utf8.Encode(json)| > c.maxBytes || !valid || c.next >= U64_MAX then (c, Err(BadFrame))
    else
      var f := Frame(c.next, json);
      (c.(next := c.next + 1, replay := Newest(c.replay + [f], c.maxReplay)), Ok(f))
  }

  function Past(frames: seq<Frame>, after: nat): seq<Frame> {
    if frames == [] then []
    else (if frames[0].id > after then [frames[0]] else []) + Past(frames[1..], after)
  }

  function After(cursor: Option<nat>): nat {
    if cursor.Some? then cursor.value else 0
  }

  predicate CursorRejected(c: Connection, cursor: nat) {
    cursor >= c.next || (c.replay != [] && (cursor >= U64_MAX || cursor + 1 < c.replay[0].id))
  }

  function ReplayAfter(c: Connection, cursor: Option<nat>): Result<seq<Frame>, TransportError> {
    if cursor.Some? && CursorRejected(c, cursor.value) then Err(ReplayCursor) else Ok(Past(c.replay, After(cursor)))
  }

  // ---------------------------------------------------------------- publisher and client together

  datatype Phase =
    | Idle
    | Subscribed(at: nat)
    | Streaming(at: nat, todo: seq<Frame>, last: nat)
    | Rejected

  /** `history` lists every frame published, `sent` every frame broadcast, `outbox` the one published and
      not yet broadcast.  `received` is what the client got over all its connections, which it opens with
      the id of the last frame received, or else with `initial`; `start` is the id it then expects first. */
  datatype World = World(
    conn: Connection, history: seq<Frame>, sent: seq<Frame>, outbox: Option<Frame>, channel: nat,
    initial: Option<nat>, received: seq<Frame>, start: nat, phase: Phase)

  datatype Event =
    | PublishLine(json: string, valid: bool)
    | Broadcast
    | CloseConnection
    | Subscribe
    | ReadReplay
    | DeliverReplayed
    | ReceiveLive
    | Disconnect

  function Cursor(w: World): Option<nat> {
    if w.received == [] then w.initial else Some(w.received[|w.received| - 1].id)
  }

  function Oldest(c: Connection): nat {
    if c.replay == [] then c.next else c.replay[0].id
  }

  function Replaying(w: World, at: nat): World {
    match ReplayAfter(w.conn, Cursor(w))
    case Err(_) => w.(phase := Rejected)
    case Ok(frames) =>
      w.(phase := Streaming(at, frames, if frames == [] then After(Cursor(w)) else frames[|frames| - 1].id),
         start := if w.received != [] then w.start
                  else if w.initial.Some? then w.initial.value + 1 else Oldest(w.conn))
  }

  /** A receiver that has fallen more than the channel's capacity behind gets an error instead. */
  function Live(w: World, at: nat, last: nat): World {
    if at >= |w.sent| then w
    else if |w.sent| - at > w.channel then w.(phase := Idle)
    else if w.sent[at].id > last then
      w.(received := w.received + [w.sent[at]], phase := Streaming(at + 1, [], w.sent[at].id))
    else w.(phase := Streaming(at + 1, [], last))
  }

  function Step(w: World, e: Event): World {
    match e
    case PublishLine(json, valid) =>
      if w.outbox.Some? then w
      else
        (match Publish(w.conn, json, valid)
         case (_, Err(_)) => w
         case (c, Ok(f)) => w.(conn := c, history := w.history + [f], outbox := Some(f)))
    case Broadcast => if w.outbox.Some? then w.(sent := w.sent + [w.outbox.value], outbox := None) else w
    case CloseConnection => w.(conn := w.conn.(closed := true))
    case Subscribe => if w.phase.Idle? then w.(phase := Subscribed(|w.sent|)) else w
    case ReadReplay => if w.phase.Subscribed? then Replaying(w, w.phase.at) else w
    case DeliverReplayed =>
      if w.phase.Streaming? && w.phase.todo != [] then
        w.(received := w.received + [w.phase.todo[0]], phase := w.phase.(todo := w.phase.todo[1..]))
      else w
    case ReceiveLive => if w.phase.Streaming? && w.phase.todo == [] then Live(w, w.phase.at, w.phase.last) else w
    case Disconnect => w.(phase := Idle)
  }

  function Run(w: World, events: seq<Event>): World {
    if events == [] then w else Step(Run(w, events[..|events| - 1]), events[|events| - 1])
  }

  function Begin(maxBytes: nat, maxReplay: nat, channel: nat, initial: Option<nat>): World {
    World(Connection(maxBytes, maxReplay, 1, [], false), [], [], None, channel, initial, [], 1, Idle)
  }

  // ---------------------------------------------------------------- what every step keeps

  ghost predicate Numbered(history: seq<Frame>) {
    forall i :: 0 <= i < |history| ==> history[i].id == i + 1
  }

  ghost predicate PublisherValid(w: World) {
    && w.conn.maxReplay > 0 && Numbered(w.history) && w.conn.next <= U64_MAX
    && w.conn.next == |w.history| + 1 && w.conn.replay == Newest(w.history, w.conn.maxReplay)
    && (w.outbox.None? ==> w.sent == w.history)
    && (w.outbox.Some? ==> w.history == w.sent + [w.outbox.value])
  }

  /** What was received, followed by `rest`, is the stretch of the history from `start` up to `last`. */
  ghost predicate Stretch(w: World, rest: seq<Frame>, last: nat) {
    && 1 <= w.start <= last + 1 && last <= |w.history|
    && w.received + rest == w.history[w.start - 1..last]
  }

  ghost predicate ClientValid(w: World) {
    && (w.received != [] ==> Stretch(w, [], w.start - 1 + |w.received|))
    && (w.initial.Some? && w.received != [] ==> w.start == w.initial.value + 1)
    && match w.phase
       case Subscribed(at) => at <= |w.sent|
       case Streaming(at, todo, last) => at <= |w.sent| && at <= last && Stretch(w, todo, last)
                                         && (w.initial.Some? ==> w.start == w.initial.value + 1)
       case _ => true
  }

  ghost predicate Inv(w: World) {
    PublisherValid(w) && ClientValid(w)
  }

  // ---------------------------------------------------------------- the guarantees

  /** No gap and no duplicate: in every interleaving, over any number of connections that resume at the
      last frame received, the client has received consecutive frames of the history, contents included,
      from the one after its first cursor on; without a cursor, from the oldest one retained. */
  lemma NoGapNoDuplicate(maxBytes: nat, maxReplay: nat, channel: nat, initial: Option<nat>, events: seq<Event>)
    requires maxReplay > 0
    ensures var w := Run(Begin(maxBytes, maxReplay, channel, initial), events);
            w.received != [] ==>
              && 1 <= w.start && w.start - 1 + |w.received| <= |w.history|
              && w.received == w.history[w.start - 1..w.start - 1 + |w.received|]
              && (forall i :: 0 <= i < |w.received| ==> w.received[i].id == w.start + i)
              && (initial.Some? ==> w.start == initial.value + 1)
  {
    hide Step, Run;
    var w := Run(Begin(maxBytes, maxReplay, channel, initial), events);
    BeginValid(maxBytes, maxReplay, channel, initial);
    RunKeeps(Begin(maxBytes, maxReplay, channel, initial), events);
    InitialStays(Begin(maxBytes, maxReplay, channel, initial), events);
    assert w.received + [] == w.received;
    if w.received != [] {
      forall i | 0 <= i < |w.received|
        ensures w.received[i].id == w.start + i
      {
        assert w.received[i] == w.history[w.start - 1 + i];
      }
    }
  }

  /** Nothing is lost at the seam: a client that has drained its replay and the broadcast has received
      every frame published since its start. */
  lemma CaughtUp(maxBytes: nat, maxReplay: nat, channel: nat, initial: Option<nat>, events: seq<Event>)
    requires maxReplay > 0
    ensures var w := Run(Begin(maxBytes, maxReplay, channel, initial), events);
            w.phase.Streaming? && w.phase.todo == [] && w.phase.at == |w.sent| && w.outbox.None? ==>
              1 <= w.start <= |w.history| + 1 && w.received == w.history[w.start - 1..]
  {
    hide Step, Run, Newest, Numbered;
    var w := Run(Begin(maxBytes, maxReplay, channel, initial), events);
    BeginValid(maxBytes, maxReplay, channel, initial);
    RunKeeps(Begin(maxBytes, maxReplay, channel, initial), events);
    assert w.received + [] == w.received;
    if w.phase.Streaming? && w.phase.at == |w.sent| && w.outbox.None? {
      assert w.history[w.start - 1..|w.history|] == w.history[w.start - 1..];
    }
  }

  // ---------------------------------------------------------------- replaying

  lemma {:induction false} PastOfStretch(history: seq<Frame>, lo: nat, m: nat)
    requires Numbered(history) && lo <= |history|
    ensures Past(history[lo..], m) == history[if m <= lo then lo else if m <= |history| then m else |history|..]
    decreases |history| - lo
  {
    if lo < |history| {
      assert history[lo..][1..] == history[lo + 1..];
      PastOfStretch(history, lo + 1, m);
      if lo >= m {
        assert [history[lo]] + history[lo + 1..] == history[lo..];
      }
    }
  }

  /** The cursor is rejected exactly when it names a frame not yet published, or a frame after it is no
      longer retained; otherwise the replay is every published frame past the cursor. */
  lemma ReplayExact(w: World, m: nat)
    requires PublisherValid(w)
    ensures ReplayAfter(w.conn, Some(m)).Err? <==> m > |w.history| || m < |w.history| - |w.conn.replay|
    ensures m <= |w.history| && m >= |w.history| - |w.conn.replay| ==> ReplayAfter(w.conn, Some(m)) == Ok(w.history[m..])
    ensures ReplayAfter(w.conn, None) == Ok(w.conn.replay)
  {
    var lo := |w.history| - |w.conn.replay|;
    assert w.conn.replay == w.history[lo..];
    PastOfStretch(w.history, lo, m);
    PastOfStretch(w.history, lo, 0);
    if w.conn.replay != [] {
      assert w.conn.replay[0] == w.history[lo];
    }
  }

  lemma PublishKeeps(w: World, json: string, valid: bool)
    requires Inv(w)
    ensures Inv(Step(w, PublishLine(json, valid)))
  {
    var after := Step(w, PublishLine(json, valid));
    if after != w {
      var f := after.outbox.value;
      assert after.conn.replay == Newest(w.conn.replay + [f], w.conn.maxReplay);
      NewestGrows(w.history, f, w.conn.maxReplay);
      StretchGrows(w, after);
    }
  }

  lemma NewestGrows(history: seq<Frame>, f: Frame, n: nat)
    ensures Newest(Newest(history, n) + [f], n) == Newest(history + [f], n)
  {
    if |history| > n {
      var kept := history[|history| - n..];
      assert kept + [f] == (history + [f])[|history| - n..];
      assert (kept + [f])[1..] == (history + [f])[|history| + 1 - n..];
    }
  }

  lemma StretchGrows(w: World, after: World)
    requires ClientValid(w) && |w.history| <= |after.history| && w.history == after.history[..|w.history|]
    requires after.received == w.received && after.start == w.start && after.phase == w.phase && after.initial == w.initial
    requires |w.sent| <= |after.sent|
    ensures ClientValid(after)
  {
    if w.received != [] {
      SameStretch(w, after, [], w.start - 1 + |w.received|);
    }
    if w.phase.Streaming? {
      SameStretch(w, after, w.phase.todo, w.phase.last);
    }
  }

  lemma SameStretch(w: World, after: World, rest: seq<Frame>, last: nat)
    requires |w.history| <= |after.history| && w.history == after.history[..|w.history|]
    requires after.received == w.received && after.start == w.start && Stretch(w, rest, last)
    ensures Stretch(after, rest, last)
  {
    assert w.history[w.start - 1..last] == after.history[after.start - 1..last];
  }

  lemma Rejoin(history: seq<Frame>, a: nat, b: nat)
    requires a <= b <= |history|
    ensures history[a..b] + history[b..] == history[a..|history|]
  {
  }

  /** After a read the client holds, received or still to deliver, everything published from its start. */
  lemma ReadStretch(w: World, m: nat)
    requires PublisherValid(w) && ClientValid(w) && Cursor(w) == Some(m) && m <= |w.history|
    ensures var start := if w.received != [] then w.start else m + 1;
            1 <= start <= |w.history| + 1 && w.received + w.history[m..] == w.history[start - 1..|w.history|]
  {
    if w.received == [] {
      Rejoin(w.history, m, m);
      assert w.received + w.history[m..] == w.history[m..];
      assert w.history[m..] == w.history[m..|w.history|];
    } else {
      var n := w.start - 1 + |w.received|;
      assert w.received + [] == w.received;
      assert w.received == w.history[w.start - 1..n];
      assert w.received[|w.received| - 1] == w.history[n - 1];
      Rejoin(w.history, w.start - 1, m);
    }
  }

  lemma ReadResumed(w: World, m: nat)
    requires Inv(w) && w.phase.Subscribed? && Cursor(w) == Some(m) && Replaying(w, w.phase.at).phase.Streaming?
    ensures ClientValid(Replaying(w, w.phase.at))
  {
    hide PublisherValid;
    ReplayExact(w, m);
    ReadStretch(w, m);
    LastIs(w, m);
    var after := Replaying(w, w.phase.at);
    assert after.phase == Streaming(w.phase.at, w.history[m..], |w.history|);
  }

  lemma LastIs(w: World, m: nat)
    requires PublisherValid(w) && m <= |w.history|
    ensures |w.sent| <= |w.history|
    ensures var frames := w.history[m..];
            |w.history| == if frames == [] then m else frames[|frames| - 1].id
  {
  }

  lemma FirstRead(w: World)
    requires PublisherValid(w)
    ensures var lo := |w.history| - |w.conn.replay|;
            && lo >= 0 && w.conn.replay == w.history[lo..|w.history|] && Oldest(w.conn) == lo + 1
            && |w.history| == (if w.conn.replay == [] then 0 else w.conn.replay[|w.conn.replay| - 1].id)
            && |w.sent| <= |w.history|
  {
    var lo := |w.history| - |w.conn.replay|;
    LastIs(w, lo);
    assert w.conn.replay == w.history[lo..] == w.history[lo..|w.history|];
    if w.conn.replay != [] {
      assert w.conn.replay[0] == w.history[lo];
    }
  }

  lemma ReadFirst(w: World)
    requires Inv(w) && w.phase.Subscribed? && Cursor(w) == None
    ensures ClientValid(Replaying(w, w.phase.at))
  {
    hide PublisherValid, Oldest, ReplayAfter;
    ReplayExact(w, 0);
    FirstRead(w);
    var after := Replaying(w, w.phase.at);
    assert after.received == [] && [] + w.conn.replay == w.conn.replay;
    assert after.phase == Streaming(w.phase.at, w.conn.replay, |w.history|);
  }

  /** A client without a cursor is given every frame retained when it reads, which are the newest of the history. */
  lemma StartsAtOldest(w: World)
    requires Inv(w) && w.phase.Subscribed? && Cursor(w) == None
    ensures var after := Replaying(w, w.phase.at);
            && after.phase.Streaming? && after.phase.todo == Newest(w.history, w.conn.maxReplay)
            && after.start == |w.history| - |after.phase.todo| + 1
  {
    hide Oldest;
    FirstRead(w);
    ReplayExact(w, 0);
  }

  lemma ReadKeeps(w: World)
    requires Inv(w) && w.phase.Subscribed?
    ensures Inv(Replaying(w, w.phase.at))
  {
    hide ClientValid;
    if Cursor(w).Some? {
      if Replaying(w, w.phase.at).phase.Streaming? {
        ReadResumed(w, Cursor(w).value);
      } else {
        StillValid(w, Replaying(w, w.phase.at));
      }
    } else {
      ReadFirst(w);
    }
  }

  lemma StillValid(w: World, after: World)
    requires ClientValid(w) && after == w.(phase := Rejected)
    ensures ClientValid(after)
  {
  }

  lemma InitialStretch(history: seq<Frame>, from: nat, last: nat, n: nat)
    requires from + n <= last <= |history|
    ensures history[from..last][..n] == history[from..from + n]
  {
  }

  lemma DeliverKeeps(w: World)
    requires Inv(w) && w.phase.Streaming? && w.phase.todo != []
    ensures Inv(Step(w, DeliverReplayed))
  {
    var after, todo, last := Step(w, DeliverReplayed), w.phase.todo, w.phase.last;
    assert after.received + after.phase.todo == w.received + todo;
    var n := |after.received|;
    assert after.received + [] == after.received;
    assert after.received == (w.received + todo)[..n];
    InitialStretch(w.history, w.start - 1, last, n);
  }

  lemma OneFurther(history: seq<Frame>, from: nat, last: nat)
    requires from <= last < |history|
    ensures history[from..last + 1] == history[from..last] + [history[last]]
  {
  }

  lemma NextSent(w: World, at: nat)
    requires PublisherValid(w) && at < |w.sent|
    ensures at < |w.history| && w.sent[at] == w.history[at] && w.history[at].id == at + 1
  {
  }

  /** A frame that is new to the client continues its stretch. */
  lemma LiveDelivers(w: World)
    requires Inv(w) && w.phase.Streaming? && w.phase.todo == [] && w.phase.at < |w.sent| && w.sent[w.phase.at].id > w.phase.last
    ensures var at := w.phase.at;
            ClientValid(w.(received := w.received + [w.sent[at]], phase := Streaming(at + 1, [], w.sent[at].id)))
  {
    var at, last := w.phase.at, w.phase.last;
    NextSent(w, at);
    hide PublisherValid;
    assert at == last;
    OneFurther(w.history, w.start - 1, last);
    var more := w.received + [w.sent[at]];
    assert w.received + [] == w.received && more + [] == more;
    assert |more| == last + 1 - (w.start - 1);
  }

  lemma LiveKeeps(w: World)
    requires Inv(w) && w.phase.Streaming? && w.phase.todo == []
    ensures Inv(Live(w, w.phase.at, w.phase.last))
  {
    var at, last, after := w.phase.at, w.phase.last, Live(w, w.phase.at, w.phase.last);
    SamePublisher(w, after);
    if at < |w.sent| {
      NextSent(w, at);
      hide PublisherValid, Stretch;
      if |w.sent| - at <= w.channel && w.sent[at].id > last {
        LiveDelivers(w);
      }
    }
  }

  lemma SamePublisher(w: World, after: World)
    requires PublisherValid(w) && after.conn == w.conn && after.history == w.history && after.sent == w.sent && after.outbox == w.outbox
    ensures PublisherValid(after)
  {
  }

  lemma StepKeeps(w: World, e: Event)
    requires Inv(w)
    ensures Inv(Step(w, e))
  {
    match e
    case PublishLine(json, valid) => PublishKeeps(w, json, valid);
    case Broadcast => StretchGrows(w, Step(w, e));
    case ReadReplay => if w.phase.Subscribed? { ReadKeeps(w); }
    case DeliverReplayed => if w.phase.Streaming? && w.phase.todo != [] { DeliverKeeps(w); }
    case ReceiveLive => if w.phase.Streaming? && w.phase.todo == [] { LiveKeeps(w); }
    case _ =>
  }

  lemma {:induction false} RunKeeps(w: World, events: seq<Event>)
    requires Inv(w)
    ensures Inv(Run(w, events))
  {
    if events != [] {
      RunKeeps(w, events[..|events| - 1]);
      StepKeeps(Run(w, events[..|events| - 1]), events[|events| - 1]);
    }
  }

  lemma BeginValid(maxBytes: nat, maxReplay: nat, channel: nat, initial: Option<nat>)
    requires maxReplay > 0
    ensures Inv(Begin(maxBytes, maxReplay, channel, initial))
  {
  }

  lemma {:induction false} InitialStays(w: World, events: seq<Event>)
    ensures Run(w, events).initial == w.initial
  {
    if events != [] {
      InitialStays(w, events[..|events| - 1]);
    }
  }

  // ---------------------------------------------------------------- what is published

  /** Lines taken so far, whether the last one still waits for its broadcast, and whether the connection is closed. */
  datatype Feed = Feed(lines: seq<string>, waiting: bool, closed: bool)

  /** An open connection takes every line that is not empty, within the byte bound and valid, one at a time, while there
      are ids. */
  function Taken(maxBytes: nat, events: seq<Event>): Feed {
    if events == [] then Feed([], false, false)
    else
      var f := Taken(maxBytes, events[..|events| - 1]);
      match events[|events| - 1]
      case PublishLine(json, valid) =>
        if !f.waiting && !f.closed && 0 < |json| && |Utf8.Encode(json)| <= maxBytes && valid && |f.lines| + 1 < U64_MAX
        then Feed(f.lines + [json], true, false) else f
      case Broadcast => f.(waiting := false)
      case CloseConnection => f.(closed := true)
      case _ => f
  }

  function Lines(frames: seq<Frame>): seq<string> {
    seq(|frames|, i requires 0 <= i < |frames| => frames[i].json)
  }

  /** Over every run the history is exactly the lines taken. */
  lemma {:induction false} RunPublishes(maxBytes: nat, maxReplay: nat, channel: nat, initial: Option<nat>, events: seq<Event>)
    requires maxReplay > 0
    ensures var w, f := Run(Begin(maxBytes, maxReplay, channel, initial), events), Taken(maxBytes, events);
            && Lines(w.history) == f.lines && w.outbox.Some? == f.waiting && w.conn.closed == f.closed
            && w.conn.maxBytes == maxBytes && w.conn.maxReplay == maxReplay && w.channel == channel
  {
    if events != [] {
      var before := events[..|events| - 1];
      var w := Run(Begin(maxBytes, maxReplay, channel, initial), before);
      RunPublishes(maxBytes, maxReplay, channel, initial, before);
      BeginValid(maxBytes, maxReplay, channel, initial);
      RunKeeps(Begin(maxBytes, maxReplay, channel, initial), before);
      hide Run, Utf8.Encode, ClientValid, Newest;
      StepPublishes(w, events[|events| - 1]);
    }
  }

  lemma StepPublishes(w: World, e: Event)
    requires PublisherValid(w)
    ensures var after := Step(w, e);
            && after.conn.maxBytes == w.conn.maxBytes && after.conn.maxReplay == w.conn.maxReplay && after.channel == w.channel
            && (after.conn.closed <==> w.conn.closed || e.CloseConnection?)
            && if e.PublishLine? && w.outbox.None? && !w.conn.closed && 0 < |e.json| && |Utf8.Encode(e.json)| <= w.conn.maxBytes
                  && e.valid && |w.history| + 1 < U64_MAX
               then Lines(after.history) == Lines(w.history) + [e.json] && after.outbox.Some?
               else after.history == w.history && (after.outbox.Some? <==> w.outbox.Some? && !e.Broadcast?)
  {
    hide Utf8.Encode, Newest, Numbered;
  }

  // ---------------------------------------------------------------- when a client is turned away or dropped

  /** A client that reads is turned away exactly when it asks for what is not published yet, or for what is no longer
      retained; otherwise it is given everything past its cursor. */
  lemma TurnedAwayIff(maxBytes: nat, maxReplay: nat, channel: nat, initial: Option<nat>, events: seq<Event>)
    requires maxReplay > 0 && Run(Begin(maxBytes, maxReplay, channel, initial), events).phase.Subscribed?
    ensures var w := Run(Begin(maxBytes, maxReplay, channel, initial), events);
            var after, cursor := Step(w, ReadReplay), Cursor(w);
            && (after.phase.Rejected? <==> cursor.Some? && (cursor.value > |w.history| || cursor.value + maxReplay < |w.history|))
            && (!after.phase.Rejected? ==>
                  && after.phase.Streaming?
                  && after.phase.todo == if cursor.Some? then w.history[cursor.value..] else Newest(w.history, maxReplay))
  {
    var w := Run(Begin(maxBytes, maxReplay, channel, initial), events);
    BeginValid(maxBytes, maxReplay, channel, initial);
    RunKeeps(Begin(maxBytes, maxReplay, channel, initial), events);
    RunPublishes(maxBytes, maxReplay, channel, initial, events);
    hide Run, ClientValid, Taken, Oldest, ReplayAfter, Lines;
    ReplayExact(w, if Cursor(w).Some? then Cursor(w).value else 0);
  }

  /** How many broadcast frames a client has not taken from the channel since it subscribed. */
  function Behind(start: World, events: seq<Event>): nat {
    if events == [] then 0
    else
      var before, e := events[..|events| - 1], events[|events| - 1];
      NextBehind(Run(start, before), e, Behind(start, before))
  }

  function NextBehind(w: World, e: Event, n: nat): nat {
    match e
    case Subscribe => if w.phase.Idle? then 0 else n
    case Broadcast => if w.outbox.Some? then n + 1 else n
    case ReceiveLive => if w.phase.Streaming? && w.phase.todo == [] && n > 0 then n - 1 else n
    case _ => n
  }

  /** The client has read the channel up to all but `n` frames. */
  predicate Reads(w: World, n: nat) {
    w.phase.Subscribed? || w.phase.Streaming? ==> w.phase.at <= |w.sent| && n == |w.sent| - w.phase.at
  }

  lemma PublishReads(w: World, json: string, valid: bool, n: nat)
    requires Reads(w, n)
    ensures Reads(Step(w, PublishLine(json, valid)), n)
  {
    hide Publish;
  }

  lemma ReplayReads(w: World, n: nat)
    requires Reads(w, n)
    ensures Reads(Step(w, ReadReplay), n)
  {
    hide ReplayAfter, Oldest, Cursor;
  }

  lemma StepReads(w: World, e: Event, n: nat)
    requires Reads(w, n)
    ensures Reads(Step(w, e), NextBehind(w, e, n))
  {
    match e
    case PublishLine(json, valid) => PublishReads(w, json, valid, n);
    case ReadReplay => ReplayReads(w, n);
    case _ => hide Publish, Replaying;
  }

  lemma {:induction false} BehindIs(start: World, events: seq<Event>)
    requires start.phase.Idle?
    ensures Reads(Run(start, events), Behind(start, events))
  {
    hide Step, NextBehind;
    if events != [] {
      var before := events[..|events| - 1];
      BehindIs(start, before);
      StepReads(Run(start, before), events[|events| - 1], Behind(start, before));
    }
  }

  /** A client that reads from the channel is dropped exactly when more frames than the channel holds were broadcast
      since it last took one, or subscribed. */
  lemma DroppedIff(maxBytes: nat, maxReplay: nat, channel: nat, initial: Option<nat>, events: seq<Event>)
    requires maxReplay > 0
    requires var w := Run(Begin(maxBytes, maxReplay, channel, initial), events); w.phase.Streaming? && w.phase.todo == []
    ensures var start := Begin(maxBytes, maxReplay, channel, initial);
            Step(Run(start, events), ReceiveLive).phase.Idle? <==> Behind(start, events) > channel
  {
    BehindIs(Begin(maxBytes, maxReplay, channel, initial), events);
    RunPublishes(maxBytes, maxReplay, channel, initial, events);
    hide Run, Behind, Taken, Lines;
  }

  // ---------------------------------------------------------------- the connection as it runs

  method Filter(frames: seq<Frame>, after: nat) returns (newer: seq<Frame>)
    ensures newer == Past(frames, after)
  {
    newer := [];
    var i := |frames|;
    while i > 0
      invariant 0 <= i <= |frames| && newer == Past(frames[i..], after)
    {
      i := i - 1;
      assert frames[i..][0] == frames[i] && frames[i..][1..] == frames[i + 1..];
      if frames[i].id > after {
        newer := [frames[i]] + newer;
      }
    }
    assert frames[0..] == frames;
  }

  class AcpTransportConnection {
    const maxBytes: nat
    const maxReplay: nat
    var next: nat
    var replay: seq<Frame>
    var closed: bool

    ghost function View(): Connection
      reads this
    {
      Connection(maxBytes, maxReplay, next, replay, closed)
    }

    constructor (maxBytes: nat, maxReplay: nat)
      ensures View() == Connection(maxBytes, maxReplay, 1, [], false)
    {
      this.maxBytes, this.maxReplay := maxBytes, maxReplay;
      next, replay, closed := 1, [], false;
    }

    method PublishLine(json: string, valid: bool) returns (out: Result<Frame, TransportError>)
      modifies this`next, this`replay
      ensures (View(), out) == Publish(old(View()), json, valid)
    {
      if closed { return Err(Closed); }
      if json == [] || |Utf8.Encode(json)| > maxBytes { return Err(BadFrame); }
      if !valid { return Err(BadFrame); }
      var frame := Frame(next, json);
      if next >= U64_MAX { return Err(BadFrame); }
      next := next + 1;
      Retain(frame);
      out := Ok(frame);
    }

    method Retain(frame: Frame)
      modifies this`replay
      ensures replay == Newest(old(replay) + [frame], maxReplay)
    {
      replay := replay + [frame];
      ghost var all := replay;
      while |replay| > maxReplay
        invariant |replay| <= |all| && replay == all[|all| - |replay|..] && |replay| >= Min(|all|, maxReplay)
      {
        replay := replay[1..];
      }
    }

    method RetainedAfter(cursor: Option<nat>) returns (out: Result<seq<Frame>, TransportError>)
      ensures out == ReplayAfter(View(), cursor)
    {
      if cursor.Some? {
        var c := cursor.value;
        if c >= next || (replay != [] && (c >= U64_MAX || c + 1 < replay[0].id)) { return Err(ReplayCursor); }
      }
      var frames := Filter(replay, After(cursor));
      out := Ok(frames);
    }
  }
}
