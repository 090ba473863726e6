/** The command worker of the terminal client: commands are taken from a queue, remembered, sent, and
    sent again on every new connection until their result arrives.  The environment decides every
    outcome; a run is determined by the sequence of its answers and leaves a log of what happened. */
module CommandWorker {
  import Text

  type Id = string

  datatype Command = Command(id: Id, body: string, protocol: nat)

  /** Answers of the outside world; each interaction consumes one and reads the part it asks for. */
  datatype Polled = Took(c: Command) | NoCommand | Disconnected
  datatype Received = GotResult(id: Id) | GotOther | TimedOut | Broken
  datatype Answer = Answer(ok: bool, polled: Polled, received: Received, protocol: nat)

  datatype Notice = CommandFailed | Reconnecting | Reconnected | ReconnectFailed | ResultFor(id: Id) | OtherMessage

  /** What can be observed: a command taken, one that reached the connection now open, a new connection,
      one that could not be had, a notice handed on, the worker waiting for a message, and what came of that. */
  datatype Act =
    | Take(c: Command) | Sent(c: Command) | Connected(protocol: nat) | NoConnection
    | Handed(n: Notice) | Waits | Heard(r: Received)

  // ---------------------------------------------------------------- what a log should say

  /** The command `log[t]` took has had no result handed on since. */
  ghost predicate Unanswered(log: seq<Act>, t: nat) {
    t < |log| && log[t].Take? && forall j :: t < j < |log| ==> log[j] != Handed(ResultFor(log[t].c.id))
  }

  /** No later take reuses the identity. */
  ghost predicate LatestOfItsId(log: seq<Act>, t: nat) {
    t < |log| && log[t].Take? && forall j :: t < j < |log| && log[j].Take? ==> log[j].c.id != log[t].c.id
  }

  /** Sent at `j`, with the same identity and body, on the connection still in use. */
  ghost predicate SentOnCurrent(log: seq<Act>, j: nat, c: Command) {
    j < |log| && log[j].Sent? && log[j].c.id == c.id && log[j].c.body == c.body
    && forall i :: j < i < |log| ==> !log[i].Connected?
  }

  /** Every command taken and not answered has been sent, after it was taken, on the connection in use. */
  ghost predicate AllSent(log: seq<Act>) {
    forall t: nat :: Unanswered(log, t) && LatestOfItsId(log, t) ==>
      exists j: nat :: t < j && SentOnCurrent(log, j, log[t].c)
  }

  /** It holds whenever the worker waits, and whenever it announces a reconnection. */
  ghost predicate Safe(log: seq<Act>) {
    forall i :: 0 <= i < |log| && (log[i] == Waits || log[i] == Handed(Reconnected)) ==> AllSent(log[..i])
  }

  /** One connection never carries a command twice, unless its identity was taken again. */
  ghost predicate AtMostOnce(log: seq<Act>) {
    forall i, k :: 0 <= i < k < |log| && log[i].Sent? && log[k].Sent? && log[i].c.id == log[k].c.id
                   && (forall j :: i < j < k ==> !log[j].Connected?) ==>
      exists t :: i < t < k && log[t].Take? && log[t].c.id == log[k].c.id
  }

  // ---------------------------------------------------------------- summaries of a log

  /** Commands taken and not answered, by identity. */
  function Remembered(log: seq<Act>): map<Id, Command> {
    if log == [] then map[]
    else
      var m, a := Remembered(log[..|log| - 1]), log[|log| - 1];
      if a.Take? then m[a.c.id := a.c]
      else if a.Handed? && a.n.ResultFor? then m - {a.n.id}
      else m
  }

  /** Identity and body of the commands sent on the connection in use after they were last taken. */
  function OnCurrent(log: seq<Act>): map<Id, string> {
    if log == [] then map[]
    else
      var m, a := OnCurrent(log[..|log| - 1]), log[|log| - 1];
      if a.Take? then m - {a.c.id}
      else if a.Connected? then map[]
      else if a.Sent? then m[a.c.id := a.c.body]
      else m
  }

  lemma RememberedStep(log: seq<Act>, a: Act)
    ensures Remembered(log + [a]) ==
            if a.Take? then Remembered(log)[a.c.id := a.c]
            else if a.Handed? && a.n.ResultFor? then Remembered(log) - {a.n.id}
            else Remembered(log)
    ensures OnCurrent(log + [a]) ==
            if a.Take? then OnCurrent(log) - {a.c.id}
            else if a.Connected? then map[]
            else if a.Sent? then OnCurrent(log)[a.c.id := a.c.body]
            else OnCurrent(log)
  {
    assert (log + [a])[..|log|] == log;
  }

  lemma {:induction false} RememberedMeaning(log: seq<Act>, t: nat)
    requires Unanswered(log, t) && LatestOfItsId(log, t)
    ensures log[t].c.id in Remembered(log) && Remembered(log)[log[t].c.id] == log[t].c
  {
    var n := |log| - 1;
    if t < n {
      assert forall j :: 0 <= j < n ==> log[..n][j] == log[j];
      assert Unanswered(log[..n], t) && LatestOfItsId(log[..n], t);
      RememberedMeaning(log[..n], t);
    }
  }

  lemma {:induction false} OnCurrentMeaning(log: seq<Act>, id: Id) returns (j: nat)
    requires id in OnCurrent(log)
    ensures j < |log| && log[j].Sent? && log[j].c.id == id && log[j].c.body == OnCurrent(log)[id]
    ensures forall i :: j < i < |log| ==> !log[i].Connected? && !(log[i].Take? && log[i].c.id == id)
  {
    var n := |log| - 1;
    if log[n].Sent? && log[n].c.id == id {
      j := n;
    } else {
      j := OnCurrentMeaning(log[..n], id);
      assert forall i :: 0 <= i < n ==> log[..n][i] == log[i];
    }
  }

  lemma {:induction false} StillOnCurrent(log: seq<Act>, i: nat)
    requires i < |log| && log[i].Sent?
    requires forall j :: i < j < |log| ==> !log[j].Connected? && !(log[j].Take? && log[j].c.id == log[i].c.id)
    ensures log[i].c.id in OnCurrent(log)
  {
    var n := |log| - 1;
    if i < n {
      assert forall j :: 0 <= j < n ==> log[..n][j] == log[j];
      StillOnCurrent(log[..n], i);
    }
  }

  ghost predicate Covers(sent: map<Id, string>, pending: map<Id, Command>) {
    forall id :: id in pending ==> id in sent && sent[id] == pending[id].body
  }

  /** The two summaries are enough for the guarantee. */
  lemma CoveredIsAllSent(log: seq<Act>)
    requires Covers(OnCurrent(log), Remembered(log))
    ensures AllSent(log)
  {
    forall t: nat | Unanswered(log, t) && LatestOfItsId(log, t)
      ensures exists j: nat :: t < j && SentOnCurrent(log, j, log[t].c)
    {
      RememberedMeaning(log, t);
      var j := OnCurrentMeaning(log, log[t].c.id);
      assert t < j;
      assert SentOnCurrent(log, j, log[t].c);
    }
  }

  lemma SafeExtend(log: seq<Act>, a: Act)
    requires Safe(log)
    requires a == Waits || a == Handed(Reconnected) ==> Covers(OnCurrent(log), Remembered(log))
    ensures Safe(log + [a])
  {
    var more := log + [a];
    forall i | 0 <= i < |more| && (more[i] == Waits || more[i] == Handed(Reconnected))
      ensures AllSent(more[..i])
    {
      if i < |log| {
        assert more[..i] == log[..i] && more[i] == log[i];
      } else {
        assert more[..i] == log;
        CoveredIsAllSent(log);
      }
    }
  }

  lemma TakenBetween(log: seq<Act>, i: nat, id: Id)
    requires i < |log| && log[i].Sent? && log[i].c.id == id && id !in OnCurrent(log)
    requires forall j :: i < j < |log| ==> !log[j].Connected?
    ensures exists t :: i < t < |log| && log[t].Take? && log[t].c.id == id
  {
    if forall t :: i < t < |log| && log[t].Take? ==> log[t].c.id != id {
      StillOnCurrent(log, i);
    }
  }

  lemma OnceExtend(log: seq<Act>, a: Act)
    requires AtMostOnce(log) && (a.Sent? ==> a.c.id !in OnCurrent(log))
    ensures AtMostOnce(log + [a])
  {
    hide OnCurrent;
    var more := log + [a];
    assert forall j :: 0 <= j < |log| ==> more[j] == log[j];
    forall i, k | 0 <= i < k < |more| && more[i].Sent? && more[k].Sent? && more[i].c.id == more[k].c.id
                  && (forall j :: i < j < k ==> !more[j].Connected?)
      ensures exists t :: i < t < k && more[t].Take? && more[t].c.id == more[k].c.id
    {
      if k < |log| {
        var t :| i < t < k && log[t].Take? && log[t].c.id == log[k].c.id;
        assert more[t] == log[t];
      } else {
        TakenBetween(log, i, a.c.id);
        var t :| i < t < |log| && log[t].Take? && log[t].c.id == a.c.id;
        assert more[t] == log[t];
      }
    }
  }

  // ---------------------------------------------------------------- the worker as steps

  /** The remembered commands in order of identity, one per identity. */
  function Put(pending: seq<Command>, c: Command): seq<Command> {
    if pending == [] then [c]
    else if pending[0].id == c.id then [c] + pending[1..]
    else if Text.Before(c.id, pending[0].id) then [c] + pending
    else [pending[0]] + Put(pending[1..], c)
  }

  function Drop(pending: seq<Command>, id: Id): seq<Command> {
    if pending == [] then []
    else (if pending[0].id == id then [] else [pending[0]]) + Drop(pending[1..], id)
  }

  /** Why the connection is being recovered: a send failed, or a receive did. */
  datatype Cause = SendFailed | ReceiveFailed

  const RESTS: nat := 10

  type pos = n: nat | n > 0 witness 1

  datatype Pc =
    | Polling
    | Sending(c: Command)
    | Receiving
    | HandingOn(n: Notice)
    | Announcing(cause: Cause)
    | Checking(cause: Cause)
    | Connecting(cause: Cause)
    | Complaining(cause: Cause)
    | Resting(cause: Cause, left: pos)
    | Replaying(cause: Cause, todo: seq<Command>)
    | Confirming(cause: Cause)
    | Stopped

  datatype St = St(pc: Pc, pending: seq<Command>, protocol: nat, log: seq<Act>)

  function Note(log: seq<Act>, n: Notice): seq<Act> {
    log + [Handed(n)]
  }

  function FailedNotices(n: nat): seq<Act> {
    if n == 0 then [] else FailedNotices(n - 1) + [Handed(CommandFailed)]
  }

  /** Recovery begins by reporting every remembered command as failed for now. */
  function Recover(s: St, log: seq<Act>, cause: Cause): St {
    s.(pc := Announcing(cause), log := log + FailedNotices(|s.pending|))
  }

  /** Giving up; after a failed receive this is announced. */
  function GiveUp(s: St, cause: Cause): St {
    s.(pc := Stopped, log := if cause == ReceiveFailed then Note(s.log, ReconnectFailed) else s.log)
  }

  function Resend(cause: Cause, todo: seq<Command>): Pc {
    if todo == [] then Confirming(cause) else Replaying(cause, todo)
  }

  function Rest(cause: Cause, left: nat): Pc {
    if left == 0 then Checking(cause) else Resting(cause, left)
  }

  function Step(s: St, a: Answer): St {
    match s.pc
    case Polling =>
      (match a.polled
       case Took(c) => s.(pc := Sending(c), pending := Put(s.pending, c), log := s.log + [Take(c)])
       case NoCommand => s.(pc := Receiving, log := s.log + [Waits])
       case Disconnected => s.(pc := Stopped))
    case Sending(c) =>
      if a.ok then s.(pc := Polling, log := s.log + [Sent(c.(protocol := s.protocol))])
      else Recover(s, Note(s.log, CommandFailed), SendFailed)
    case Receiving =>
      var log := s.log + [Heard(a.received)];
      (match a.received
       case GotResult(id) => s.(pc := HandingOn(ResultFor(id)), pending := Drop(s.pending, id), log := log)
       case GotOther => s.(pc := HandingOn(OtherMessage), log := log)
       case TimedOut => s.(pc := Polling, log := log)
       case Broken => Recover(s, log, ReceiveFailed))
    case HandingOn(n) => if a.ok then s.(pc := Polling, log := Note(s.log, n)) else s.(pc := Stopped)
    case Announcing(cause) =>
      if a.ok then s.(pc := Checking(cause), log := Note(s.log, Reconnecting)) else GiveUp(s, cause)
    case Checking(cause) => if a.ok then GiveUp(s, cause) else s.(pc := Connecting(cause))
    case Connecting(cause) =>
      if a.ok then s.(pc := Resend(cause, s.pending), protocol := a.protocol, log := s.log + [Connected(a.protocol)])
      else s.(pc := Complaining(cause), log := s.log + [NoConnection])
    case Complaining(cause) =>
      if a.ok then s.(pc := Rest(cause, RESTS), log := Note(s.log, ReconnectFailed)) else GiveUp(s, cause)
    case Resting(cause, left) =>
      if a.ok then GiveUp(s, cause) else s.(pc := Rest(cause, left - 1))
    case Replaying(cause, todo) =>
      if a.ok && todo != [] then
        s.(pc := Resend(cause, todo[1..]), log := s.log + [Sent(todo[0].(protocol := s.protocol))])
      else s.(pc := Checking(cause))
    case Confirming(cause) =>
      if a.ok then s.(pc := Polling, log := Note(s.log, Reconnected)) else GiveUp(s, cause)
    case Stopped => s
  }

  /** The state after the given answers. */
  function Run(s: St, env: seq<Answer>): St
    decreases |env|
  {
    if env == [] then s else Run(Step(s, env[0]), env[1..])
  }

  function Start(protocol: nat): St {
    St(Polling, [], protocol, [Connected(protocol)])
  }

  // ---------------------------------------------------------------- the remembered commands

  function ToMap(pending: seq<Command>): map<Id, Command> {
    if pending == [] then map[] else ToMap(pending[1..])[pending[0].id := pending[0]]
  }

  ghost predicate Sorted(pending: seq<Command>) {
    forall i, j :: 0 <= i < j < |pending| ==> Text.Before(pending[i].id, pending[j].id)
  }

  lemma {:induction false} PutIsUpdate(pending: seq<Command>, c: Command)
    ensures ToMap(Put(pending, c)) == ToMap(pending)[c.id := c]
  {
    if pending != [] && pending[0].id != c.id {
      var rest := Put(pending[1..], c);
      PutIsUpdate(pending[1..], c);
      if Text.Before(c.id, pending[0].id) {
        assert ([c] + pending)[1..] == pending;
      } else {
        assert ([pending[0]] + rest)[1..] == rest;
      }
    } else if pending != [] {
      assert ([c] + pending[1..])[1..] == pending[1..];
    }
  }

  lemma {:induction false} DropIsRemoval(pending: seq<Command>, id: Id)
    ensures ToMap(Drop(pending, id)) == ToMap(pending) - {id}
  {
    if pending != [] {
      var rest := Drop(pending[1..], id);
      DropIsRemoval(pending[1..], id);
      if pending[0].id == id {
        assert Drop(pending, id) == rest;
      } else {
        var kept := [pending[0]] + rest;
        assert Drop(pending, id) == kept && kept[0] == pending[0] && kept[1..] == rest;
      }
    }
  }

  lemma {:induction false} DropSorted(pending: seq<Command>, id: Id)
    requires Sorted(pending)
    ensures Sorted(Drop(pending, id)) && forall c :: c in Drop(pending, id) ==> c in pending
  {
    if pending != [] {
      var rest := Drop(pending[1..], id);
      DropSorted(pending[1..], id);
      forall i | 0 <= i < |rest|
        ensures Text.Before(pending[0].id, rest[i].id)
      {
        assert rest[i] in rest && rest[i] in pending[1..];
      }
    }
  }

  lemma {:induction false} PutSorted(pending: seq<Command>, c: Command)
    requires Sorted(pending)
    ensures Sorted(Put(pending, c))
    ensures forall x :: x in Put(pending, c) ==> x == c || x in pending
  {
    if pending != [] {
      Text.BeforeTotal(c.id, pending[0].id);
      if pending[0].id == c.id {
      } else if Text.Before(c.id, pending[0].id) {
        forall i | 0 < i < |pending|
          ensures Text.Before(c.id, pending[i].id)
        {
          Text.BeforeTransitive(c.id, pending[0].id, pending[i].id);
        }
      } else {
        PutSorted(pending[1..], c);
        var rest := Put(pending[1..], c);
        forall i | 0 <= i < |rest|
          ensures Text.Before(pending[0].id, rest[i].id)
        {
          assert rest[i] in rest;
        }
      }
    }
  }

  lemma {:induction false} InMap(pending: seq<Command>, id: Id) returns (i: nat)
    requires id in ToMap(pending)
    ensures i < |pending| && pending[i].id == id && ToMap(pending)[id] == pending[i]
  {
    if pending[0].id == id {
      i := 0;
    } else {
      i := InMap(pending[1..], id);
      i := i + 1;
    }
  }

  // ---------------------------------------------------------------- what every step keeps

  function CurrentProtocol(log: seq<Act>): nat {
    if log == [] then 0
    else if log[|log| - 1].Connected? then log[|log| - 1].protocol
    else CurrentProtocol(log[..|log| - 1])
  }

  /** Every command goes out under the protocol negotiated for the connection it is sent on. */
  ghost predicate Stamped(log: seq<Act>) {
    forall i :: 0 <= i < |log| && log[i].Sent? ==> log[i].c.protocol == CurrentProtocol(log[..i])
  }

  ghost predicate LogValid(log: seq<Act>) {
    Safe(log) && AtMostOnce(log) && Stamped(log)
  }

  lemma LogExtend(log: seq<Act>, a: Act)
    requires LogValid(log)
    requires a == Waits || a == Handed(Reconnected) ==> Covers(OnCurrent(log), Remembered(log))
    requires a.Sent? ==> a.c.id !in OnCurrent(log) && a.c.protocol == CurrentProtocol(log)
    ensures LogValid(log + [a])
    ensures CurrentProtocol(log + [a]) == if a.Connected? then a.protocol else CurrentProtocol(log)
  {
    SafeExtend(log, a);
    OnceExtend(log, a);
    var more := log + [a];
    assert more[..|log|] == log;
    assert forall i :: 0 <= i < |log| ==> more[..i] == log[..i] && more[i] == log[i];
  }

  lemma {:induction false} NoticesExtend(log: seq<Act>, n: nat)
    requires LogValid(log)
    ensures var more := log + FailedNotices(n);
            && LogValid(more) && CurrentProtocol(more) == CurrentProtocol(log)
            && Remembered(more) == Remembered(log) && OnCurrent(more) == OnCurrent(log)
  {
    if n == 0 {
      assert log + [] == log;
    } else {
      var fewer := log + FailedNotices(n - 1);
      NoticesExtend(log, n - 1);
      assert log + FailedNotices(n) == fewer + [Handed(CommandFailed)];
      LogExtend(fewer, Handed(CommandFailed));
      RememberedStep(fewer, Handed(CommandFailed));
    }
  }

  /** The replay has reached all but `todo` of the remembered commands, and no others. */
  ghost predicate Replayed(sent: map<Id, string>, pending: seq<Command>, todo: seq<Command>) {
    && |todo| <= |pending| && todo == pending[|pending| - |todo|..]
    && (forall i :: 0 <= i < |pending| - |todo| ==> pending[i].id in sent && sent[pending[i].id] == pending[i].body)
    && (forall id :: id in sent ==> exists i :: 0 <= i < |pending| - |todo| && pending[i].id == id)
  }

  ghost predicate Progress(s: St) {
    match s.pc
    case Sending(c) =>
      && c.id in Remembered(s.log) && Remembered(s.log)[c.id] == c && c.id !in OnCurrent(s.log)
      && Covers(OnCurrent(s.log), Remembered(s.log) - {c.id})
    case Replaying(_, todo) => todo != [] && Replayed(OnCurrent(s.log), s.pending, todo)
    case Polling => Covers(OnCurrent(s.log), Remembered(s.log))
    case Receiving => Covers(OnCurrent(s.log), Remembered(s.log))
    case HandingOn(_) => Covers(OnCurrent(s.log), Remembered(s.log))
    case Confirming(_) => Covers(OnCurrent(s.log), Remembered(s.log))
    case _ => true
  }

  ghost predicate Inv(s: St) {
    && LogValid(s.log) && Sorted(s.pending)
    && (!s.pc.Stopped? ==>
          && s.protocol == CurrentProtocol(s.log)
          && ToMap(s.pending) == (if s.pc.HandingOn? && s.pc.n.ResultFor? then Remembered(s.log) - {s.pc.n.id}
                                  else Remembered(s.log)))
    && Progress(s)
  }

  lemma LogStep(s: St, a: Act)
    requires LogValid(s.log)
    requires a == Waits || a == Handed(Reconnected) ==> Covers(OnCurrent(s.log), Remembered(s.log))
    requires a.Sent? ==> a.c.id !in OnCurrent(s.log) && a.c.protocol == CurrentProtocol(s.log)
    ensures LogValid(s.log + [a])
    ensures CurrentProtocol(s.log + [a]) == if a.Connected? then a.protocol else CurrentProtocol(s.log)
    ensures Remembered(s.log + [a]) ==
            if a.Take? then Remembered(s.log)[a.c.id := a.c]
            else if a.Handed? && a.n.ResultFor? then Remembered(s.log) - {a.n.id}
            else Remembered(s.log)
    ensures OnCurrent(s.log + [a]) ==
            if a.Take? then OnCurrent(s.log) - {a.c.id}
            else if a.Connected? then map[]
            else if a.Sent? then OnCurrent(s.log)[a.c.id := a.c.body]
            else OnCurrent(s.log)
  {
    LogExtend(s.log, a);
    RememberedStep(s.log, a);
  }

  lemma PollKeeps(s: St, a: Answer)
    requires Inv(s) && s.pc.Polling?
    ensures Inv(Step(s, a))
  {
    hide LogValid, Remembered, OnCurrent, CurrentProtocol, ToMap, Put, Drop;
    match a.polled
    case Took(c) =>
      LogStep(s, Take(c));
      PutIsUpdate(s.pending, c);
      PutSorted(s.pending, c);
    case NoCommand => LogStep(s, Waits);
    case Disconnected =>
  }

  lemma RecoverKeeps(s: St, log: seq<Act>, cause: Cause)
    requires LogValid(log) && Sorted(s.pending) && s.protocol == CurrentProtocol(log)
    requires ToMap(s.pending) == Remembered(log)
    ensures Inv(Recover(s, log, cause))
  {
    hide LogValid, Remembered, OnCurrent, CurrentProtocol, ToMap, Put, Drop;
    NoticesExtend(log, |s.pending|);
  }

  lemma SendKeeps(s: St, a: Answer)
    requires Inv(s) && s.pc.Sending?
    ensures Inv(Step(s, a))
  {
    hide LogValid, Remembered, OnCurrent, CurrentProtocol, ToMap, Put, Drop;
    var c := s.pc.c;
    if a.ok {
      LogStep(s, Sent(c.(protocol := s.protocol)));
    } else {
      LogStep(s, Handed(CommandFailed));
      RecoverKeeps(s, Note(s.log, CommandFailed), SendFailed);
    }
  }

  lemma ReceiveKeeps(s: St, a: Answer)
    requires Inv(s) && s.pc.Receiving?
    ensures Inv(Step(s, a))
  {
    hide LogValid, Remembered, OnCurrent, CurrentProtocol, ToMap, Put, Drop;
    LogStep(s, Heard(a.received));
    match a.received
    case GotResult(id) =>
      DropIsRemoval(s.pending, id);
      DropSorted(s.pending, id);
    case GotOther =>
    case TimedOut =>
    case Broken => RecoverKeeps(s, s.log + [Heard(Broken)], ReceiveFailed);
  }

  lemma ConnectKeeps(s: St, a: Answer)
    requires Inv(s) && s.pc.Connecting?
    ensures Inv(Step(s, a))
  {
    hide LogValid, Remembered, OnCurrent, CurrentProtocol, ToMap, Put, Drop;
    LogStep(s, NoConnection);
    if a.ok {
      LogStep(s, Connected(a.protocol));
      assert s.pending[|s.pending| - |s.pending|..] == s.pending;
      if s.pending == [] {
        AllReplayed(map[], s.pending);
      }
    }
  }

  lemma ReplayKeeps(s: St, a: Answer)
    requires Inv(s) && s.pc.Replaying?
    ensures Inv(Step(s, a))
  {
    hide LogValid, Remembered, OnCurrent, CurrentProtocol, ToMap, Put, Drop;
    if a.ok {
      var c, n := s.pc.todo[0], |s.pending| - |s.pc.todo|;
      assert c == s.pending[n];
      assert c.id !in OnCurrent(s.log) by {
        if c.id in OnCurrent(s.log) {
          var i :| 0 <= i < n && s.pending[i].id == c.id;
          Text.BeforeTotal(s.pending[i].id, s.pending[n].id);
        }
      }
      LogStep(s, Sent(c.(protocol := s.protocol)));
      ReplayedMore(OnCurrent(s.log), s.pending, s.pc.todo);
      if s.pc.todo[1..] == [] {
        AllReplayed(OnCurrent(Step(s, a).log), s.pending);
      }
    }
  }

  lemma ReplayedMore(sent: map<Id, string>, pending: seq<Command>, todo: seq<Command>)
    requires Sorted(pending) && todo != [] && Replayed(sent, pending, todo)
    ensures Replayed(sent[todo[0].id := todo[0].body], pending, todo[1..])
  {
    var n := |pending| - |todo|;
    assert todo[0] == pending[n];
    forall i | 0 <= i < n
      ensures pending[i].id != pending[n].id
    {
      Text.BeforeTotal(pending[i].id, pending[n].id);
    }
  }

  lemma AllReplayed(sent: map<Id, string>, pending: seq<Command>)
    requires Replayed(sent, pending, [])
    ensures Covers(sent, ToMap(pending))
  {
    forall id | id in ToMap(pending)
      ensures id in sent && sent[id] == ToMap(pending)[id].body
    {
      var i := InMap(pending, id);
    }
  }

  lemma NoticeKeeps(s: St, a: Answer)
    requires Inv(s)
    requires s.pc.HandingOn? || s.pc.Announcing? || s.pc.Checking? || s.pc.Complaining? || s.pc.Resting? || s.pc.Confirming?
    ensures Inv(Step(s, a))
  {
    hide LogValid, Remembered, OnCurrent, CurrentProtocol, ToMap, Put, Drop;
    LogStep(s, Handed(ReconnectFailed));
    match s.pc
    case HandingOn(n) => LogStep(s, Handed(n));
    case Announcing(_) => LogStep(s, Handed(Reconnecting));
    case Confirming(_) => LogStep(s, Handed(Reconnected));
    case _ =>
  }

  lemma StepKeeps(s: St, a: Answer)
    requires Inv(s)
    ensures Inv(Step(s, a))
  {
    match s.pc
    case Polling => PollKeeps(s, a);
    case Sending(_) => SendKeeps(s, a);
    case Receiving => ReceiveKeeps(s, a);
    case Connecting(_) => ConnectKeeps(s, a);
    case Replaying(_, _) => ReplayKeeps(s, a);
    case Stopped =>
    case _ => NoticeKeeps(s, a);
  }

  lemma {:induction false} RunKeeps(s: St, env: seq<Answer>)
    requires Inv(s)
    ensures Inv(Run(s, env))
    decreases |env|
  {
    if env != [] {
      StepKeeps(s, env[0]);
      RunKeeps(Step(s, env[0]), env[1..]);
    }
  }

  /** In every run, whatever sends, receives and reconnects fail: whenever the worker waits, and whenever
      it announces a reconnection, each command taken and not answered has been sent on the connection in
      use; no connection carries a command twice; every command carries its connection's protocol. */
  lemma EveryRunIsSafe(protocol: nat, env: seq<Answer>)
    ensures var log := Run(Start(protocol), env).log;
            Safe(log) && AtMostOnce(log) && Stamped(log)
  {
    RunKeeps(Start(protocol), env);
  }

  // ---------------------------------------------------------------- what follows what

  /** The worker is back at its queue: at the start, after a command that was sent, a message that was handed on, a
      receive that timed out, or a reconnection that was announced. */
  ghost predicate AtQueue(log: seq<Act>) {
    log != [] && var a := log[|log| - 1];
    a.Sent? || a == Heard(TimedOut) || (a.Connected? && |log| == 1)
    || (a.Handed? && (a.n.ResultFor? || a.n == OtherMessage || a.n == Reconnected))
  }

  /** It is trying for a connection, or has opened one and is sending. */
  ghost predicate Recovering(log: seq<Act>) {
    log != [] && var a := log[|log| - 1];
    a == Handed(Reconnecting) || a == Handed(ReconnectFailed) || (|log| > 1 && OnNew(a))
  }

  ghost predicate OnNew(a: Act) {
    a.Connected? || a.Sent?
  }

  /** What may come next.  A command is sent at once or reported; a wait ends in what was heard; a message is handed on at
      once and as what it is, and nothing else is handed on as one; a new connection is tried for only in a recovery, a
      failed attempt is reported at once, and the recovery ends in its announcement. */
  ghost predicate MayFollow(log: seq<Act>, a: Act) {
    match a
    case Take(_) => AtQueue(log)
    case Waits => AtQueue(log)
    case Heard(_) => Ends(log, Waits)
    case Connected(_) => log == [] || Recovering(log)
    case NoConnection => Recovering(log)
    case Sent(c) =>
      log != [] && var b := log[|log| - 1];
      (b.Take? && b.c.id == c.id && b.c.body == c.body) || (|log| > 1 && OnNew(b))
    case Handed(n) =>
      match n
      case ResultFor(id) => Ends(log, Heard(GotResult(id)))
      case OtherMessage => Ends(log, Heard(GotOther))
      case CommandFailed => (log != [] && log[|log| - 1].Take?) || Ends(log, Heard(Broken)) || Ends(log, Handed(CommandFailed))
      case Reconnecting => FailuresReported(log)
      case ReconnectFailed =>
        Ends(log, NoConnection) || (Lost(log) && (Recovering(log) || Ends(log, Heard(Broken)) || Ends(log, Handed(CommandFailed))))
      case Reconnected => |log| > 1 && OnNew(log[|log| - 1])
  }

  ghost predicate Ends(log: seq<Act>, a: Act) {
    log != [] && log[|log| - 1] == a
  }

  /** The notices of failure at the end of the log. */
  function Failures(log: seq<Act>): (n: nat)
    ensures n <= |log|
  {
    if log == [] || log[|log| - 1] != Handed(CommandFailed) then 0 else 1 + Failures(log[..|log| - 1])
  }

  /** Every command without a result has just been reported, once, after the receive or the send that failed; and the
      send itself. */
  ghost predicate FailuresReported(log: seq<Act>) {
    var n, owed := Failures(log), |Remembered(log)|;
    n < |log| && var cause := log[|log| - 1 - n];
    (cause == Heard(Broken) && n == owed) || (cause.Take? && n == 1 + owed)
  }

  ghost predicate Conversation(log: seq<Act>) {
    forall i :: 0 <= i < |log| ==> MayFollow(log[..i], log[i])
  }

  lemma ConversationMore(log: seq<Act>, a: Act)
    requires Conversation(log) && MayFollow(log, a)
    ensures Conversation(log + [a])
  {
    hide MayFollow;
    var more := log + [a];
    assert more[..|log|] == log;
    assert forall i :: 0 <= i < |log| ==> more[..i] == log[..i] && more[i] == log[i];
  }

  /** A receive has failed, and since then no connection has been announced. */
  predicate Lost(log: seq<Act>) {
    log != [] && var a := log[|log| - 1];
    a == Heard(Broken) || (!a.Heard? && !a.Take? && a != Handed(Reconnected) && Lost(log[..|log| - 1]))
  }

  /** A worker that gives up after a failed receive says so. */
  ghost predicate LossTold(s: St) {
    match s.pc
    case Announcing(cause) => Lost(s.log) <==> cause == ReceiveFailed
    case Checking(cause) => Lost(s.log) <==> cause == ReceiveFailed
    case Connecting(cause) => Lost(s.log) <==> cause == ReceiveFailed
    case Complaining(cause) => Lost(s.log) <==> cause == ReceiveFailed
    case Resting(cause, _) => Lost(s.log) <==> cause == ReceiveFailed
    case Replaying(cause, _) => Lost(s.log) <==> cause == ReceiveFailed
    case Confirming(cause) => Lost(s.log) <==> cause == ReceiveFailed
    case Stopped => Lost(s.log) ==> Ends(s.log, Handed(ReconnectFailed))
    case _ => !Lost(s.log)
  }

  /** What the log ends in, wherever the worker is. */
  ghost predicate Where(s: St) {
    match s.pc
    case Polling => AtQueue(s.log)
    case Sending(c) => Ends(s.log, Take(c))
    case Receiving => Ends(s.log, Waits)
    case HandingOn(n) =>
      (n.ResultFor? && Ends(s.log, Heard(GotResult(n.id)))) || (n == OtherMessage && Ends(s.log, Heard(GotOther)))
    case Announcing(_) => FailuresReported(s.log)
    case Checking(_) => Recovering(s.log)
    case Connecting(_) => Recovering(s.log)
    case Complaining(_) => Ends(s.log, NoConnection)
    case Resting(_, _) => Recovering(s.log)
    case Replaying(_, _) => |s.log| > 1 && OnNew(s.log[|s.log| - 1])
    case Confirming(_) => |s.log| > 1 && OnNew(s.log[|s.log| - 1])
    case Stopped => true
  }

  ghost predicate Conversing(s: St) {
    Conversation(s.log) && Where(s) && LossTold(s)
  }

  /** A notice of failure may follow, and is one more at the end. */
  lemma FailureMore(log: seq<Act>)
    requires Conversation(log) && log != []
    requires log[|log| - 1].Take? || Ends(log, Heard(Broken)) || Ends(log, Handed(CommandFailed))
    ensures Conversation(Note(log, CommandFailed)) && Failures(Note(log, CommandFailed)) == 1 + Failures(log)
    ensures Remembered(Note(log, CommandFailed)) == Remembered(log) && Lost(Note(log, CommandFailed)) == Lost(log)
  {
    hide Conversation, Remembered;
    ConversationMore(log, Handed(CommandFailed));
    RememberedStep(log, Handed(CommandFailed));
    assert Note(log, CommandFailed)[..|log|] == log;
  }

  lemma {:induction false} FailedMore(log: seq<Act>, n: nat)
    requires Conversation(log) && log != []
    requires log[|log| - 1].Take? || Ends(log, Heard(Broken)) || Ends(log, Handed(CommandFailed))
    ensures var more := log + FailedNotices(n);
            && Conversation(more) && Remembered(more) == Remembered(log) && Failures(more) == Failures(log) + n
            && |more| == |log| + n && more[|log| - 1] == log[|log| - 1]
            && (n == 0 || Ends(more, Handed(CommandFailed))) && Lost(more) == Lost(log)
  {
    hide Conversation, Remembered, Failures, Lost;
    if n == 0 {
      assert log + [] == log;
    } else {
      var fewer := log + FailedNotices(n - 1);
      FailedMore(log, n - 1);
      assert log + FailedNotices(n) == Note(fewer, CommandFailed);
      FailureMore(fewer);
    }
  }

  lemma {:induction false} SortedCount(pending: seq<Command>)
    requires Sorted(pending)
    ensures |ToMap(pending)| == |pending|
    ensures forall id :: id in ToMap(pending) ==> exists i :: 0 <= i < |pending| && pending[i].id == id
  {
    if pending != [] {
      SortedCount(pending[1..]);
      if pending[0].id in ToMap(pending[1..]) {
        var i :| 0 <= i < |pending[1..]| && pending[1..][i].id == pending[0].id;
        Text.BeforeTotal(pending[0].id, pending[i + 1].id);
      }
    }
  }

  /** One more act: what it takes, and what it changes. */
  lemma ActMore(s: St, a: Act)
    requires Conversation(s.log) && MayFollow(s.log, a)
    ensures Conversation(s.log + [a]) && Ends(s.log + [a], a) && |s.log + [a]| == |s.log| + 1
    ensures Lost(s.log + [a]) == (a == Heard(Broken) || (!a.Heard? && !a.Take? && a != Handed(Reconnected) && Lost(s.log)))
  {
    hide Conversation, MayFollow;
    ConversationMore(s.log, a);
    assert (s.log + [a])[..|s.log|] == s.log;
  }

  /** Recovery starts with every failure reported. */
  lemma RecoverConverses(s: St, log: seq<Act>, cause: Cause)
    requires Conversation(log) && log != [] && Sorted(s.pending) && ToMap(s.pending) == Remembered(log)
    requires cause == ReceiveFailed ==> Ends(log, Heard(Broken)) && Failures(log) == 0 && Lost(log)
    requires cause == SendFailed ==> |log| > 1 && log[|log| - 2].Take? && Ends(log, Handed(CommandFailed)) && Failures(log) == 1 && !Lost(log)
    ensures Conversing(Recover(s, log, cause))
  {
    hide *;
    var n := |s.pending|;
    FailedMore(log, n);
    SortedCount(s.pending);
    var more := log + FailedNotices(n);
    if cause == SendFailed {
      assert more[|log| - 2] == log[|log| - 2];
      ReportedAfter(more, n + 1);
    } else {
      EndsMeans(log, Heard(Broken));
      ReportedAfter(more, n);
    }
    RecoversFrom(s, log, cause);
  }

  lemma EndsMeans(log: seq<Act>, a: Act)
    ensures Ends(log, a) <==> log != [] && log[|log| - 1] == a
  {
  }

  lemma ReportedAfter(log: seq<Act>, n: nat)
    requires Failures(log) == n < |log|
    requires (log[|log| - 1 - n] == Heard(Broken) && n == |Remembered(log)|) || (log[|log| - 1 - n].Take? && n == 1 + |Remembered(log)|)
    ensures FailuresReported(log)
  {
    hide Failures, Remembered;
  }

  lemma RecoversFrom(s: St, log: seq<Act>, cause: Cause)
    requires var more := log + FailedNotices(|s.pending|);
             Conversation(more) && FailuresReported(more) && (Lost(more) <==> cause == ReceiveFailed)
    ensures Conversing(Recover(s, log, cause))
  {
    hide Conversation, FailuresReported, Lost, FailedNotices;
  }

  lemma PollConverses(s: St, a: Answer)
    requires Conversing(s) && s.pc.Polling?
    ensures Conversing(Step(s, a))
  {
    hide Conversation, Lost, Put;
    match a.polled
    case Took(c) => ActMore(s, Take(c));
    case NoCommand => ActMore(s, Waits);
    case Disconnected =>
  }

  lemma SendConverses(s: St, a: Answer)
    requires Conversing(s) && s.pc.Sending? && Inv(s)
    ensures Conversing(Step(s, a))
  {
    hide Conversation, Lost, LogValid, Remembered, ToMap, Progress;
    if a.ok {
      ActMore(s, Sent(s.pc.c.(protocol := s.protocol)));
    } else {
      ActMore(s, Handed(CommandFailed));
      FailureMore(s.log);
      RecoverConverses(s, Note(s.log, CommandFailed), SendFailed);
    }
  }

  lemma ReceiveConverses(s: St, a: Answer)
    requires Conversing(s) && s.pc.Receiving? && Inv(s)
    ensures Conversing(Step(s, a))
  {
    hide Conversation, Lost, LogValid, Remembered, ToMap, Progress, Drop;
    ActMore(s, Heard(a.received));
    if a.received == Broken {
      RememberedStep(s.log, Heard(Broken));
      RecoverConverses(s, s.log + [Heard(Broken)], ReceiveFailed);
    }
  }

  lemma ConnectConverses(s: St, a: Answer)
    requires Conversing(s) && (s.pc.Connecting? || s.pc.Replaying? || s.pc.Confirming?)
    ensures Conversing(Step(s, a))
  {
    hide Conversation, Lost;
    match s.pc
    case Connecting(_) =>
      ActMore(s, Connected(a.protocol));
      ActMore(s, NoConnection);
    case Replaying(_, todo) =>
      if todo != [] { ActMore(s, Sent(todo[0].(protocol := s.protocol))); }
    case Confirming(cause) =>
      ActMore(s, Handed(Reconnected));
      if cause == ReceiveFailed { ActMore(s, Handed(ReconnectFailed)); }
  }

  lemma NoticeConverses(s: St, a: Answer)
    requires Conversing(s)
    requires s.pc.HandingOn? || s.pc.Announcing? || s.pc.Checking? || s.pc.Complaining? || s.pc.Resting?
    ensures Conversing(Step(s, a))
  {
    hide Conversation, Lost, Remembered, Failures;
    if s.pc.HandingOn? {
      ActMore(s, Handed(s.pc.n));
    } else {
      if s.pc.Announcing? {
        ReportedEnd(s.log);
        ActMore(s, Handed(Reconnecting));
      }
      if s.pc.Complaining? || s.pc.cause == ReceiveFailed {
        ActMore(s, Handed(ReconnectFailed));
      }
    }
  }

  lemma ReportedEnd(log: seq<Act>)
    requires FailuresReported(log)
    ensures Ends(log, Heard(Broken)) || Ends(log, Handed(CommandFailed))
  {
    hide Remembered;
  }

  lemma {:induction false} RunConverses(s: St, env: seq<Answer>)
    requires Inv(s) && Conversing(s)
    ensures Conversing(Run(s, env))
    decreases |env|
  {
    hide Inv, Conversing, Step;
    if env != [] {
      StepKeeps(s, env[0]);
      StepConverses(s, env[0]);
      RunConverses(Step(s, env[0]), env[1..]);
    }
  }

  lemma StepConverses(s: St, a: Answer)
    requires Inv(s) && Conversing(s)
    ensures Conversing(Step(s, a))
  {
    hide Inv, Conversing;
    match s.pc
    case Polling => PollConverses(s, a);
    case Sending(_) => SendConverses(s, a);
    case Receiving => ReceiveConverses(s, a);
    case Connecting(_) => ConnectConverses(s, a);
    case Replaying(_, _) => ConnectConverses(s, a);
    case Confirming(_) => ConnectConverses(s, a);
    case Stopped =>
    case _ => NoticeConverses(s, a);
  }

  /** What the world did: the commands it gave, the messages it brought, the connections it opened, the commands it took. */
  function Done(s: St, a: Answer): seq<Act> {
    match s.pc
    case Polling => if a.polled.Took? then [Take(a.polled.c)] else []
    case Receiving => [Heard(a.received)]
    case Connecting(_) => if a.ok then [Connected(a.protocol)] else [NoConnection]
    case Sending(c) => if a.ok then [Sent(c.(protocol := s.protocol))] else []
    case Replaying(_, todo) => if a.ok && todo != [] then [Sent(todo[0].(protocol := s.protocol))] else []
    case _ => []
  }

  function AllDone(s: St, env: seq<Answer>): seq<Act>
    decreases |env|
  {
    if env == [] then [] else Done(s, env[0]) + AllDone(Step(s, env[0]), env[1..])
  }

  /** The acts of a log that are the world's. */
  function OfWorld(log: seq<Act>): seq<Act> {
    if log == [] then []
    else
      var a := log[|log| - 1];
      OfWorld(log[..|log| - 1]) + if a.Handed? || a.Waits? then [] else [a]
  }

  lemma OfWorldMore(log: seq<Act>, a: Act)
    ensures OfWorld(log + [a]) == OfWorld(log) + if a.Handed? || a.Waits? then [] else [a]
  {
    assert (log + [a])[..|log|] == log;
  }

  lemma {:induction false} OfWorldFailures(log: seq<Act>, n: nat)
    ensures OfWorld(log + FailedNotices(n)) == OfWorld(log)
  {
    hide OfWorld;
    if n == 0 {
      assert log + [] == log;
    } else {
      var fewer := log + FailedNotices(n - 1);
      OfWorldFailures(log, n - 1);
      assert log + FailedNotices(n) == fewer + [Handed(CommandFailed)];
      OfWorldMore(fewer, Handed(CommandFailed));
      assert OfWorld(fewer) + [] == OfWorld(fewer);
    }
  }

  lemma StepRecordsWorld(s: St, a: Answer)
    ensures OfWorld(Step(s, a).log) == OfWorld(s.log) + Done(s, a)
  {
    hide OfWorld, Put, Drop;
    assert OfWorld(s.log) + [] == OfWorld(s.log);
    OfWorldMore(s.log, Handed(ReconnectFailed));
    match s.pc
    case Polling =>
      OfWorldMore(s.log, Waits);
      if a.polled.Took? { OfWorldMore(s.log, Take(a.polled.c)); }
    case Sending(c) =>
      OfWorldMore(s.log, Sent(c.(protocol := s.protocol)));
      OfWorldMore(s.log, Handed(CommandFailed));
      OfWorldFailures(Note(s.log, CommandFailed), |s.pending|);
    case Receiving =>
      OfWorldMore(s.log, Heard(a.received));
      OfWorldFailures(s.log + [Heard(a.received)], |s.pending|);
    case HandingOn(n) => OfWorldMore(s.log, Handed(n));
    case Announcing(_) => OfWorldMore(s.log, Handed(Reconnecting));
    case Connecting(_) => OfWorldMore(s.log, if a.ok then Connected(a.protocol) else NoConnection);
    case Replaying(_, todo) =>
      if todo != [] { OfWorldMore(s.log, Sent(todo[0].(protocol := s.protocol))); }
    case Confirming(_) => OfWorldMore(s.log, Handed(Reconnected));
    case _ =>
  }

  /** Over every run the log holds exactly what the world did, in order. */
  lemma {:induction false} RunRecordsWorld(s: St, env: seq<Answer>)
    ensures OfWorld(Run(s, env).log) == OfWorld(s.log) + AllDone(s, env)
    decreases |env|
  {
    hide OfWorld, Step, Done;
    if env == [] {
      assert OfWorld(s.log) + [] == OfWorld(s.log);
    } else {
      StepRecordsWorld(s, env[0]);
      RunRecordsWorld(Step(s, env[0]), env[1..]);
      var before, now, rest := OfWorld(s.log), Done(s, env[0]), AllDone(Step(s, env[0]), env[1..]);
      assert (before + now) + rest == before + (now + rest);
    }
  }

  /** The answer tells the worker to stop: its queue or its listener is gone, or it is shut down. */
  predicate Tells(s: St, a: Answer) {
    match s.pc
    case Polling => a.polled.Disconnected?
    case HandingOn(_) => !a.ok
    case Announcing(_) => !a.ok
    case Complaining(_) => !a.ok
    case Confirming(_) => !a.ok
    case Checking(_) => a.ok
    case Resting(_, _) => a.ok
    case _ => false
  }

  /** The worker stops exactly when some answer tells it to. */
  lemma {:induction false} StopsIff(s: St, env: seq<Answer>)
    ensures Run(s, env).pc.Stopped? <==> s.pc.Stopped? || exists i :: 0 <= i < |env| && Tells(Run(s, env[..i]), env[i])
    decreases |env|
  {
    hide Step;
    if env != [] {
      var next, rest := Step(s, env[0]), env[1..];
      StepStopsIff(s, env[0]);
      StopsIff(next, rest);
      assert env[..0] == [];
      forall i | 0 <= i < |rest|
        ensures Run(s, env[..i + 1]) == Run(next, rest[..i]) && env[i + 1] == rest[i]
      {
        assert env[..i + 1][0] == env[0] && env[..i + 1][1..] == rest[..i];
      }
      assert Run(s, env[..0]) == s;
    }
  }

  lemma StepStopsIff(s: St, a: Answer)
    ensures Step(s, a).pc.Stopped? <==> s.pc.Stopped? || Tells(s, a)
  {
  }

  lemma {:induction false} RestsReach(s: St, cause: Cause, left: nat, env: seq<Answer>)
    requires s.pc == Rest(cause, left) && |env| <= left && forall i :: 0 <= i < |env| ==> !env[i].ok
    ensures Run(s, env) == s.(pc := Rest(cause, left - |env|))
    decreases |env|
  {
    if env != [] {
      RestsReach(Step(s, env[0]), cause, left - 1, env[1..]);
    }
  }

  /** After a failed attempt that was reported, the worker looks ten times for a shutdown while it rests, and once more,
      before it tries again. */
  lemma TenLooks(s: St, env: seq<Answer>, n: nat)
    requires s.pc.Complaining? && n < |env| && env[0].ok && forall i :: 0 < i <= n ==> !env[i].ok
    ensures n < 10 ==> Run(s, env[..n + 1]).pc == Resting(s.pc.cause, 10 - n)
    ensures n == 10 ==> Run(s, env[..n + 1]).pc == Checking(s.pc.cause)
    ensures n == 11 ==> Run(s, env[..n + 1]).pc == Connecting(s.pc.cause)
  {
    var first, cause := Step(s, env[0]), s.pc.cause;
    assert env[..n + 1][1..] == env[1..n + 1];
    if n <= 10 {
      RestsReach(first, cause, 10, env[1..n + 1]);
    } else if n == 11 {
      RestsReach(first, cause, 10, env[1..11]);
      var checking, last := Run(first, env[1..11]), env[11];
      RunMore(first, env[1..11], last);
      assert env[1..11] + [last] == env[1..12];
    }
  }

  lemma {:induction false} RunMore(s: St, env: seq<Answer>, a: Answer)
    ensures Run(s, env + [a]) == Step(Run(s, env), a)
    decreases |env|
  {
    hide Step;
    if env == [] {
      assert env + [a] == [a] && [a][1..] == [];
      assert Run(Step(s, a), []) == Step(s, a);
    } else {
      RunMore(Step(s, env[0]), env[1..], a);
      assert (env + [a])[1..] == env[1..] + [a];
    }
  }

  /** In every run each act follows what it should: a command is sent at once or reported, a message is handed on at once
      as what it is and nothing else is, every recovery reports each command without a result and ends in its
      announcement, and a worker that gives up after a failed receive says so.  The log is what the world did. */
  lemma EveryRunConverses(protocol: nat, env: seq<Answer>)
    ensures var s := Run(Start(protocol), env);
            && Conversation(s.log) && (s.pc.Stopped? && Lost(s.log) ==> Ends(s.log, Handed(ReconnectFailed)))
            && (Ends(s.log, Heard(GotOther)) || (exists id :: Ends(s.log, Heard(GotResult(id)))) ==> s.pc.Stopped? || s.pc.HandingOn?)
            && OfWorld(s.log) == [Connected(protocol)] + AllDone(Start(protocol), env)
  {
    hide *;
    var start := Start(protocol);
    StartConverses(protocol);
    RunConverses(start, env);
    RunRecordsWorld(start, env);
    WhereItEnds(Run(start, env));
  }

  lemma StartConverses(protocol: nat)
    ensures Inv(Start(protocol)) && Conversing(Start(protocol)) && OfWorld(Start(protocol).log) == [Connected(protocol)]
  {
    hide Inv, Remembered, Failures;
    StartKeeps(protocol);
    var log := [Connected(protocol)];
    var none: seq<Act> := [];
    assert log[..0] == none;
    assert !Lost(none) && OfWorld(none) == [];
    assert MayFollow(none, log[0]);
  }

  lemma StartKeeps(protocol: nat)
    ensures Inv(Start(protocol))
  {
  }

  lemma WhereItEnds(s: St)
    requires Conversing(s)
    ensures Conversation(s.log) && (s.pc.Stopped? && Lost(s.log) ==> Ends(s.log, Handed(ReconnectFailed)))
    ensures Ends(s.log, Heard(GotOther)) || (exists id :: Ends(s.log, Heard(GotResult(id)))) ==> s.pc.Stopped? || s.pc.HandingOn?
  {
    hide Conversation, Remembered, Failures;
    if s.pc.Announcing? {
      ReportedEnd(s.log);
    }
  }

  // ---------------------------------------------------------------- the worker as it is written

  lemma {:induction false} StopRun(s: St, env: seq<Answer>)
    requires s.pc.Stopped?
    ensures Run(s, env) == s
    decreases |env|
  {
    if env != [] {
      StopRun(s, env[1..]);
    }
  }

  /** How a stretch of the worker ends: as intended, having given up, or at the end of the run. */
  datatype Exit = Finished | Refused | RunOut

  class Worker {
    const env: seq<Answer>
    var used: nat
    var pending: seq<Command>
    var protocol: nat
    var log: seq<Act>

    ghost predicate Valid()
      reads this
    {
      used <= |env|
    }

    /** Where the run will be after the remaining answers, going on from `pc`. */
    ghost function From(pc: Pc): St
      requires Valid()
      reads this
    {
      Run(St(pc, pending, protocol, log), env[used..])
    }

    constructor (env: seq<Answer>, protocol: nat)
      ensures Valid() && this.env == env && used == 0
      ensures From(Polling) == Run(Start(protocol), env)
    {
      this.env, used := env, 0;
      this.pending, this.protocol, this.log := [], protocol, [Connected(protocol)];
      new;
      assert env[0..] == env;
    }

    /** One interaction with the outside world. */
    method Ask(ghost pc: Pc) returns (a: Answer)
      requires used < |env|
      modifies this`used
      ensures Valid() && used == old(used) + 1
      ensures old(From(pc)) == Run(Step(St(pc, pending, protocol, log), a), env[used..])
    {
      a := env[used];
      used := used + 1;
    }

    /** Sends all remembered commands on the new connection, up to the first failure. */
    method ResendAll(cause: Cause) returns (exit: Exit)
      requires Valid()
      modifies this`used, this`log
      ensures Valid() && used >= old(used)
      ensures exit == Finished ==> From(Confirming(cause)) == old(From(Resend(cause, pending)))
      ensures exit == Refused ==> From(Checking(cause)) == old(From(Resend(cause, pending)))
      ensures exit == RunOut ==> log == old(From(Resend(cause, pending))).log
    {
      hide Step, Run;
      var i := 0;
      assert pending[0..] == pending;
      while i < |pending|
        invariant Valid() && 0 <= i <= |pending| && used >= old(used)
        invariant From(Resend(cause, pending[i..])) == old(From(Resend(cause, pending)))
      {
        if used == |env| {
          RunOutNow(St(Replaying(cause, pending[i..]), pending, protocol, log), env[used..]);
          return RunOut;
        }
        var a := Ask(Replaying(cause, pending[i..]));
        ResendStep(cause, St(Replaying(cause, pending[i..]), pending, protocol, log), a);
        if !a.ok { return Refused; }
        log := log + [Sent(pending[i].(protocol := protocol))];
        assert pending[i..][1..] == pending[i + 1..];
        i := i + 1;
      }
      exit := Finished;
    }

    /** Waits before the next attempt, watching for shutdown. */
    method Pause(cause: Cause) returns (exit: Exit)
      requires Valid()
      modifies this`used
      ensures Valid() && used >= old(used)
      ensures exit == Finished ==> From(Checking(cause)) == old(From(Rest(cause, RESTS)))
      ensures exit == Refused ==> GiveUp(St(Stopped, pending, protocol, log), cause) == old(From(Rest(cause, RESTS)))
      ensures exit == RunOut ==> log == old(From(Rest(cause, RESTS))).log
    {
      hide Run;
      for left := RESTS downto 0
        invariant Valid() && used >= old(used)
        invariant From(Rest(cause, left)) == old(From(Rest(cause, RESTS)))
      {
        if used == |env| {
          RunOutNow(St(Rest(cause, left + 1), pending, protocol, log), env[used..]);
          return RunOut;
        }
        var a := Ask(Resting(cause, left + 1));
        if a.ok {
          StopRun(GiveUp(St(Stopped, pending, protocol, log), cause), env[used..]);
          return Refused;
        }
      }
      exit := Finished;
    }

    /** The stretch ended as `exit` says on the way to `s`, the state at the end of the run. */
    ghost predicate At(s: St, exit: Exit, cause: Cause)
      requires Valid()
      reads this
    {
      match exit
      case Finished => From(Polling) == s
      case Refused => GiveUp(St(Stopped, pending, protocol, log), cause) == s
      case RunOut => log == s.log
    }

    /** One attempt: reconnect and resend, or complain and pause.  `again` asks for another attempt. */
    method Attempt(cause: Cause) returns (exit: Exit, again: bool)
      requires Valid()
      modifies this`used, this`protocol, this`log
      ensures Valid() && used >= old(used)
      ensures again ==> exit == Finished && used > old(used) && From(Checking(cause)) == old(From(Connecting(cause)))
      ensures !again ==> At(old(From(Connecting(cause))), exit, cause)
    {
      hide Run;
      if used == |env| {
        RunOutNow(St(Connecting(cause), pending, protocol, log), env[used..]);
        return RunOut, false;
      }
      var a := Ask(Connecting(cause));
      if a.ok {
        protocol, log := a.protocol, log + [Connected(a.protocol)];
        exit := ResendAll(cause);
        if exit == Finished {
          exit := Confirm(cause);
          again := false;
        } else {
          again := exit == Refused;
          if again { exit := Finished; }
        }
      } else {
        log := log + [NoConnection];
        exit := Complain(cause);
        again := exit == Finished;
      }
    }

    method Confirm(cause: Cause) returns (exit: Exit)
      requires Valid()
      modifies this`used, this`log
      ensures Valid() && used >= old(used) && At(old(From(Confirming(cause))), exit, cause)
    {
      hide Run;
      if used == |env| {
        RunOutNow(St(Confirming(cause), pending, protocol, log), env[used..]);
        return RunOut;
      }
      var a := Ask(Confirming(cause));
      if !a.ok {
        StopRun(GiveUp(St(Stopped, pending, protocol, log), cause), env[used..]);
        return Refused;
      }
      log := Note(log, Reconnected);
      exit := Finished;
    }

    method Complain(cause: Cause) returns (exit: Exit)
      requires Valid()
      modifies this`used, this`log
      ensures Valid() && used >= old(used)
      ensures exit == Finished ==> From(Checking(cause)) == old(From(Complaining(cause)))
      ensures exit != Finished ==> At(old(From(Complaining(cause))), exit, cause)
    {
      hide Run;
      if used == |env| {
        RunOutNow(St(Complaining(cause), pending, protocol, log), env[used..]);
        return RunOut;
      }
      var a := Ask(Complaining(cause));
      if !a.ok {
        StopRun(GiveUp(St(Stopped, pending, protocol, log), cause), env[used..]);
        return Refused;
      }
      log := Note(log, ReconnectFailed);
      exit := Pause(cause);
    }

    /** `recover_connection`: announces, then attempts until one succeeds or shutdown ends it. */
    method RecoverConnection(cause: Cause) returns (exit: Exit)
      requires Valid()
      modifies this`used, this`protocol, this`log
      ensures Valid() && used >= old(used)
      ensures At(old(Run(Recover(St(Polling, pending, protocol, log), log, cause), env[used..])), exit, cause)
    {
      hide Run;
      log := log + FailedNotices(|pending|);
      if used == |env| {
        RunOutNow(St(Announcing(cause), pending, protocol, log), env[used..]);
        return RunOut;
      }
      var a := Ask(Announcing(cause));
      if !a.ok {
        StopRun(GiveUp(St(Stopped, pending, protocol, log), cause), env[used..]);
        return Refused;
      }
      log := Note(log, Reconnecting);
      var again := true;
      exit := Finished;
      while again
        invariant Valid() && used >= old(used)
        invariant again ==> From(Checking(cause)) == old(Run(Recover(St(Polling, pending, protocol, log), log, cause), env[used..]))
        invariant !again ==> At(old(Run(Recover(St(Polling, pending, protocol, log), log, cause), env[used..])), exit, cause)
        decreases again, |env| - used
      {
        if used == |env| {
          RunOutNow(St(Checking(cause), pending, protocol, log), env[used..]);
          return RunOut;
        }
        a := Ask(Checking(cause));
        if a.ok {
          StopRun(GiveUp(St(Stopped, pending, protocol, log), cause), env[used..]);
          return Refused;
        }
        exit, again := Attempt(cause);
      }
    }

    /** `command_worker`: drain the queue, then wait for one message, until stopped. */
    method Work()
      requires Valid()
      modifies this
      ensures log == old(From(Polling)).log
    {
      hide Run;
      var running := true;
      while running
        invariant Valid()
        invariant running ==> From(Polling) == old(From(Polling))
        invariant !running ==> log == old(From(Polling)).log
        decreases running, |env| - used
      {
        running := Poll();
      }
    }

    /** One turn from polling the queue back to polling it; false when the worker has ended. */
    method Poll() returns (running: bool)
      requires Valid()
      modifies this
      ensures Valid()
      ensures running ==> used > old(used) && From(Polling) == old(From(Polling))
      ensures !running ==> log == old(From(Polling)).log
    {
      hide Run;
      if used == |env| {
        RunOutNow(St(Polling, pending, protocol, log), env[used..]);
        return false;
      }
      var a := Ask(Polling);
      match a.polled {
        case Took(c) =>
          pending, log := Put(pending, c), log + [Take(c)];
          running := SendOne(c);
        case NoCommand =>
          log := log + [Waits];
          running := Receive();
        case Disconnected =>
          StopRun(St(Stopped, pending, protocol, log), env[used..]);
          running := false;
      }
    }

    method SendOne(c: Command) returns (running: bool)
      requires Valid()
      modifies this`used, this`protocol, this`log
      ensures Valid() && used >= old(used)
      ensures running ==> From(Polling) == old(From(Sending(c)))
      ensures !running ==> log == old(From(Sending(c))).log
    {
      hide Run;
      if used == |env| {
        RunOutNow(St(Sending(c), pending, protocol, log), env[used..]);
        return false;
      }
      var a := Ask(Sending(c));
      if a.ok {
        log := log + [Sent(c.(protocol := protocol))];
        return true;
      }
      log := Note(log, CommandFailed);
      var exit := RecoverConnection(SendFailed);
      running := exit == Finished;
    }

    method Receive() returns (running: bool)
      requires Valid()
      modifies this
      ensures Valid() && used >= old(used)
      ensures running ==> From(Polling) == old(From(Receiving))
      ensures !running ==> log == old(From(Receiving)).log
    {
      hide Run;
      if used == |env| {
        RunOutNow(St(Receiving, pending, protocol, log), env[used..]);
        return false;
      }
      var a := Ask(Receiving);
      log := log + [Heard(a.received)];
      match a.received {
        case GotResult(id) =>
          pending := Drop(pending, id);
          running := HandOn(ResultFor(id));
        case GotOther => running := HandOn(OtherMessage);
        case TimedOut => running := true;
        case Broken =>
          var exit := RecoverConnection(ReceiveFailed);
          if exit == Refused {
            log := Note(log, ReconnectFailed);
          }
          running := exit == Finished;
      }
    }

    method HandOn(n: Notice) returns (running: bool)
      requires Valid()
      modifies this`used, this`log
      ensures Valid() && used >= old(used)
      ensures running ==> From(Polling) == old(From(HandingOn(n)))
      ensures !running ==> log == old(From(HandingOn(n))).log
    {
      hide Run;
      if used == |env| {
        RunOutNow(St(HandingOn(n), pending, protocol, log), env[used..]);
        return false;
      }
      var a := Ask(HandingOn(n));
      if !a.ok {
        StopRun(St(Stopped, pending, protocol, log), env[used..]);
        return false;
      }
      log := Note(log, n);
      running := true;
    }
  }

  /** The log of the whole run, as the loops produce it. */
  method CommandLoop(env: seq<Answer>, protocol: nat) returns (log: seq<Act>)
    ensures log == Run(Start(protocol), env).log
    ensures Safe(log) && AtMostOnce(log) && Stamped(log) && Conversation(log)
  {
    EveryRunIsSafe(protocol, env);
    EveryRunConverses(protocol, env);
    var w := new Worker(env, protocol);
    w.Work();
    log := w.log;
  }

  lemma RunOutNow(s: St, rest: seq<Answer>)
    requires |rest| == 0
    ensures Run(s, rest) == s
  {
  }

  lemma ResendStep(cause: Cause, s: St, a: Answer)
    requires s.pc.Replaying? && s.pc.cause == cause && s.pc.todo != []
    ensures Step(s, a) == if a.ok then s.(pc := Resend(cause, s.pc.todo[1..]), log := s.log + [Sent(s.pc.todo[0].(protocol := s.protocol))])
                          else s.(pc := Checking(cause))
  {
  }
}
