/** Optimistic prompts of the terminal client: a prompt is shown at once and retired when the authoritative
    transcript contains it.  Equal prompts are told apart by the occurrence they wait for. */
module PendingPrompts {
  import opened Seqs

  type Session = string

  datatype Message = Message(fromUser: bool, text: string)

  datatype Delivery = Sending | Submitted | Failed

  datatype Prompt = Prompt(session: Session, text: string, state: Delivery, occurrence: nat, anchor: nat)

  /** The session whose transcript the client shows, and that transcript. */
  datatype Shown = Shown(session: Session, transcript: seq<Message>)

  function Occurrences(transcript: seq<Message>, text: string): nat {
    if transcript == [] then 0
    else
      var m := transcript[|transcript| - 1];
      Occurrences(transcript[..|transcript| - 1], text) + if m.fromUser && m.text == text then 1 else 0
  }

  predicate IsLive(p: Prompt, s: Session, text: string) {
    p.session == s && p.text == text && p.state != Failed
  }

  /** The prompts of session `s` with this text that have not failed, oldest first. */
  function Live(pending: seq<Prompt>, s: Session, text: string): seq<Prompt> {
    if pending == [] then []
    else
      var p := pending[|pending| - 1];
      Live(pending[..|pending| - 1], s, text) + if IsLive(p, s, text) then [p] else []
  }

  /** `track_pending_prompt`. */
  function Track(pending: seq<Prompt>, shown: Option<Shown>, s: Session, text: string): seq<Prompt> {
    var seen := if shown.Some? then Occurrences(shown.value.transcript, text) else 0;
    var anchor := if shown.Some? then |shown.value.transcript| else 0;
    pending + [Prompt(s, text, Sending, seen + |Live(pending, s, text)| + 1, anchor)]
  }

  predicate Stays(p: Prompt, shown: Shown) {
    p.session != shown.session || p.state == Failed || Occurrences(shown.transcript, p.text) < p.occurrence
  }

  /** `reconcile_pending_prompts`. */
  function Reconcile(pending: seq<Prompt>, shown: Shown): seq<Prompt> {
    if pending == [] then []
    else
      var p := pending[|pending| - 1];
      Reconcile(pending[..|pending| - 1], shown) + if Stays(p, shown) then [p] else []
  }

  // ---------------------------------------------------------------- numbering

  /** Equal live prompts wait for consecutive occurrences, starting one past the transcript's count. */
  ghost predicate NumberedFor(pending: seq<Prompt>, shown: Shown, text: string) {
    var live := Live(pending, shown.session, text);
    forall i :: 0 <= i < |live| ==> live[i].occurrence == Occurrences(shown.transcript, text) + 1 + i
  }

  ghost predicate Numbered(pending: seq<Prompt>, shown: Shown) {
    forall text :: NumberedFor(pending, shown, text)
  }

  lemma TrackKeeps(pending: seq<Prompt>, shown: Shown, text: string)
    requires Numbered(pending, shown)
    ensures Numbered(Track(pending, Some(shown), shown.session, text), shown)
  {
    var more := Track(pending, Some(shown), shown.session, text);
    forall x
      ensures NumberedFor(more, shown, x)
    {
      assert NumberedFor(pending, shown, x);
    }
  }

  lemma {:induction false} OccurrencesAppend(a: seq<Message>, b: seq<Message>, text: string)
    ensures Occurrences(a + b, text) == Occurrences(a, text) + Occurrences(b, text)
  {
    if b == [] {
      assert a + b == a;
    } else {
      assert (a + b)[..|a + b| - 1] == a + b[..|b| - 1];
      OccurrencesAppend(a, b[..|b| - 1], text);
    }
  }

  function Past(live: seq<Prompt>, count: nat): seq<Prompt> {
    if live == [] then []
    else
      var p := live[|live| - 1];
      Past(live[..|live| - 1], count) + if count < p.occurrence then [p] else []
  }

  lemma {:induction false} ReconcileLive(pending: seq<Prompt>, shown: Shown, text: string)
    ensures Live(Reconcile(pending, shown), shown.session, text)
         == Past(Live(pending, shown.session, text), Occurrences(shown.transcript, text))
  {
    if pending != [] {
      var n := |pending| - 1;
      var p, front := pending[n], pending[..n];
      ReconcileLive(front, shown, text);
      var live := Live(front, shown.session, text);
      if IsLive(p, shown.session, text) {
        assert (live + [p])[..|live|] == live;
      } else {
        assert live + [] == live;
      }
      assert Reconcile(front, shown) + [] == Reconcile(front, shown);
    }
  }

  lemma {:induction false} PastConsecutive(live: seq<Prompt>, base: nat, count: nat)
    requires base <= count && forall i :: 0 <= i < |live| ==> live[i].occurrence == base + 1 + i
    ensures Past(live, count) == live[Min(count - base, |live|)..]
  {
    if live != [] {
      var n := |live| - 1;
      PastConsecutive(live[..n], base, count);
      if count < live[n].occurrence {
        assert live[..n][count - base..] + [live[n]] == live[count - base..];
      }
    }
  }

  /** When the transcript grows by `k` user messages with this text, exactly the `k` oldest matching prompts
      are retired, or all of them if there are fewer. */
  lemma OldestRetired(pending: seq<Prompt>, shown: Shown, more: seq<Message>, text: string)
    requires Numbered(pending, shown)
    ensures var live := Live(pending, shown.session, text);
            Live(Reconcile(pending, shown.(transcript := shown.transcript + more)), shown.session, text)
            == live[Min(Occurrences(more, text), |live|)..]
  {
    assert NumberedFor(pending, shown, text);
    var grown := shown.(transcript := shown.transcript + more);
    OccurrencesAppend(shown.transcript, more, text);
    ReconcileLive(pending, grown, text);
    PastConsecutive(Live(pending, shown.session, text), Occurrences(shown.transcript, text),
                    Occurrences(grown.transcript, text));
  }

  lemma GrowKeeps(pending: seq<Prompt>, shown: Shown, more: seq<Message>)
    requires Numbered(pending, shown)
    ensures var grown := shown.(transcript := shown.transcript + more);
            Numbered(Reconcile(pending, grown), grown)
  {
    var grown := shown.(transcript := shown.transcript + more);
    forall x
      ensures NumberedFor(Reconcile(pending, grown), grown, x)
    {
      assert NumberedFor(pending, shown, x);
      OldestRetired(pending, shown, more, x);
      OccurrencesAppend(shown.transcript, more, x);
    }
  }

  /** Prompts of other sessions, and failed ones, are never retired. */
  lemma {:induction false} OthersStay(pending: seq<Prompt>, shown: Shown, s: Session, text: string)
    requires s != shown.session
    ensures Live(Reconcile(pending, shown), s, text) == Live(pending, s, text)
  {
    if pending != [] {
      var n := |pending| - 1;
      OthersStay(pending[..n], shown, s, text);
      assert Reconcile(pending[..n], shown) + [] == Reconcile(pending[..n], shown);
    }
  }

  // ---------------------------------------------------------------- failures

  function Marked(pending: seq<Prompt>, i: nat, state: Delivery): seq<Prompt>
    requires i < |pending|
  {
    pending[i := pending[i].(state := state)]
  }

  /** No live prompt with the same text was tracked after prompt `i`. */
  ghost predicate NewestOfItsText(pending: seq<Prompt>, i: nat) {
    i < |pending| && Live(pending[i + 1..], pending[i].session, pending[i].text) == []
  }

  lemma {:induction false} LiveAppend(a: seq<Prompt>, b: seq<Prompt>, s: Session, text: string)
    ensures Live(a + b, s, text) == Live(a, s, text) + Live(b, s, text)
  {
    if b == [] {
      assert a + b == a;
    } else {
      var n := |b| - 1;
      assert (a + b)[..|a + b| - 1] == a + b[..n];
      LiveAppend(a, b[..n], s, text);
    }
  }

  lemma SplitLive(pending: seq<Prompt>, i: nat, s: Session, text: string)
    requires i < |pending|
    ensures Live(pending, s, text)
         == Live(pending[..i], s, text) + (if IsLive(pending[i], s, text) then [pending[i]] else [])
            + Live(pending[i + 1..], s, text)
  {
    assert pending == (pending[..i] + [pending[i]]) + pending[i + 1..];
    LiveAppend(pending[..i] + [pending[i]], pending[i + 1..], s, text);
  }

  lemma MarkedLive(pending: seq<Prompt>, i: nat, state: Delivery, s: Session, text: string)
    requires i < |pending|
    ensures Live(Marked(pending, i, state), s, text)
         == Live(pending[..i], s, text)
            + (if IsLive(pending[i].(state := state), s, text) then [pending[i].(state := state)] else [])
            + Live(pending[i + 1..], s, text)
  {
    var marked := Marked(pending, i, state);
    SplitLive(marked, i, s, text);
    assert marked[..i] == pending[..i] && marked[i + 1..] == pending[i + 1..];
  }

  lemma SubmitKeeps(pending: seq<Prompt>, shown: Shown, i: nat)
    requires Numbered(pending, shown) && i < |pending| && pending[i].state != Failed
    ensures Numbered(Marked(pending, i, Submitted), shown)
  {
    forall x
      ensures NumberedFor(Marked(pending, i, Submitted), shown, x)
    {
      assert NumberedFor(pending, shown, x);
      MarkedLive(pending, i, Submitted, shown.session, x);
      SplitLive(pending, i, shown.session, x);
      var a, b := Live(pending[..i], shown.session, x), Live(pending[i + 1..], shown.session, x);
      var before, after := a + [pending[i]] + b, a + [pending[i].(state := Submitted)] + b;
      assert forall j :: 0 <= j < |after| ==> after[j].occurrence == before[j].occurrence;
    }
  }

  /** A failure keeps the numbering of the shown session exactly when no equal live prompt was tracked
      later: the occurrence that will not arrive must not be one a later prompt is counting on. */
  lemma FailureKeepsNumberingIff(pending: seq<Prompt>, shown: Shown, i: nat)
    requires Numbered(pending, shown) && i < |pending| && pending[i].session == shown.session && pending[i].state != Failed
    ensures Numbered(Marked(pending, i, Failed), shown) <==> NewestOfItsText(pending, i)
  {
    var p := pending[i];
    var a, b := Live(pending[..i], p.session, p.text), Live(pending[i + 1..], p.session, p.text);
    SplitLive(pending, i, p.session, p.text);
    MarkedLive(pending, i, Failed, p.session, p.text);
    assert NumberedFor(pending, shown, p.text);
    if b != [] {
      var live, kept := Live(pending, p.session, p.text), Live(Marked(pending, i, Failed), p.session, p.text);
      assert kept == a + b && live == a + [p] + b;
      assert kept[|a|] == b[0] == live[|a| + 1];
      assert !NumberedFor(Marked(pending, i, Failed), shown, p.text);
    } else {
      forall x
        ensures NumberedFor(Marked(pending, i, Failed), shown, x)
      {
        assert NumberedFor(pending, shown, x);
        SplitLive(pending, i, shown.session, x);
        MarkedLive(pending, i, Failed, shown.session, x);
        if x == p.text {
          assert Live(Marked(pending, i, Failed), shown.session, x) == a;
          assert forall j :: 0 <= j < |a| ==> Live(pending, shown.session, x)[j] == a[j];
        }
      }
    }
  }

  /** Otherwise the later prompt stays although its own message has arrived. */
  lemma StuckAfterFailure(s: Session, text: string)
    ensures var shown := Shown(s, []);
            var both := Track(Track([], Some(shown), s, text), Some(shown), s, text);
            var arrived := Shown(s, [Message(true, text)]);
            var left := Reconcile(Marked(both, 0, Failed), arrived);
            |both| == 2 && |left| == 2 && left[1].state != Failed
  {
    var shown := Shown(s, []);
    var one := Track([], Some(shown), s, text);
    assert one == [Prompt(s, text, Sending, 1, 0)] by { assert Live([], s, text) == []; }
    var both := Track(one, Some(shown), s, text);
    assert [] + one == one && [] + [one[0]] == one;
    var two := Prompt(s, text, Sending, 2, 0);
    assert both == [one[0], two];
    var failed := [one[0].(state := Failed), two];
    assert Marked(both, 0, Failed) == failed;
    var arrived := Shown(s, [Message(true, text)]);
    assert arrived.transcript[..0] == [] && Occurrences(arrived.transcript, text) == 1;
    assert failed[..1] == [failed[0]] && [failed[0]][..0] == [];
    assert Reconcile([failed[0]], arrived) == [failed[0]];
    assert Reconcile(failed, arrived) == failed;
  }

  /** A prompt that fails, is sent again and is accepted after all: one message retires both. */
  lemma RetiredTogether(s: Session, text: string)
    ensures var shown := Shown(s, []);
            var failed := Marked(Track([], Some(shown), s, text), 0, Failed);
            var revived := Marked(Track(failed, Some(shown), s, text), 0, Submitted);
            && |revived| == 2 && revived[0].state != Failed && revived[1].state != Failed
            && Reconcile(revived, Shown(s, [Message(true, text)])) == []
  {
    var shown := Shown(s, []);
    var first := Prompt(s, text, Sending, 1, 0);
    assert Track([], Some(shown), s, text) == [first] by { assert Live([], s, text) == []; }
    var failed := [first.(state := Failed)];
    assert Marked([first], 0, Failed) == failed;
    assert [] + [failed[0]] == failed;
    assert Track(failed, Some(shown), s, text) == [failed[0], first];
    var revived := [first.(state := Submitted), first];
    assert Marked([failed[0], first], 0, Submitted) == revived;
    var arrived := Shown(s, [Message(true, text)]);
    assert arrived.transcript[..0] == [] && Occurrences(arrived.transcript, text) == 1;
    assert revived[..1] == [revived[0]] && [revived[0]][..0] == [];
    assert Reconcile([revived[0]], arrived) == [];
  }

  // ---------------------------------------------------------------- whole runs

  datatype Op = Submit(text: string) | Grow(more: seq<Message>) | Accept(i: nat) | Fail(i: nat)

  datatype Client = Client(pending: seq<Prompt>, shown: Shown)

  function Step(c: Client, op: Op): Client {
    match op
    case Submit(text) => c.(pending := Track(c.pending, Some(c.shown), c.shown.session, text))
    case Grow(more) =>
      var grown := c.shown.(transcript := c.shown.transcript + more);
      Client(Reconcile(c.pending, grown), grown)
    case Accept(i) => if i < |c.pending| then c.(pending := Marked(c.pending, i, Submitted)) else c
    case Fail(i) => if i < |c.pending| then c.(pending := Marked(c.pending, i, Failed)) else c
  }

  /** A failure of an older prompt while a later equal one is pending, or a failed prompt accepted after
      all when its occurrence is no longer the next one. */
  ghost predicate Disturbs(c: Client, op: Op) {
    (op.Fail? || op.Accept?) && op.i < |c.pending| && c.pending[op.i].session == c.shown.session
    && if op.Fail? then c.pending[op.i].state != Failed && !NewestOfItsText(c.pending, op.i)
       else c.pending[op.i].state == Failed && !NextInLine(c.pending, c.shown, op.i)
  }

  ghost predicate NextInLine(pending: seq<Prompt>, shown: Shown, i: nat) {
    NewestOfItsText(pending, i)
    && pending[i].occurrence
       == Occurrences(shown.transcript, pending[i].text) + |Live(pending[..i], pending[i].session, pending[i].text)| + 1
  }

  /** Accepting a failed prompt after all keeps the numbering exactly when it is next in line. */
  lemma RevivalKeepsNumberingIff(pending: seq<Prompt>, shown: Shown, i: nat)
    requires Numbered(pending, shown) && i < |pending| && pending[i].session == shown.session && pending[i].state == Failed
    ensures Numbered(Marked(pending, i, Submitted), shown) <==> NextInLine(pending, shown, i)
  {
    hide Live, Occurrences;
    var p := pending[i];
    var q := p.(state := Submitted);
    var a, b := Live(pending[..i], p.session, p.text), Live(pending[i + 1..], p.session, p.text);
    var live, more := Live(pending, p.session, p.text), Live(Marked(pending, i, Submitted), p.session, p.text);
    SplitLive(pending, i, p.session, p.text);
    MarkedLive(pending, i, Submitted, p.session, p.text);
    assert NumberedFor(pending, shown, p.text);
    assert live == a + b && more == a + [q] + b;
    if b != [] {
      assert more[|a| + 1] == b[0] == live[|a|];
      assert !NumberedFor(Marked(pending, i, Submitted), shown, p.text);
    } else if !NextInLine(pending, shown, i) {
      assert more[|a|] == q;
      assert !NumberedFor(Marked(pending, i, Submitted), shown, p.text);
    } else {
      forall x
        ensures NumberedFor(Marked(pending, i, Submitted), shown, x)
      {
        assert NumberedFor(pending, shown, x);
        SplitLive(pending, i, shown.session, x);
        MarkedLive(pending, i, Submitted, shown.session, x);
        if x == p.text {
          assert more == a + [q] && live == a;
        }
      }
    }
  }

  function Run(c: Client, ops: seq<Op>): Client {
    if ops == [] then c else Step(Run(c, ops[..|ops| - 1]), ops[|ops| - 1])
  }

  lemma OtherFailure(pending: seq<Prompt>, shown: Shown, i: nat)
    requires Numbered(pending, shown) && i < |pending|
    requires pending[i].session != shown.session || pending[i].state == Failed
    ensures Numbered(Marked(pending, i, Failed), shown)
  {
    forall x
      ensures NumberedFor(Marked(pending, i, Failed), shown, x)
    {
      assert NumberedFor(pending, shown, x);
      SplitLive(pending, i, shown.session, x);
      MarkedLive(pending, i, Failed, shown.session, x);
    }
  }

  lemma OtherRevival(pending: seq<Prompt>, shown: Shown, i: nat)
    requires Numbered(pending, shown) && i < |pending| && pending[i].session != shown.session
    ensures Numbered(Marked(pending, i, Submitted), shown)
  {
    forall x
      ensures NumberedFor(Marked(pending, i, Submitted), shown, x)
    {
      assert NumberedFor(pending, shown, x);
      SplitLive(pending, i, shown.session, x);
      MarkedLive(pending, i, Submitted, shown.session, x);
    }
  }

  lemma StepNumberedIff(c: Client, op: Op)
    requires Numbered(c.pending, c.shown)
    ensures Numbered(Step(c, op).pending, Step(c, op).shown) <==> !Disturbs(c, op)
  {
    match op
    case Submit(text) => TrackKeeps(c.pending, c.shown, text);
    case Grow(more) => GrowKeeps(c.pending, c.shown, more);
    case Accept(i) =>
      if i < |c.pending| {
        if c.pending[i].state != Failed {
          SubmitKeeps(c.pending, c.shown, i);
        } else if c.pending[i].session == c.shown.session {
          RevivalKeepsNumberingIff(c.pending, c.shown, i);
        } else {
          OtherRevival(c.pending, c.shown, i);
        }
      }
    case Fail(i) =>
      if i < |c.pending| {
        if c.pending[i].session == c.shown.session && c.pending[i].state != Failed {
          FailureKeepsNumberingIff(c.pending, c.shown, i);
        } else {
          OtherFailure(c.pending, c.shown, i);
        }
      }
  }

  /** Over every run without such a disturbance, in particular over every run without failures, the
      numbering stays consecutive. */
  lemma {:induction false} RunNumbered(c: Client, ops: seq<Op>)
    requires Numbered(c.pending, c.shown)
    requires forall i :: 0 <= i < |ops| ==> !Disturbs(Run(c, ops[..i]), ops[i])
    ensures Numbered(Run(c, ops).pending, Run(c, ops).shown)
  {
    if ops != [] {
      var n := |ops| - 1;
      forall i | 0 <= i < n
        ensures !Disturbs(Run(c, ops[..n][..i]), ops[..n][i])
      {
        assert ops[..n][..i] == ops[..i];
      }
      RunNumbered(c, ops[..n]);
      StepNumberedIff(Run(c, ops[..n]), ops[n]);
    }
  }

  /** The numbering is consecutive in every state of a run exactly when none of its operations is such a disturbance. */
  lemma RunNumberedIff(c: Client, ops: seq<Op>)
    requires Numbered(c.pending, c.shown)
    ensures (forall i :: 0 <= i <= |ops| ==> Numbered(Run(c, ops[..i]).pending, Run(c, ops[..i]).shown)) <==>
            (forall i :: 0 <= i < |ops| ==> !Disturbs(Run(c, ops[..i]), ops[i]))
  {
    hide Numbered, Disturbs, Step;
    if forall i :: 0 <= i <= |ops| ==> Numbered(Run(c, ops[..i]).pending, Run(c, ops[..i]).shown) {
      forall i | 0 <= i < |ops|
        ensures !Disturbs(Run(c, ops[..i]), ops[i])
      {
        assert ops[..i + 1][..i] == ops[..i];
        StepNumberedIff(Run(c, ops[..i]), ops[i]);
        assert Numbered(Run(c, ops[..i + 1]).pending, Run(c, ops[..i + 1]).shown);
      }
    }
    if forall i :: 0 <= i < |ops| ==> !Disturbs(Run(c, ops[..i]), ops[i]) {
      forall i | 0 <= i <= |ops|
        ensures Numbered(Run(c, ops[..i]).pending, Run(c, ops[..i]).shown)
      {
        assert forall j :: 0 <= j < i ==> ops[..i][..j] == ops[..j] && ops[..i][j] == ops[j];
        RunNumbered(c, ops[..i]);
      }
    }
  }

  // ---------------------------------------------------------------- where prompts are drawn

  datatype Chunk = Drawn(m: Message) | Optimistic(p: Prompt)

  /** `render_conversation`: at each message the prompts that are anchored there come first. */
  function Draw(transcript: seq<Message>, prompts: seq<Prompt>, index: nat): seq<Chunk>
    requires index <= |transcript|
    decreases |prompts| + |transcript| - index
  {
    if prompts != [] && Min(prompts[0].anchor, |transcript|) <= index then [Optimistic(prompts[0])] + Draw(transcript, prompts[1..], index)
    else if index < |transcript| then [Drawn(transcript[index])] + Draw(transcript, prompts, index + 1)
    else []
  }

  function MessagesOf(chunks: seq<Chunk>): seq<Message> {
    if chunks == [] then [] else (if chunks[0].Drawn? then [chunks[0].m] else []) + MessagesOf(chunks[1..])
  }

  function PromptsOf(chunks: seq<Chunk>): seq<Prompt> {
    if chunks == [] then [] else (if chunks[0].Optimistic? then [chunks[0].p] else []) + PromptsOf(chunks[1..])
  }

  lemma ChunkFirst(c: Chunk, rest: seq<Chunk>)
    ensures MessagesOf([c] + rest) == (if c.Drawn? then [c.m] else []) + MessagesOf(rest)
    ensures PromptsOf([c] + rest) == (if c.Optimistic? then [c.p] else []) + PromptsOf(rest)
  {
    assert ([c] + rest)[1..] == rest;
  }

  /** Every message and every prompt is drawn once, in order. */
  lemma {:induction false} AllDrawn(transcript: seq<Message>, prompts: seq<Prompt>, index: nat)
    requires index <= |transcript|
    ensures var chunks := Draw(transcript, prompts, index);
            MessagesOf(chunks) == transcript[index..] && PromptsOf(chunks) == prompts
    decreases |prompts| + |transcript| - index
  {
    hide MessagesOf, PromptsOf;
    if prompts != [] && Min(prompts[0].anchor, |transcript|) <= index {
      AllDrawn(transcript, prompts[1..], index);
      ChunkFirst(Optimistic(prompts[0]), Draw(transcript, prompts[1..], index));
    } else if index < |transcript| {
      AllDrawn(transcript, prompts, index + 1);
      ChunkFirst(Drawn(transcript[index]), Draw(transcript, prompts, index + 1));
      assert [transcript[index]] + transcript[index + 1..] == transcript[index..];
    } else {
      assert transcript[index..] == [];
      NothingDrawn();
    }
  }

  lemma NothingDrawn()
    ensures MessagesOf([]) == [] && PromptsOf([]) == []
  {
  }

  /** Prompts are listed in the order of their anchors, within the transcript. */
  ghost predicate Anchored(prompts: seq<Prompt>, count: nat) {
    (forall i :: 0 <= i < |prompts| ==> prompts[i].anchor <= count)
    && forall i, j :: 0 <= i < j < |prompts| ==> prompts[i].anchor <= prompts[j].anchor
  }

  /** What is drawn before the prompt, and what after it. */
  lemma {:induction false} DrawnAtAnchor(transcript: seq<Message>, prompts: seq<Prompt>, index: nat, j: nat)
    returns (before: seq<Chunk>, after: seq<Chunk>)
    requires index <= |transcript| && j < |prompts| && Anchored(prompts, |transcript|)
    requires forall i :: 0 <= i < |prompts| ==> index <= prompts[i].anchor
    ensures Draw(transcript, prompts, index) == before + [Optimistic(prompts[j])] + after
    ensures MessagesOf(before) == transcript[index..prompts[j].anchor] && PromptsOf(before) == prompts[..j]
    decreases |prompts| + |transcript| - index
  {
    hide MessagesOf, PromptsOf;
    var p := prompts[0];
    if p.anchor <= index && j == 0 {
      before, after := [], Draw(transcript, prompts[1..], index);
      NothingDrawn();
      assert [] + [Optimistic(p)] + after == [Optimistic(p)] + after;
    } else if p.anchor <= index {
      before, after := DrawnAtAnchor(transcript, prompts[1..], index, j - 1);
      ChunkFirst(Optimistic(p), before);
      Prepended(Optimistic(p), before, Optimistic(prompts[j]), after);
      assert [p] + prompts[1..][..j - 1] == prompts[..j];
      before := [Optimistic(p)] + before;
    } else {
      var m := Drawn(transcript[index]);
      assert p.anchor <= prompts[j].anchor;
      before, after := DrawnAtAnchor(transcript, prompts, index + 1, j);
      ChunkFirst(m, before);
      Prepended(m, before, Optimistic(prompts[j]), after);
      assert [transcript[index]] + transcript[index + 1..prompts[j].anchor] == transcript[index..prompts[j].anchor];
      before := [m] + before;
    }
  }

  lemma {:induction false} ReconcileAnchored(pending: seq<Prompt>, shown: Shown, count: nat)
    requires Anchored(pending, count)
    ensures Anchored(Reconcile(pending, shown), count)
    ensures forall p :: p in Reconcile(pending, shown) ==> p in pending
  {
    if pending != [] {
      var n := |pending| - 1;
      ReconcileAnchored(pending[..n], shown, count);
      var kept := Reconcile(pending[..n], shown);
      forall i | 0 <= i < |kept|
        ensures kept[i].anchor <= pending[n].anchor
      {
        assert kept[i] in kept && kept[i] in pending[..n];
      }
    }
  }

  lemma StepAnchored(c: Client, op: Op)
    requires Anchored(c.pending, |c.shown.transcript|)
    ensures Anchored(Step(c, op).pending, |Step(c, op).shown.transcript|)
    ensures |c.shown.transcript| <= |Step(c, op).shown.transcript|
  {
    hide Live, Occurrences;
    if op.Grow? {
      ReconcileAnchored(c.pending, c.shown.(transcript := c.shown.transcript + op.more), |c.shown.transcript|);
    }
  }

  /** The operation by which the prompt was submitted, and how much of the transcript was there then. */
  ghost predicate SubmittedAt(c: Client, ops: seq<Op>, i: nat, p: Prompt) {
    && i < |ops| && ops[i] == Submit(p.text) && p.session == Run(c, ops[..i]).shown.session
    && p.anchor == |Run(c, ops[..i]).shown.transcript|
  }

  lemma SubmittedBefore(c: Client, ops: seq<Op>, i: nat, p: Prompt, q: Prompt)
    requires ops != [] && SubmittedAt(c, ops[..|ops| - 1], i, p) && q.text == p.text && q.session == p.session && q.anchor == p.anchor
    ensures SubmittedAt(c, ops, i, q)
  {
    assert ops[..|ops| - 1][..i] == ops[..i];
  }

  lemma StepOrigin(c: Client, op: Op, p: Prompt) returns (q: Prompt)
    requires p in Step(c, op).pending && Anchored(c.pending, |c.shown.transcript|)
    ensures q.text == p.text && q.session == p.session && q.anchor == p.anchor
    ensures q in c.pending || (op == Submit(p.text) && p.session == c.shown.session && p.anchor == |c.shown.transcript|)
  {
    hide Live, Occurrences;
    q := p;
    match op
    case Submit(_) =>
    case Grow(more) => ReconcileAnchored(c.pending, c.shown.(transcript := c.shown.transcript + more), |c.shown.transcript|);
    case Accept(i) => if i < |c.pending| && p == c.pending[i].(state := Submitted) { q := c.pending[i]; }
    case Fail(i) => if i < |c.pending| && p == c.pending[i].(state := Failed) { q := c.pending[i]; }
  }

  lemma {:induction false} RunAnchored(c: Client, ops: seq<Op>)
    requires c.pending == []
    ensures Anchored(Run(c, ops).pending, |Run(c, ops).shown.transcript|)
    ensures forall p :: p in Run(c, ops).pending ==> exists i :: SubmittedAt(c, ops, i, p)
  {
    if ops != [] {
      var n := |ops| - 1;
      RunAnchored(c, ops[..n]);
      StepAnchored(Run(c, ops[..n]), ops[n]);
      hide Anchored, Step;
      forall p | p in Run(c, ops).pending
        ensures exists i :: SubmittedAt(c, ops, i, p)
      {
        var q := StepOrigin(Run(c, ops[..n]), ops[n], p);
        if q in Run(c, ops[..n]).pending {
          var i :| SubmittedAt(c, ops[..n], i, q);
          SubmittedBefore(c, ops, i, q, p);
        } else {
          assert SubmittedAt(c, ops, n, p);
        }
      }
    }
  }

  /** Over every run each pending prompt is drawn after exactly the messages that were shown when it was submitted. */
  lemma DrawnWhereSubmitted(c: Client, ops: seq<Op>, j: nat) returns (i: nat, before: seq<Chunk>, after: seq<Chunk>)
    requires c.pending == [] && j < |Run(c, ops).pending|
    ensures var state := Run(c, ops);
            && SubmittedAt(c, ops, i, state.pending[j])
            && Draw(state.shown.transcript, state.pending, 0) == before + [Optimistic(state.pending[j])] + after
            && PromptsOf(before) == state.pending[..j]
            && state.pending[j].anchor <= |state.shown.transcript|
            && MessagesOf(before) == state.shown.transcript[..state.pending[j].anchor]
  {
    RunAnchored(c, ops);
    var state := Run(c, ops);
    assert state.pending[j] in state.pending;
    hide Run, SubmittedAt;
    i :| SubmittedAt(c, ops, i, state.pending[j]);
    before, after := DrawnAtAnchor(state.shown.transcript, state.pending, 0, j);
    assert state.shown.transcript[0..state.pending[j].anchor] == state.shown.transcript[..state.pending[j].anchor];
  }

  /** The nested loops of `render_conversation`. */
  method RenderConversation(transcript: seq<Message>, prompts: seq<Prompt>) returns (chunks: seq<Chunk>)
    ensures chunks == Draw(transcript, prompts, 0)
  {
    chunks := [];
    var next := 0;
    assert prompts[0..] == prompts;
    for index := 0 to |transcript| + 1
      invariant 0 <= next <= |prompts|
      invariant index <= |transcript| ==> chunks + Draw(transcript, prompts[next..], index) == Draw(transcript, prompts, 0)
      invariant index > |transcript| ==> chunks == Draw(transcript, prompts, 0)
    {
      while next < |prompts| && Min(prompts[next].anchor, |transcript|) <= index
        invariant 0 <= next <= |prompts|
        invariant chunks + Draw(transcript, prompts[next..], index) == Draw(transcript, prompts, 0)
      {
        assert prompts[next..][0] == prompts[next] && prompts[next..][1..] == prompts[next + 1..];
        ghost var rest := Draw(transcript, prompts[next + 1..], index);
        OneMore(chunks, Optimistic(prompts[next]), rest);
        chunks, next := chunks + [Optimistic(prompts[next])], next + 1;
      }
      if index < |transcript| {
        assert next < |prompts| ==> prompts[next..][0] == prompts[next];
        ghost var rest := Draw(transcript, prompts[next..], index + 1);
        OneMore(chunks, Drawn(transcript[index]), rest);
        chunks := chunks + [Drawn(transcript[index])];
      } else {
        assert prompts[next..] == [] && chunks + [] == chunks;
      }
    }
  }

  // ---------------------------------------------------------------- as the client runs it

  class PromptList {
    var pending: seq<Prompt>
    var shown: Option<Shown>

    constructor ()
      ensures pending == [] && shown.None?
    {
      pending, shown := [], None;
    }

    method TrackPrompt(s: Session, text: string)
      modifies this`pending
      ensures pending == Track(old(pending), shown, s, text)
    {
      var seen, anchor := 0, 0;
      if shown.Some? {
        var transcript := shown.value.transcript;
        for i := 0 to |transcript|
          invariant seen == Occurrences(transcript[..i], text)
        {
          assert transcript[..i + 1][..i] == transcript[..i];
          if transcript[i].fromUser && transcript[i].text == text { seen := seen + 1; }
        }
        assert transcript[..|transcript|] == transcript;
        anchor := |transcript|;
      }
      var already := 0;
      for i := 0 to |pending|
        invariant pending == old(pending) && already == |Live(pending[..i], s, text)|
      {
        assert pending[..i + 1][..i] == pending[..i];
        if IsLive(pending[i], s, text) { already := already + 1; }
      }
      assert pending[..|pending|] == pending;
      pending := pending + [Prompt(s, text, Sending, seen + already + 1, anchor)];
    }

    method ReconcilePrompts()
      modifies this`pending
      ensures pending == if shown.Some? then Reconcile(old(pending), shown.value) else old(pending)
    {
      if shown.None? { return; }
      var kept, all := [], pending;
      for i := 0 to |all|
        invariant kept == Reconcile(all[..i], shown.value)
      {
        assert all[..i + 1][..i] == all[..i];
        if Stays(all[i], shown.value) { kept := kept + [all[i]]; }
      }
      assert all[..|all|] == all;
      pending := kept;
    }
  }
}
