/** The prompt composer: a UTF-8 buffer with a byte cursor, and the prompt history.  `Editor` is what the
    user sees, text before and after the cursor; the class keeps bytes and offsets. */
module Composer {
  import opened Seqs
  import opened Utf8
  import Text

  const MAX_COMPOSER_BYTES: nat := 64 * 1024
  const MAX_INPUT_HISTORY: nat := 200

  datatype Editor = Editor(before: string, after: string, history: seq<string>, index: Option<nat>, draft: string)
  {
    function Content(): string {
      before + after
    }
  }

  const BLANK := Editor("", "", [], None, "")

  // ---------------------------------------------------------------- editing, as the user sees it

  /** `bounded_str`: the longest run of whole characters within `limit` bytes. */
  function Bounded(text: string, limit: nat): (k: nat)
    ensures k <= |text|
  {
    if text == [] || |Encode(text)| <= limit then |text| else Bounded(text[..|text| - 1], limit)
  }

  function Available(content: string): nat {
    if |Encode(content)| <= MAX_COMPOSER_BYTES then MAX_COMPOSER_BYTES - |Encode(content)| else 0
  }

  /** Length of `s` without its trailing white space, and without its trailing ink. */
  function TrimSpace(s: string): (k: nat)
    ensures k <= |s|
  {
    if s != [] && Text.Whitespace(s[|s| - 1]) then TrimSpace(s[..|s| - 1]) else |s|
  }

  function TrimInk(s: string): (k: nat)
    ensures k <= |s|
  {
    if s != [] && !Text.Whitespace(s[|s| - 1]) then TrimInk(s[..|s| - 1]) else |s|
  }

  function WordStart(s: string): (k: nat)
    ensures k <= |s|
  {
    TrimInk(s[..TrimSpace(s)])
  }

  /** Length of the leading white space of `s`, and of its leading ink. */
  function SkipSpace(s: string): (k: nat)
    ensures k <= |s|
  {
    if s != [] && Text.Whitespace(s[0]) then 1 + SkipSpace(s[1..]) else 0
  }

  function SkipInk(s: string): (k: nat)
    ensures k <= |s|
  {
    if s != [] && !Text.Whitespace(s[0]) then 1 + SkipInk(s[1..]) else 0
  }

  function WordEnd(s: string): (k: nat)
    ensures k <= |s|
  {
    SkipSpace(s) + SkipInk(s[SkipSpace(s)..])
  }

  datatype Op =
    | Insert(text: string)
    | Backspace
    | DeleteForward
    | MoveLeft
    | MoveRight
    | MoveWordLeft
    | MoveWordRight
    | DeleteWordLeft
    | Home
    | End
    | Clear
    | Replace(text: string)
    | Recall(text: string)
    | HistoryPrevious
    | HistoryNext
    | RecordHistory(text: string)
    | IngestHistory(texts: seq<string>)

  /** The text is put before the cursor and history navigation ends. */
  function Edited(e: Editor, before: string, after: string): Editor {
    e.(before := before, after := after, index := None, draft := "")
  }

  function Shown(e: Editor, text: string): Editor {
    e.(before := text, after := "")
  }

  function Previous(e: Editor): Editor {
    if e.history == [] then e
    else
      var i := if e.index.Some? then (if e.index.value > 0 then e.index.value - 1 else 0) else |e.history| - 1;
      var draft := if e.index.Some? then e.draft else e.Content();
      Shown(e, if i < |e.history| then e.history[i] else "").(index := Some(i), draft := draft)
  }

  function Following(e: Editor): Editor {
    if e.index.None? then e
    else if e.index.value + 1 < |e.history| then
      Shown(e, e.history[e.index.value + 1]).(index := Some(e.index.value + 1))
    else Shown(e, e.draft).(index := None, draft := "")
  }

  function Remember(history: seq<string>, text: string): seq<string> {
    if history != [] && history[|history| - 1] == text then history else history + [text]
  }

  function Ingest(history: seq<string>, texts: seq<string>): seq<string> {
    if texts == [] then history
    else
      var earlier, text := Ingest(history, texts[..|texts| - 1]), texts[|texts| - 1];
      if text == [] || text in earlier then earlier else earlier + [text]
  }

  function Step(e: Editor, op: Op): Editor {
    match op
    case Insert(text) => Edited(e, e.before + text[..Bounded(text, Available(e.Content()))], e.after)
    case Backspace => if e.before == [] then e else Edited(e, e.before[..|e.before| - 1], e.after)
    case DeleteForward => if e.after == [] then e else Edited(e, e.before, e.after[1..])
    case MoveLeft =>
      if e.before == [] then e
      else e.(before := e.before[..|e.before| - 1], after := [e.before[|e.before| - 1]] + e.after)
    case MoveRight =>
      if e.after == [] then e else e.(before := e.before + [e.after[0]], after := e.after[1..])
    case MoveWordLeft =>
      var k := WordStart(e.before);
      e.(before := e.before[..k], after := e.before[k..] + e.after)
    case MoveWordRight =>
      var k := WordEnd(e.after);
      e.(before := e.before + e.after[..k], after := e.after[k..])
    case DeleteWordLeft => Edited(e, e.before[..WordStart(e.before)], e.after)
    case Home => e.(before := "", after := e.Content())
    case End => e.(before := e.Content(), after := "")
    case Clear => Edited(e, "", "")
    case Replace(text) => Edited(e, text[..Bounded(text, MAX_COMPOSER_BYTES)], "")
    case Recall(text) => Shown(e, text)
    case HistoryPrevious => Previous(e)
    case HistoryNext => Following(e)
    case RecordHistory(text) => e.(history := Newest(Remember(e.history, text), MAX_INPUT_HISTORY), index := None, draft := "")
    case IngestHistory(texts) => e.(history := Newest(Ingest(e.history, texts), MAX_INPUT_HISTORY))
  }

  function Run(e: Editor, ops: seq<Op>): Editor {
    if ops == [] then e else Step(Run(e, ops[..|ops| - 1]), ops[|ops| - 1])
  }

  // ---------------------------------------------------------------- what every operation keeps

  /** Any history index is valid, and the history is bounded. */
  ghost predicate EditorValid(e: Editor) {
    |e.history| <= MAX_INPUT_HISTORY && (e.index.Some? ==> e.index.value < |e.history|)
  }

  lemma {:induction false} IngestGrows(history: seq<string>, texts: seq<string>)
    ensures |Ingest(history, texts)| >= |history|
  {
    if texts != [] {
      IngestGrows(history, texts[..|texts| - 1]);
    }
  }

  lemma StepKeepsIndex(e: Editor, op: Op)
    requires EditorValid(e)
    ensures EditorValid(Step(e, op))
  {
    if op.IngestHistory? {
      IngestGrows(e.history, op.texts);
    }
  }

  lemma {:induction false} RunKeepsIndex(e: Editor, ops: seq<Op>)
    requires EditorValid(e)
    ensures EditorValid(Run(e, ops))
  {
    if ops != [] {
      RunKeepsIndex(e, ops[..|ops| - 1]);
      StepKeepsIndex(Run(e, ops[..|ops| - 1]), ops[|ops| - 1]);
    }
  }

  /** Moves do not change the text. */
  lemma MovesKeepContent(e: Editor, op: Op)
    requires op.MoveLeft? || op.MoveRight? || op.MoveWordLeft? || op.MoveWordRight? || op.Home? || op.End?
    ensures Step(e, op).Content() == e.Content() && Step(e, op).history == e.history && Step(e, op).index == e.index
  {
    hide WordStart, WordEnd, Previous, Following, Ingest, Available, Bounded;
    match op
    case MoveLeft =>
      if e.before != [] {
        Regroup(e.before, |e.before| - 1, e.after);
      }
    case MoveRight =>
      if e.after != [] {
        Shift(e.before, e.after, 1);
        assert e.after[..1] == [e.after[0]];
      }
    case MoveWordLeft => Regroup(e.before, WordStart(e.before), e.after);
    case MoveWordRight => Shift(e.before, e.after, WordEnd(e.after));
    case Home => assert "" + e.Content() == e.Content();
    case End => assert e.Content() + "" == e.Content();
  }

  lemma {:induction false} TrimmedFrom(s: string)
    ensures forall i :: TrimSpace(s) <= i < |s| ==> Text.Whitespace(s[i])
    ensures TrimSpace(s) > 0 ==> !Text.Whitespace(s[TrimSpace(s) - 1])
    ensures forall i :: TrimInk(s) <= i < |s| ==> !Text.Whitespace(s[i])
    ensures TrimInk(s) > 0 ==> Text.Whitespace(s[TrimInk(s) - 1])
  {
    hide Text.Whitespace;
    if s != [] {
      TrimmedFrom(s[..|s| - 1]);
    }
  }

  /** A word move left stops at the start of the last word: after it come ink and then white space only, and before
      it white space or nothing. */
  lemma WordStartIs(s: string)
    ensures var k, j := WordStart(s), TrimSpace(s);
            && k <= j && (forall i :: k <= i < j ==> !Text.Whitespace(s[i])) && (forall i :: j <= i < |s| ==> Text.Whitespace(s[i]))
            && (k > 0 ==> Text.Whitespace(s[k - 1])) && (k == j ==> j == 0)
  {
    hide Text.Whitespace, TrimSpace, TrimInk;
    TrimmedFrom(s);
    TrimmedFrom(s[..TrimSpace(s)]);
  }

  lemma {:induction false} SkippedTo(s: string)
    ensures forall i :: 0 <= i < SkipSpace(s) ==> Text.Whitespace(s[i])
    ensures SkipSpace(s) < |s| ==> !Text.Whitespace(s[SkipSpace(s)])
    ensures forall i :: 0 <= i < SkipInk(s) ==> !Text.Whitespace(s[i])
    ensures SkipInk(s) < |s| ==> Text.Whitespace(s[SkipInk(s)])
  {
    hide Text.Whitespace;
    if s != [] {
      SkippedTo(s[1..]);
      assert forall i :: 1 <= i < |s| ==> s[i] == s[1..][i - 1];
    }
  }

  /** A word move right stops at the end of the next word: before it come white space and then ink only, and after it
      white space or nothing. */
  lemma WordEndIs(s: string)
    ensures var j, k := SkipSpace(s), WordEnd(s);
            && j <= k && (forall i :: 0 <= i < j ==> Text.Whitespace(s[i])) && (forall i :: j <= i < k ==> !Text.Whitespace(s[i]))
            && (k < |s| ==> Text.Whitespace(s[k])) && (k == j ==> j == |s|)
  {
    hide Text.Whitespace, SkipSpace, SkipInk;
    var j := SkipSpace(s);
    SkippedTo(s);
    SkippedTo(s[j..]);
    assert forall i :: j <= i < |s| ==> s[i] == s[j..][i - j];
  }

  lemma Regroup(a: string, k: nat, b: string)
    requires k <= |a|
    ensures a[..k] + (a[k..] + b) == a + b
    ensures k + 1 == |a| ==> a[k..] == [a[k]]
  {
  }

  lemma Shift(a: string, b: string, k: nat)
    requires k <= |b|
    ensures (a + b[..k]) + b[k..] == a + b
  {
  }

  /** One step right undoes one step left. */
  lemma RightUndoesLeft(e: Editor)
    requires e.before != []
    ensures Step(Step(e, MoveLeft), MoveRight) == e
  {
    var n := |e.before| - 1;
    assert e.before == e.before[..n] + [e.before[n]];
    assert ([e.before[n]] + e.after)[1..] == e.after;
  }

  /** Backspace undoes the insertion of one character that fits. */
  lemma BackspaceUndoesInsert(e: Editor, c: char)
    requires |Encode(e.Content())| + |EncodeChar(c)| <= MAX_COMPOSER_BYTES
    ensures Step(Step(e, Insert([c])), Backspace) == Edited(e, e.before, e.after)
  {
    EncodeOne(c);
    assert [c][..1] == [c];
    assert (e.before + [c])[..|e.before|] == e.before;
  }

  lemma {:induction false} BoundedIsLongest(text: string, limit: nat)
    ensures |Encode(text[..Bounded(text, limit)])| <= limit
    ensures forall k :: Bounded(text, limit) < k <= |text| ==> |Encode(text[..k])| > limit
  {
    if |Encode(text)| <= limit {
      assert text[..|text|] == text;
    } else if text != [] {
      var n := |text| - 1;
      BoundedIsLongest(text[..n], limit);
      forall k | Bounded(text, limit) < k <= |text|
        ensures |Encode(text[..k])| > limit
      {
        if k <= n {
          assert text[..n][..k] == text[..k];
        } else {
          assert text[..k] == text;
        }
      }
      assert text[..n][..Bounded(text, limit)] == text[..Bounded(text, limit)];
    }
  }

  /** Insertion takes the longest run of whole characters that keeps the composer within its bound, and
      never lets it grow past the bound. */
  lemma InsertIsBounded(e: Editor, text: string)
    ensures |Encode(Step(e, Insert(text)).Content())| <= MAX_COMPOSER_BYTES || Step(e, Insert(text)).Content() == e.Content()
  {
    var k := Bounded(text, Available(e.Content()));
    BoundedIsLongest(text, Available(e.Content()));
    EncodeAppend(e.before, e.after);
    EncodeAppend(e.before + text[..k], e.after);
    EncodeAppend(e.before, text[..k]);
    if |Encode(e.Content())| > MAX_COMPOSER_BYTES {
      assert e.before + text[..k] == e.before;
    }
  }

  // ---------------------------------------------------------------- every edit in terms of single steps

  function Repeat(e: Editor, op: Op, n: nat): Editor {
    if n == 0 then e else Step(Repeat(e, op, n - 1), op)
  }

  lemma {:induction false} LeftsReach(e: Editor, n: nat)
    requires n <= |e.before|
    ensures var k := |e.before| - n; Repeat(e, MoveLeft, n) == e.(before := e.before[..k], after := e.before[k..] + e.after)
  {
    var k := |e.before| - n;
    if n == 0 {
      assert e.before[..k] == e.before && [] + e.after == e.after;
    } else {
      LeftsReach(e, n - 1);
      assert e.before[..k + 1][..k] == e.before[..k];
      assert [e.before[k]] + (e.before[k + 1..] + e.after) == e.before[k..] + e.after;
    }
  }

  lemma {:induction false} RightsReach(e: Editor, n: nat)
    requires n <= |e.after|
    ensures Repeat(e, MoveRight, n) == e.(before := e.before + e.after[..n], after := e.after[n..])
  {
    if n == 0 {
      assert e.before + [] == e.before;
    } else {
      RightsReach(e, n - 1);
      assert e.after[n - 1..][1..] == e.after[n..];
      assert (e.before + e.after[..n - 1]) + [e.after[n - 1]] == e.before + e.after[..n];
    }
  }

  /** The cursor `k` characters from the start. */
  function At(e: Editor, k: nat): Editor
    requires k <= |e.before|
  {
    e.(before := e.before[..k], after := e.before[k..] + e.after)
  }

  lemma LeftsReachAt(e: Editor, k: nat)
    requires k <= |e.before|
    ensures Repeat(e, MoveLeft, |e.before| - k) == At(e, k)
  {
    hide Step, Repeat;
    LeftsReach(e, |e.before| - k);
  }

  lemma WordLeftIs(e: Editor)
    ensures Step(e, MoveWordLeft) == At(e, WordStart(e.before))
  {
    hide WordStart, WordEnd, Previous, Following, Ingest, Remember, Bounded, Available, Newest;
  }

  lemma HomeIs(e: Editor)
    ensures Step(e, Home) == At(e, 0)
  {
    hide WordStart, WordEnd, Previous, Following, Ingest, Remember, Bounded, Available, Newest;
    assert e.before[0..] == e.before;
  }

  /** The cursor `k` characters on. */
  function Ahead(e: Editor, k: nat): Editor
    requires k <= |e.after|
  {
    e.(before := e.before + e.after[..k], after := e.after[k..])
  }

  lemma RightsReachAhead(e: Editor, k: nat)
    requires k <= |e.after|
    ensures Repeat(e, MoveRight, k) == Ahead(e, k)
  {
    hide Step, Repeat;
    RightsReach(e, k);
  }

  lemma WordRightIs(e: Editor)
    ensures Step(e, MoveWordRight) == Ahead(e, WordEnd(e.after))
  {
    hide WordStart, WordEnd, Previous, Following, Ingest, Remember, Bounded, Available, Newest;
  }

  lemma EndIs(e: Editor)
    ensures Step(e, End) == Ahead(e, |e.after|)
  {
    hide WordStart, WordEnd, Previous, Following, Ingest, Remember, Bounded, Available, Newest;
    assert e.after[..|e.after|] == e.after;
  }

  /** A word move is as many single moves as its distance. */
  lemma WordMovesAreSteps(e: Editor)
    ensures Step(e, MoveWordLeft) == Repeat(e, MoveLeft, |e.before| - WordStart(e.before))
    ensures Step(e, MoveWordRight) == Repeat(e, MoveRight, WordEnd(e.after))
  {
    hide Step, Repeat, WordStart, WordEnd, At, Ahead;
    LeftsReachAt(e, WordStart(e.before));
    RightsReachAhead(e, WordEnd(e.after));
    WordLeftIs(e);
    WordRightIs(e);
  }

  /** So are home and end. */
  lemma HomeIsSteps(e: Editor)
    ensures Step(e, Home) == Repeat(e, MoveLeft, |e.before|)
  {
    hide Step, Repeat, At;
    var n := |e.before|;
    LeftsReachAt(e, 0);
    assert n - 0 == n;
    HomeIs(e);
  }

  lemma EndIsSteps(e: Editor)
    ensures Step(e, End) == Repeat(e, MoveRight, |e.after|)
  {
    hide Step, Repeat, Ahead;
    RightsReachAhead(e, |e.after|);
    EndIs(e);
  }

  /** Deleting forward after one step left is a backspace. */
  lemma LeftThenDelete(e: Editor)
    requires e.before != []
    ensures Step(Step(e, MoveLeft), DeleteForward) == Step(e, Backspace)
  {
    assert ([e.before[|e.before| - 1]] + e.after)[1..] == e.after;
  }

  lemma {:induction false} BackspacesReach(e: Editor, n: nat)
    requires 0 < n <= |e.before|
    ensures Repeat(e, Backspace, n) == Edited(e, e.before[..|e.before| - n], e.after)
  {
    if n > 1 {
      BackspacesReach(e, n - 1);
      assert e.before[..|e.before| - n + 1][..|e.before| - n] == e.before[..|e.before| - n];
    }
  }

  /** Deleting a word is a backspace for each character that a word move would pass. */
  lemma DeleteWordIsBackspaces(e: Editor)
    requires e.before != []
    ensures WordStart(e.before) < |e.before|
    ensures Step(e, DeleteWordLeft) == Repeat(e, Backspace, |e.before| - WordStart(e.before))
  {
    WordStartIs(e.before);
    hide WordStart, Repeat, TrimSpace;
    BackspacesReach(e, |e.before| - WordStart(e.before));
  }

  lemma WholeFits(text: string, limit: nat)
    requires |Encode(text)| <= limit
    ensures Bounded(text, limit) == |text|
  {
  }

  lemma InsertFits(e: Editor, text: string)
    requires |Encode(e.Content())| + |Encode(text)| <= MAX_COMPOSER_BYTES
    ensures Step(e, Insert(text)) == Edited(e, e.before + text, e.after)
  {
    WholeFits(text, Available(e.Content()));
    hide Bounded, Encode;
    assert text[..|text|] == text;
  }

  /** Inserting what fits puts it before the cursor, and as many backspaces take it away again. */
  lemma InsertThenBackspaces(e: Editor, text: string)
    requires text != [] && |Encode(e.Content())| + |Encode(text)| <= MAX_COMPOSER_BYTES
    ensures Step(e, Insert(text)) == Edited(e, e.before + text, e.after)
    ensures Repeat(Step(e, Insert(text)), Backspace, |text|) == Edited(e, e.before, e.after)
  {
    hide Step, Encode, Repeat;
    InsertFits(e, text);
    var f := Edited(e, e.before + text, e.after);
    BackspacesReach(f, |text|);
    assert f.before[..|f.before| - |text|] == e.before;
  }

  lemma ContentGrows(e: Editor, a: string)
    ensures |Encode(Edited(e, e.before + a, e.after).Content())| == |Encode(e.Content())| + |Encode(a)|
  {
    EncodeAppend(e.before, e.after);
    EncodeAppend(e.before + a, e.after);
    EncodeAppend(e.before, a);
  }

  /** Inserting two texts is inserting them together, if they fit. */
  lemma InsertTogether(e: Editor, a: string, b: string)
    requires |Encode(e.Content())| + |Encode(a + b)| <= MAX_COMPOSER_BYTES
    ensures Step(Step(e, Insert(a)), Insert(b)) == Step(e, Insert(a + b))
  {
    hide Step, Encode;
    EncodeAppend(a, b);
    ContentGrows(e, a);
    InsertFits(e, a);
    InsertFits(e, a + b);
    InsertFits(Edited(e, e.before + a, e.after), b);
    assert (e.before + a) + b == e.before + (a + b);
  }

  lemma ReplacedWith(e: Editor, text: string)
    ensures Step(e, Replace(text)) == Step(Step(e, Clear), Insert(text))
  {
    NothingEncoded();
    hide Bounded, Encode, WordStart, WordEnd, Previous, Following, Ingest, Remember, Newest;
    var k := Bounded(text, MAX_COMPOSER_BYTES);
    assert "" + text[..k] == text[..k] && "" + "" == "";
  }

  /** Replacing the text is clearing it and inserting the new one; clearing leaves nothing. */
  lemma ReplaceIsClearAndInsert(e: Editor, text: string)
    ensures Step(e, Clear).Content() == "" && Step(e, Clear).history == e.history
    ensures Step(e, Replace(text)) == Step(Step(e, Clear), Insert(text))
    ensures |Encode(text)| <= MAX_COMPOSER_BYTES ==> Step(e, Replace(text)).Content() == text
  {
    ReplacedWith(e, text);
    hide Encode, WordStart, WordEnd, Previous, Following, Ingest, Remember, Newest, Available;
    if |Encode(text)| <= MAX_COMPOSER_BYTES {
      WholeFits(text, MAX_COMPOSER_BYTES);
      assert text[..|text|] == text && text + "" == text;
    }
  }

  // ---------------------------------------------------------------- what the history holds

  /** The texts without immediate repetitions. */
  function Squeezed(texts: seq<string>): seq<string> {
    if texts == [] then []
    else
      var n := |texts| - 1;
      if n > 0 && texts[n - 1] == texts[n] then Squeezed(texts[..n]) else Squeezed(texts[..n]) + [texts[n]]
  }

  function Recordings(texts: seq<string>): seq<Op> {
    seq(|texts|, i requires 0 <= i < |texts| => RecordHistory(texts[i]))
  }

  lemma {:induction false} SqueezedLast(texts: seq<string>)
    requires texts != []
    ensures Squeezed(texts) != [] && Squeezed(texts)[|Squeezed(texts)| - 1] == texts[|texts| - 1]
  {
    if |texts| > 1 {
      SqueezedLast(texts[..|texts| - 1]);
    }
  }

  lemma NewestLater(older: seq<string>, text: string, n: nat)
    requires n > 0
    ensures Newest(Newest(older, n) + [text], n) == Newest(older + [text], n)
    ensures older != [] ==> Newest(older, n) != [] && Newest(older, n)[|Newest(older, n)| - 1] == older[|older| - 1]
    ensures Newest(Newest(older, n), n) == Newest(older, n)
  {
    if |older| > n {
      var kept := older[|older| - n..];
      assert kept + [text] == (older + [text])[|older| - n..];
      assert (kept + [text])[1..] == (older + [text])[|older| + 1 - n..];
    }
  }

  /** Prompts that are recorded one after another are remembered in order, without immediate repetitions, the newest up
      to the bound. */
  lemma {:induction false} RecordedInOrder(texts: seq<string>)
    ensures Run(BLANK, Recordings(texts)).history == Newest(Squeezed(texts), MAX_INPUT_HISTORY)
  {
    if texts != [] {
      var n := |texts| - 1;
      RecordedInOrder(texts[..n]);
      assert Recordings(texts)[..n] == Recordings(texts[..n]);
      NewestLater(Squeezed(texts[..n]), texts[n], MAX_INPUT_HISTORY);
      if n > 0 {
        SqueezedLast(texts[..n]);
      }
    }
  }

  /** Projected prompts join the history once each, after what it holds, if they are not empty. */
  lemma {:induction false} IngestedOnce(history: seq<string>, texts: seq<string>)
    ensures history <= Ingest(history, texts)
    ensures forall t :: t in Ingest(history, texts) <==> t in history || (t in texts && t != [])
    ensures Distinct(history) ==> Distinct(Ingest(history, texts))
  {
    if texts != [] {
      IngestedOnce(history, texts[..|texts| - 1]);
      assert texts == texts[..|texts| - 1] + [texts[|texts| - 1]];
    }
  }

  /** What was recorded last is what the first step up shows, and the step down after it brings the text back. */
  lemma RecordThenUp(e: Editor, text: string)
    ensures var r := Step(e, RecordHistory(text));
            && r.Content() == e.Content() && r.before == e.before
            && Step(r, HistoryPrevious).before == text && Step(r, HistoryPrevious).after == ""
            && Step(Step(r, HistoryPrevious), HistoryNext).Content() == e.Content()
    ensures Step(e, Recall(text)).before == text && Step(e, Recall(text)).after == "" && Step(e, Recall(text)).history == e.history
  {
    var r := Step(e, RecordHistory(text));
    var all := Remember(e.history, text);
    assert all != [] && all[|all| - 1] == text;
    assert r.history[|r.history| - 1] == text;
    assert r.Content() + "" == r.Content();
  }

  // ---------------------------------------------------------------- history navigation

  function Up(e: Editor, k: nat): Editor {
    if k == 0 then e else Previous(Up(e, k - 1))
  }

  function Down(e: Editor, k: nat): Editor {
    if k == 0 then e else Following(Down(e, k - 1))
  }

  lemma {:induction false} UpReaches(e: Editor, k: nat)
    requires EditorValid(e) && e.index.None? && e.history != [] && k > 0
    ensures var i := if k <= |e.history| then |e.history| - k else 0;
            Up(e, k) == Shown(e, e.history[i]).(index := Some(i), draft := e.Content())
  {
    if k > 1 {
      UpReaches(e, k - 1);
    }
  }

  lemma {:induction false} DownReaches(e: Editor, i: nat, k: nat)
    requires e.index == Some(i) && i < |e.history|
    ensures Down(e, k) == if k == 0 then e
                          else if i + k < |e.history| then Shown(e, e.history[i + k]).(index := Some(i + k))
                          else Shown(e, e.draft).(index := None, draft := "")
  {
    if k > 0 {
      DownReaches(e, i, k - 1);
    }
  }

  /** Any number of steps up the history followed by as many down shows the draft again, with the cursor
      at its end. */
  lemma UpThenDownRestores(e: Editor, k: nat)
    requires EditorValid(e) && e.index.None?
    ensures Down(Up(e, k), k).Content() == e.Content() && Down(Up(e, k), k).index.None?
    ensures k > 0 && e.history != [] ==> Down(Up(e, k), k).after == ""
    ensures Down(Up(e, k), k).history == e.history
  {
    if e.history == [] {
      StaysPut(e, k);
      StaysDown(e, k);
    } else if k > 0 {
      UpReaches(e, k);
      var i := if k <= |e.history| then |e.history| - k else 0;
      DownReaches(Up(e, k), i, k);
      assert e.Content() + "" == e.Content();
    }
  }

  lemma {:induction false} StaysPut(e: Editor, k: nat)
    requires e.history == []
    ensures Up(e, k) == e
  {
    if k > 0 {
      StaysPut(e, k - 1);
    }
  }

  lemma {:induction false} StaysDown(e: Editor, k: nat)
    requires e.index.None?
    ensures Down(e, k) == e
  {
    if k > 0 {
      StaysDown(e, k - 1);
    }
  }

  // ---------------------------------------------------------------- bytes and offsets

  /** `bytes` with the cursor at `at` show `before` and `after`. */
  ghost predicate Zip(bytes: seq<Byte>, at: nat, before: string, after: string) {
    bytes == Encode(before) + Encode(after) && at == |Encode(before)|
  }

  lemma ZipContent(bytes: seq<Byte>, at: nat, before: string, after: string)
    requires Zip(bytes, at, before, after)
    ensures bytes == Encode(before + after) && at <= |bytes| && IsBoundary(bytes, at)
  {
    EncodeAppend(before, after);
    assert (before + after)[..|before|] == before;
    PrefixIsBoundary(before + after, |before|);
  }

  lemma Middle(x: seq<Byte>, e: seq<Byte>, y: seq<Byte>)
    ensures (x + e) + y == x + (e + y)
    ensures ((x + e) + y)[|x|..|x| + |e|] == e
  {
  }

  lemma ZipLeft(bytes: seq<Byte>, at: nat, before: string, after: string)
    requires Zip(bytes, at, before, after) && before != []
    ensures var n := |before| - 1;
            var c, to := before[n], |Encode(before[..n])|;
            && to < at <= |bytes| && at == to + |EncodeChar(c)|
            && bytes[to..at] == EncodeChar(c) && DecodeAt(bytes, to) == c
            && Zip(bytes, to, before[..n], [c] + after)
  {
    hide Encode, EncodeChar, DecodeAt, LengthFrom;
    var n := |before| - 1;
    var c := before[n];
    assert before == before[..n] + [c];
    EncodeSplit(before[..n], c, after);
    EncodeAppend([c], after);
    EncodeOne(c);
    Middle(Encode(before[..n]), EncodeChar(c), Encode(after));
    DecodeEncoded(Encode(before[..n]), c, Encode(after));
  }

  lemma ZipRight(bytes: seq<Byte>, at: nat, before: string, after: string)
    requires Zip(bytes, at, before, after) && after != []
    ensures var c := after[0];
            && at < |bytes| && DecodeAt(bytes, at) == c && LengthFrom(bytes[at]) == |EncodeChar(c)|
            && at + |EncodeChar(c)| <= |bytes|
            && Zip(bytes, at + |EncodeChar(c)|, before + [c], after[1..])
  {
    hide Encode, EncodeChar, DecodeAt, LengthFrom;
    var c := after[0];
    assert after == [c] + after[1..];
    EncodeAppend([c], after[1..]);
    EncodeOne(c);
    EncodeSplit(before, c, after[1..]);
    Middle(Encode(before), EncodeChar(c), Encode(after[1..]));
    DecodeEncoded(Encode(before), c, Encode(after[1..]));
  }

  lemma ZipEnds(bytes: seq<Byte>, at: nat, before: string, after: string)
    requires Zip(bytes, at, before, after)
    ensures at == 0 <==> before == []
    ensures at == |bytes| <==> after == []
    ensures at <= |bytes|
  {
  }

  /** Where the character before the cursor starts: back over its continuation bytes. */
  method CharStart(bytes: seq<Byte>, at: nat, ghost before: string, ghost after: string) returns (previous: nat)
    requires Zip(bytes, at, before, after) && before != []
    ensures previous == |Encode(before[..|before| - 1])|
  {
    hide Encode, EncodeChar, DecodeAt;
    ZipLeft(bytes, at, before, after);
    ghost var start, c := |Encode(before[..|before| - 1])|, before[|before| - 1];
    assert forall i :: start <= i < at ==> bytes[i] == bytes[start..at][i - start];
    previous := at - 1;
    while Continuation(bytes[previous])
      decreases previous
      invariant start <= previous < at <= |bytes|
    {
      previous := previous - 1;
    }
  }

  /** `bounded_str` on bytes: back from the limit to a character boundary. */
  method BoundedBytes(text: seq<Byte>, limit: nat, ghost chars: string) returns (boundary: nat)
    requires text == Encode(chars)
    ensures boundary == |Encode(chars[..Bounded(chars, limit)])| <= |text|
  {
    boundary := if limit <= |text| then limit else |text|;
    ghost var k := Bounded(chars, limit);
    BoundedIsLongest(chars, limit);
    PrefixIsBoundary(chars, k);
    while !IsBoundary(text, boundary)
      decreases boundary
      invariant |Encode(chars[..k])| <= boundary <= |text| && boundary <= limit
    {
      boundary := boundary - 1;
    }
    BoundaryIsBounded(chars, limit, boundary);
  }

  lemma BoundaryIsBounded(chars: string, limit: nat, boundary: nat)
    requires IsBoundary(Encode(chars), boundary) && |Encode(chars[..Bounded(chars, limit)])| <= boundary <= limit
    ensures boundary == |Encode(chars[..Bounded(chars, limit)])|
  {
    BoundedIsLongest(chars, limit);
    var j := BoundaryIsPrefix(chars, boundary);
    if j < Bounded(chars, limit) {
      PrefixShorter(chars, j, Bounded(chars, limit));
    }
  }

  lemma ZipCut(bytes: seq<Byte>, from: nat, to: nat, a: string, b: string, c: string)
    requires Zip(bytes, from, a, b + c) && Zip(bytes, to, a + b, c)
    ensures from <= to <= |bytes| && Zip(bytes[..from] + bytes[to..], from, a, c)
  {
    hide Encode;
    EncodeAppend(a, b);
    EncodeAppend(b, c);
    Middle(Encode(a), Encode(b), Encode(c));
    assert bytes[..from] == Encode(a) && bytes[to..] == Encode(c);
  }

  lemma ZipInsert(bytes: seq<Byte>, at: nat, before: string, after: string, text: string)
    requires Zip(bytes, at, before, after)
    ensures at <= |bytes|
    ensures Zip(bytes[..at] + Encode(text) + bytes[at..], at + |Encode(text)|, before + text, after)
  {
    hide Encode;
    EncodeAppend(before, text);
    assert bytes[..at] == Encode(before) && bytes[at..] == Encode(after);
  }

  lemma ZipJoin(bytes: seq<Byte>, from: nat, to: nat, a: string, b: string, k: nat)
    requires Zip(bytes, to, a, b) && k <= |a| && from == |Encode(a[..k])|
    ensures Zip(bytes, from, a[..k], a[k..] + b)
  {
    hide Encode;
    assert a == a[..k] + a[k..];
    EncodeAppend(a[..k], a[k..]);
    EncodeAppend(a[k..], b);
    Middle(Encode(a[..k]), Encode(a[k..]), Encode(b));
  }

  lemma ZipAdvance(bytes: seq<Byte>, at: nat, before: string, after: string, i: nat)
    requires Zip(bytes, at, before, after) && i <= |after|
    ensures Zip(bytes, at + |Encode(after[..i])|, before + after[..i], after[i..])
  {
    hide Encode;
    assert after == after[..i] + after[i..];
    EncodeAppend(after[..i], after[i..]);
    EncodeAppend(before, after[..i]);
    Middle(Encode(before), Encode(after[..i]), Encode(after[i..]));
  }

  lemma StepLeft(bytes: seq<Byte>, at: nat, before: string, after: string, j: nat)
    requires Zip(bytes, at, before, after) && 0 < j <= |before|
    ensures var from, to := |Encode(before[..j])|, |Encode(before[..j - 1])|;
            && to < from <= |bytes| && DecodeAt(bytes, to) == before[j - 1]
            && Zip(bytes, from, before[..j], before[j..] + after) && before[..j][..j - 1] == before[..j - 1]
  {
    hide Encode, EncodeChar, DecodeAt;
    ZipJoin(bytes, |Encode(before[..j])|, at, before, after, j);
    ZipLeft(bytes, |Encode(before[..j])|, before[..j], before[j..] + after);
    assert before[..j][..j - 1] == before[..j - 1];
  }

  lemma StepRight(bytes: seq<Byte>, at: nat, before: string, after: string, i: nat)
    requires Zip(bytes, at, before, after) && i < |after|
    ensures var from, to := at + |Encode(after[..i])|, at + |Encode(after[..i + 1])|;
            && from < to <= |bytes| && DecodeAt(bytes, from) == after[i] && from + LengthFrom(bytes[from]) == to
  {
    hide Encode, EncodeChar, DecodeAt, LengthFrom;
    ZipAdvance(bytes, at, before, after, i);
    ZipRight(bytes, at + |Encode(after[..i])|, before + after[..i], after[i..]);
    ZipAdvance(bytes, at, before, after, i + 1);
    EncodeOneMore(after, i);
  }

  lemma EncodeOneMore(s: string, i: nat)
    requires i < |s|
    ensures |Encode(s[..i + 1])| == |Encode(s[..i])| + |EncodeChar(s[i])|
  {
    assert s[..i + 1][..i] == s[..i];
  }

  lemma TrimOne(s: string, j: nat)
    requires 0 < j <= |s|
    ensures Text.Whitespace(s[j - 1]) ==> TrimSpace(s[..j]) == TrimSpace(s[..j - 1]) && TrimInk(s[..j]) == j
    ensures !Text.Whitespace(s[j - 1]) ==> TrimSpace(s[..j]) == j && TrimInk(s[..j]) == TrimInk(s[..j - 1])
  {
    assert s[..j][..j - 1] == s[..j - 1];
  }

  lemma SkipOne(s: string, i: nat)
    requires i < |s|
    ensures Text.Whitespace(s[i]) ==> SkipSpace(s[i..]) == 1 + SkipSpace(s[i + 1..]) && SkipInk(s[i..]) == 0
    ensures !Text.Whitespace(s[i]) ==> SkipSpace(s[i..]) == 0 && SkipInk(s[i..]) == 1 + SkipInk(s[i + 1..])
  {
    assert s[i..][1..] == s[i + 1..];
  }

  /** Offset of the start of the word before the cursor: back over white space, then over ink. */
  method WordLeftOffset(bytes: seq<Byte>, at: nat, ghost before: string, ghost after: string) returns (p: nat)
    requires Zip(bytes, at, before, after)
    ensures p == |Encode(before[..WordStart(before)])| <= at
  {
    hide Encode, DecodeAt, TrimSpace, TrimInk, Text.Whitespace;
    p := at;
    ghost var j: nat := |before|;
    var found := false;
    assert before[..j] == before;
    NothingEncoded();
    while p > 0 && !found
      invariant j <= |before| && p == |Encode(before[..j])| && p <= at
      invariant if found then j < |before| && !Text.Whitespace(before[j]) && TrimSpace(before) == j + 1
                else TrimSpace(before[..j]) == TrimSpace(before)
      decreases j
    {
      ZeroOffset(before, j);
      StepLeft(bytes, at, before, after, j);
      var previous := CharStart(bytes, p, before[..j], before[j..] + after);
      var c := DecodeAt(bytes, previous);
      TrimOne(before, j);
      p, j := previous, j - 1;
      found := !Text.Whitespace(c);
    }
    ZeroOffset(before, j);
    if found { TrimOne(before, j + 1); }
    assert TrimInk(before[..j]) == WordStart(before);
    var done := false;
    while p > 0 && !done
      invariant j <= |before| && p == |Encode(before[..j])| && p <= at
      invariant if done then j == WordStart(before) else TrimInk(before[..j]) == WordStart(before)
      decreases j, !done
    {
      ZeroOffset(before, j);
      StepLeft(bytes, at, before, after, j);
      var previous := CharStart(bytes, p, before[..j], before[j..] + after);
      var c := DecodeAt(bytes, previous);
      TrimOne(before, j);
      if Text.Whitespace(c) {
        done := true;
      } else {
        p, j := previous, j - 1;
      }
    }
    ZeroOffset(before, j);
  }

  lemma ZeroOffset(s: string, j: nat)
    requires j <= |s|
    ensures |Encode(s[..j])| == 0 <==> j == 0
    ensures j == 0 ==> TrimSpace(s[..j]) == 0 && TrimInk(s[..j]) == 0
  {
    if j > 0 {
      PrefixShorter(s, 0, j);
    }
  }

  /** Offset of the end of the word after the cursor: on over white space, then over ink. */
  method WordRightOffset(bytes: seq<Byte>, at: nat, ghost before: string, ghost after: string) returns (p: nat)
    requires Zip(bytes, at, before, after)
    ensures p == at + |Encode(after[..WordEnd(after)])| <= |bytes|
  {
    hide Encode, DecodeAt, LengthFrom, Zip, SkipSpace, SkipInk, Text.Whitespace;
    p := at;
    ghost var i: nat := 0;
    var stop := false;
    NothingEncoded();
    assert after[0..] == after && after[..0] == "";
    ZipEnds(bytes, at, before, after);
    while p < |bytes| && !stop
      invariant i <= |after| && p == at + |Encode(after[..i])| && p <= |bytes|
      invariant SkipSpace(after) == i + SkipSpace(after[i..])
      invariant stop ==> SkipSpace(after[i..]) == 0
      decreases |after| - i, !stop
    {
      EndOffset(bytes, at, before, after, i);
      StepRight(bytes, at, before, after, i);
      SkipOne(after, i);
      var c := DecodeAt(bytes, p);
      if !Text.Whitespace(c) {
        stop := true;
      } else {
        p, i := p + LengthFrom(bytes[p]), i + 1;
      }
    }
    EndOffset(bytes, at, before, after, i);
    assert WordEnd(after) == i + SkipInk(after[i..]);
    stop := false;
    while p < |bytes| && !stop
      invariant i <= |after| && p == at + |Encode(after[..i])| && p <= |bytes|
      invariant WordEnd(after) == i + SkipInk(after[i..])
      invariant stop ==> SkipInk(after[i..]) == 0
      decreases |after| - i, !stop
    {
      EndOffset(bytes, at, before, after, i);
      StepRight(bytes, at, before, after, i);
      SkipOne(after, i);
      var c := DecodeAt(bytes, p);
      if Text.Whitespace(c) {
        stop := true;
      } else {
        p, i := p + LengthFrom(bytes[p]), i + 1;
      }
    }
    EndOffset(bytes, at, before, after, i);
  }

  lemma EndOffset(bytes: seq<Byte>, at: nat, before: string, after: string, i: nat)
    requires Zip(bytes, at, before, after) && i <= |after|
    ensures at + |Encode(after[..i])| == |bytes| <==> i == |after|
    ensures i == |after| ==> SkipSpace(after[i..]) == 0 && SkipInk(after[i..]) == 0
  {
    assert after[..|after|] == after;
    if i < |after| {
      PrefixShorter(after, i, |after|);
    }
  }

  ghost predicate Encodes(list: seq<seq<Byte>>, texts: seq<string>) {
    |list| == |texts| && forall i :: 0 <= i < |list| ==> list[i] == Encode(texts[i])
  }

  /** Entries are equal as bytes exactly when they are equal as text. */
  lemma EncodedMember(list: seq<seq<Byte>>, texts: seq<string>, text: string)
    requires Encodes(list, texts)
    ensures Encode(text) in list <==> text in texts
    ensures list != [] ==> (list[|list| - 1] == Encode(text) <==> texts[|texts| - 1] == text)
  {
    hide Encode;
    if Encode(text) in list {
      var i :| 0 <= i < |list| && list[i] == Encode(text);
      EncodeInjective(texts[i], text);
    }
    if list != [] && list[|list| - 1] == Encode(text) {
      EncodeInjective(texts[|texts| - 1], text);
    }
  }

  lemma RecordIs(e: Editor, text: string)
    ensures Step(e, RecordHistory(text)) == e.(history := Newest(Remember(e.history, text), MAX_INPUT_HISTORY), index := None, draft := "")
  {
    hide Remember, Newest;
  }

  class ComposerBuffer {
    var composer: seq<Byte>
    var cursor: nat
    var history: seq<seq<Byte>>
    var index: Option<nat>
    var draft: seq<Byte>
    ghost var shown: Editor

    /** The bytes encode the text shown and the cursor is on a character boundary of it; a history index
        names an entry. */
    ghost predicate Valid()
      reads this
    {
      && Zip(composer, cursor, shown.before, shown.after)
      && Encodes(history, shown.history)
      && index == shown.index && draft == Encode(shown.draft) && EditorValid(shown)
    }

    lemma CursorOnBoundary()
      requires Valid()
      ensures cursor <= |composer| && IsBoundary(composer, cursor) && (index.Some? ==> index.value < |history|)
    {
      ZipContent(composer, cursor, shown.before, shown.after);
    }

    constructor ()
      ensures Valid() && shown == BLANK
    {
      composer, cursor, history, index, draft := [], 0, [], None, [];
      shown := BLANK;
    }

    method ResetNavigation()
      modifies this`index, this`draft
      ensures index == None && draft == []
    {
      index, draft := None, [];
    }

    method InsertText(text: seq<Byte>, ghost chars: string)
      requires Valid() && text == Encode(chars)
      modifies this
      ensures Valid() && shown == Step(old(shown), Insert(chars))
    {
      hide Encode;
      ResetNavigation();
      ZipContent(composer, cursor, shown.before, shown.after);
      var available := if |composer| <= MAX_COMPOSER_BYTES then MAX_COMPOSER_BYTES - |composer| else 0;
      var boundary := BoundedBytes(text, available, chars);
      ghost var k := Bounded(chars, available);
      assert text[..boundary] == Encode(chars[..k]) by { PrefixBytes(chars, k); }
      ZipInsert(composer, cursor, shown.before, shown.after, chars[..k]);
      composer := composer[..cursor] + text[..boundary] + composer[cursor..];
      cursor := cursor + boundary;
      NothingEncoded();
      shown := Step(shown, Insert(chars));
    }

    method BackspaceKey()
      requires Valid()
      modifies this
      ensures Valid() && shown == Step(old(shown), Backspace)
    {
      hide Encode;
      ZipEnds(composer, cursor, shown.before, shown.after);
      if cursor == 0 { return; }
      var previous := CharStart(composer, cursor, shown.before, shown.after);
      ZipLeft(composer, cursor, shown.before, shown.after);
      ghost var n := |shown.before| - 1;
      assert shown.before == shown.before[..n] + [shown.before[n]];
      ZipCut(composer, previous, cursor, shown.before[..n], [shown.before[n]], shown.after);
      composer := composer[..previous] + composer[cursor..];
      cursor := previous;
      ResetNavigation();
      NothingEncoded();
      shown := Step(shown, Backspace);
    }

    method DeleteForwardKey()
      requires Valid()
      modifies this
      ensures Valid() && shown == Step(old(shown), DeleteForward)
    {
      hide Encode, EncodeChar, LengthFrom;
      ZipEnds(composer, cursor, shown.before, shown.after);
      if cursor == |composer| { return; }
      ZipRight(composer, cursor, shown.before, shown.after);
      var width := LengthFrom(composer[cursor]);
      assert shown.after == [shown.after[0]] + shown.after[1..];
      ZipCut(composer, cursor, cursor + width, shown.before, [shown.after[0]], shown.after[1..]);
      composer := composer[..cursor] + composer[cursor + width..];
      ResetNavigation();
      NothingEncoded();
      shown := Step(shown, DeleteForward);
    }

    method Left()
      requires Valid()
      modifies this`cursor, this`shown
      ensures Valid() && shown == Step(old(shown), MoveLeft)
    {
      hide Encode;
      ZipEnds(composer, cursor, shown.before, shown.after);
      if cursor > 0 {
        ZipLeft(composer, cursor, shown.before, shown.after);
        cursor := CharStart(composer, cursor, shown.before, shown.after);
        shown := Step(shown, MoveLeft);
      }
    }

    method Right()
      requires Valid()
      modifies this`cursor, this`shown
      ensures Valid() && shown == Step(old(shown), MoveRight)
    {
      hide Encode, EncodeChar, LengthFrom;
      ZipEnds(composer, cursor, shown.before, shown.after);
      if cursor < |composer| {
        ZipRight(composer, cursor, shown.before, shown.after);
        cursor := cursor + LengthFrom(composer[cursor]);
        shown := Step(shown, MoveRight);
      }
    }

    method WordLeft()
      requires Valid()
      modifies this`cursor, this`shown
      ensures Valid() && shown == Step(old(shown), MoveWordLeft)
    {
      hide Encode;
      var p := WordLeftOffset(composer, cursor, shown.before, shown.after);
      ZipJoin(composer, p, cursor, shown.before, shown.after, WordStart(shown.before));
      cursor := p;
      shown := Step(shown, MoveWordLeft);
    }

    method WordRight()
      requires Valid()
      modifies this`cursor, this`shown
      ensures Valid() && shown == Step(old(shown), MoveWordRight)
    {
      hide Encode;
      var p := WordRightOffset(composer, cursor, shown.before, shown.after);
      ZipAdvance(composer, cursor, shown.before, shown.after, WordEnd(shown.after));
      cursor := p;
      shown := Step(shown, MoveWordRight);
    }

    method DeleteWord()
      requires Valid()
      modifies this
      ensures Valid() && shown == Step(old(shown), DeleteWordLeft)
    {
      hide Encode;
      var original := cursor;
      var p := WordLeftOffset(composer, cursor, shown.before, shown.after);
      ghost var k := WordStart(shown.before);
      ZipJoin(composer, p, cursor, shown.before, shown.after, k);
      assert shown.before == shown.before[..k] + shown.before[k..];
      ZipCut(composer, p, original, shown.before[..k], shown.before[k..], shown.after);
      composer := composer[..p] + composer[original..];
      cursor := p;
      ResetNavigation();
      NothingEncoded();
      shown := Step(shown, DeleteWordLeft);
    }

    method ToStart()
      requires Valid()
      modifies this`cursor, this`shown
      ensures Valid() && shown == Step(old(shown), Home)
    {
      hide Encode;
      ZipContent(composer, cursor, shown.before, shown.after);
      cursor := 0;
      shown := Step(shown, Home);
      NothingEncoded();
      assert [] + Encode(shown.after) == Encode(shown.after);
    }

    method ToEnd()
      requires Valid()
      modifies this`cursor, this`shown
      ensures Valid() && shown == Step(old(shown), End)
    {
      hide Encode;
      ZipContent(composer, cursor, shown.before, shown.after);
      cursor := |composer|;
      shown := Step(shown, End);
      AtEnd(shown.before);
    }

    method ClearComposer()
      requires Valid()
      modifies this
      ensures Valid() && shown == Step(old(shown), Clear)
    {
      hide Encode;
      composer, cursor := [], 0;
      ResetNavigation();
      shown := Step(shown, Clear);
      NothingEncoded();
      AtEnd("");
    }

    method ReplaceComposer(text: seq<Byte>, ghost chars: string)
      requires Valid() && text == Encode(chars)
      modifies this
      ensures Valid() && shown == Step(old(shown), Replace(chars))
    {
      hide Encode;
      var boundary := BoundedBytes(text, MAX_COMPOSER_BYTES, chars);
      PrefixBytes(chars, Bounded(chars, MAX_COMPOSER_BYTES));
      composer := text[..boundary];
      cursor := |composer|;
      ResetNavigation();
      shown := Step(shown, Replace(chars));
      NothingEncoded();
      AtEnd(shown.before);
    }

    method RecallPrompt(text: seq<Byte>, ghost chars: string)
      requires Valid() && text == Encode(chars)
      modifies this`composer, this`cursor, this`shown
      ensures Valid() && shown == Step(old(shown), Recall(chars))
    {
      hide Encode;
      composer := text;
      cursor := |composer|;
      shown := Step(shown, Recall(chars));
      AtEnd(shown.before);
    }

    /** Drops the oldest entries past the bound. */
    method TrimHistory(ghost texts: seq<string>)
      requires Encodes(history, texts)
      modifies this`history
      ensures Encodes(history, Newest(texts, MAX_INPUT_HISTORY))
    {
      hide Encode;
      ghost var dropped := 0;
      assert texts[0..] == texts;
      while |history| > MAX_INPUT_HISTORY
        invariant 0 <= dropped <= |texts| && Encodes(history, texts[dropped..])
        invariant dropped > 0 ==> |texts| - dropped >= MAX_INPUT_HISTORY
      {
        history := history[1..];
        dropped := dropped + 1;
      }
    }

    method RecordPrompt(text: seq<Byte>, ghost chars: string)
      requires Valid() && text == Encode(chars)
      modifies this
      ensures Valid() && shown == Step(old(shown), RecordHistory(chars))
    {
      hide Encode, Zip, Step, Newest;
      RecordIs(shown, chars);
      EncodedMember(history, shown.history, chars);
      if history == [] || history[|history| - 1] != text {
        history := history + [text];
      }
      TrimHistory(Remember(shown.history, chars));
      ResetNavigation();
      NothingEncoded();
      StepKeepsIndex(shown, RecordHistory(chars));
      shown := Step(shown, RecordHistory(chars));
    }

    method IngestPrompts(prompts: seq<seq<Byte>>, ghost texts: seq<string>)
      requires Valid() && Encodes(prompts, texts)
      modifies this
      ensures Valid() && shown == Step(old(shown), IngestHistory(texts))
    {
      hide Encode, Zip;
      NothingEncoded();
      for i := 0 to |prompts|
        invariant Encodes(history, Ingest(shown.history, texts[..i]))
        invariant shown == old(shown) && composer == old(composer) && cursor == old(cursor) && index == old(index) && draft == old(draft)
      {
        assert texts[..i + 1][..i] == texts[..i];
        EncodedMember(history, Ingest(shown.history, texts[..i]), texts[i]);
        EncodedMember([[]], [""], texts[i]);
        if prompts[i] == [] || prompts[i] in history { continue; }
        history := history + [prompts[i]];
      }
      assert texts[..|prompts|] == texts;
      TrimHistory(Ingest(shown.history, texts));
      StepKeepsIndex(shown, IngestHistory(texts));
      shown := Step(shown, IngestHistory(texts));
    }

    method HistoryUp()
      requires Valid()
      modifies this
      ensures Valid() && shown == Step(old(shown), HistoryPrevious)
    {
      hide Encode;
      if history == [] { return; }
      ZipContent(composer, cursor, shown.before, shown.after);
      var i: nat;
      if index.Some? {
        i := if index.value > 0 then index.value - 1 else 0;
      } else {
        draft := composer;
        i := |history| - 1;
      }
      index := Some(i);
      composer := history[i];
      cursor := |composer|;
      shown := Step(shown, HistoryPrevious);
      AtEnd(shown.before);
    }

    method HistoryDown()
      requires Valid()
      modifies this
      ensures Valid() && shown == Step(old(shown), HistoryNext)
    {
      hide Encode;
      if index.None? { return; }
      if index.value + 1 < |history| {
        index := Some(index.value + 1);
        composer := history[index.value];
      } else {
        index := None;
        composer, draft := draft, [];
      }
      cursor := |composer|;
      shown := Step(shown, HistoryNext);
      NothingEncoded();
      AtEnd(shown.before);
    }

    method Perform(op: Op)
      requires Valid()
      modifies this
      ensures Valid() && shown == Step(old(shown), op)
    {
      hide Encode, Step, Valid;
      match op
      case Insert(text) => InsertText(Encode(text), text);
      case Backspace => BackspaceKey();
      case DeleteForward => DeleteForwardKey();
      case MoveLeft => Left();
      case MoveRight => Right();
      case MoveWordLeft => WordLeft();
      case MoveWordRight => WordRight();
      case DeleteWordLeft => DeleteWord();
      case Home => ToStart();
      case End => ToEnd();
      case Clear => ClearComposer();
      case Replace(text) => ReplaceComposer(Encode(text), text);
      case Recall(text) => RecallPrompt(Encode(text), text);
      case HistoryPrevious => HistoryUp();
      case HistoryNext => HistoryDown();
      case RecordHistory(text) => RecordPrompt(Encode(text), text);
      case IngestHistory(texts) =>
        var prompts := seq(|texts|, i requires 0 <= i < |texts| => Encode(texts[i]));
        IngestPrompts(prompts, texts);
    }
  }

  /** Over every sequence of operations on bytes: the composer is the encoding of the text shown, the cursor is on the
      character boundary where the user sees it, and a history index names an entry. */
  method EditBytes(ops: seq<Op>) returns (composer: seq<Byte>, cursor: nat, history: seq<seq<Byte>>, index: Option<nat>)
    ensures var e := Run(BLANK, ops);
            && composer == Encode(e.Content()) && cursor == |Encode(e.before)| <= |composer|
            && Encodes(history, e.history) && index == e.index
    ensures IsBoundary(composer, cursor)
    ensures |history| <= MAX_INPUT_HISTORY && (index.Some? ==> index.value < |history|)
  {
    hide Encode, Step, Zip;
    var buffer := new ComposerBuffer();
    for i := 0 to |ops|
      invariant buffer.Valid() && fresh(buffer) && buffer.shown == Run(BLANK, ops[..i])
    {
      assert ops[..i + 1][..i] == ops[..i];
      buffer.Perform(ops[i]);
    }
    assert ops[..|ops|] == ops;
    ZipContent(buffer.composer, buffer.cursor, buffer.shown.before, buffer.shown.after);
    ZipAt(buffer.composer, buffer.cursor, buffer.shown.before, buffer.shown.after);
    composer, cursor, history, index := buffer.composer, buffer.cursor, buffer.history, buffer.index;
  }

  lemma ZipAt(bytes: seq<Byte>, at: nat, before: string, after: string)
    requires Zip(bytes, at, before, after)
    ensures at == |Encode(before)|
  {
  }

  lemma AtEnd(text: string)
    ensures Zip(Encode(text), |Encode(text)|, text, "")
  {
    assert Encode(text) + [] == Encode(text);
  }

  lemma PrefixBytes(chars: string, k: nat)
    requires k <= |chars|
    ensures |Encode(chars[..k])| <= |Encode(chars)|
    ensures Encode(chars)[..|Encode(chars[..k])|] == Encode(chars[..k])
  {
    assert chars == chars[..k] + chars[k..];
    EncodeAppend(chars[..k], chars[k..]);
  }
}
