/** Word wrapping that keeps a line's indentation on every row. */
module WordWrap {
  import opened EditorLayout
  import Text

  // ---------------------------------------------------------------- strings

  function Concat(parts: seq<string>): string {
    if parts == [] then "" else Concat(parts[..|parts| - 1]) + parts[|parts| - 1]
  }

  /** The characters that are not white space, in order. */
  function Ink(s: string): string {
    if s == [] then ""
    else Ink(s[..|s| - 1]) + if Text.Whitespace(s[|s| - 1]) then "" else [s[|s| - 1]]
  }

  /** `split('\n')`. */
  function SplitLines(s: string): (lines: seq<string>)
    ensures lines != []
  {
    if s == [] then [""]
    else
      var lines, c := SplitLines(s[..|s| - 1]), s[|s| - 1];
      if c == '\n' then lines + [""] else lines[|lines| - 1 := lines[|lines| - 1] + [c]]
  }

  /** `split_whitespace`. */
  function Words(s: string): seq<string> {
    if s == [] then []
    else
      var n := |s| - 1;
      var words := Words(s[..n]);
      if Text.Whitespace(s[n]) then words
      else if words == [] || n == 0 || Text.Whitespace(s[n - 1]) then words + [[s[n]]]
      else words[|words| - 1 := words[|words| - 1] + [s[n]]]
  }

  /** Length of the leading run of blanks and tabs. */
  function IndentLength(line: string): (n: nat)
    ensures n <= |line| && forall i :: 0 <= i < n ==> line[i] == ' ' || line[i] == '\t'
    ensures n < |line| ==> line[n] != ' ' && line[n] != '\t'
  {
    if line == [] || (line[0] != ' ' && line[0] != '\t') then 0 else 1 + IndentLength(line[1..])
  }

  lemma {:induction false} InkAppend(a: string, b: string)
    ensures Ink(a + b) == Ink(a) + Ink(b)
  {
    if b == [] {
      assert a + b == a;
    } else {
      var n := |b| - 1;
      assert (a + b)[..|a + b| - 1] == a + b[..n];
      InkAppend(a, b[..n]);
    }
  }

  lemma {:induction false} ConcatAppend(a: seq<string>, b: seq<string>)
    ensures Concat(a + b) == Concat(a) + Concat(b)
  {
    if b == [] {
      assert a + b == a;
    } else {
      var n := |b| - 1;
      assert (a + b)[..|a + b| - 1] == a + b[..n];
      ConcatAppend(a, b[..n]);
      Assoc(Concat(a), Concat(b[..n]), b[n]);
    }
  }

  lemma Assoc(a: string, b: string, c: string)
    ensures (a + b) + c == a + (b + c)
  {
  }

  lemma ConcatExtend(parts: seq<string>, c: char)
    requires parts != []
    ensures var m := |parts| - 1; Concat(parts[m := parts[m] + [c]]) == Concat(parts) + [c]
  {
    hide Concat;
    var m := |parts| - 1;
    assert parts == parts[..m] + [parts[m]] && parts[m := parts[m] + [c]] == parts[..m] + [parts[m] + [c]];
    ConcatSnoc(parts[..m], parts[m]);
    ConcatSnoc(parts[..m], parts[m] + [c]);
    Assoc(Concat(parts[..m]), parts[m], [c]);
  }

  lemma ConcatSnoc(a: seq<string>, s: string)
    ensures Concat(a + [s]) == Concat(a) + s
  {
    ConcatAppend(a, [s]);
  }

  lemma {:induction false} BlankInk(s: string)
    ensures Ink(s) == "" <==> Text.Blank(s)
  {
    if s != [] {
      BlankInk(s[..|s| - 1]);
    }
  }

  ghost predicate Solid(s: string) {
    s != [] && forall i :: 0 <= i < |s| ==> !Text.Whitespace(s[i])
  }

  lemma {:induction false} SolidInk(s: string)
    requires forall i :: 0 <= i < |s| ==> !Text.Whitespace(s[i])
    ensures Ink(s) == s
  {
    if s != [] {
      SolidInk(s[..|s| - 1]);
    }
  }

  lemma {:induction false} WordsAreSolid(s: string)
    ensures forall i :: 0 <= i < |Words(s)| ==> Solid(Words(s)[i])
  {
    hide Text.Whitespace;
    if s != [] {
      WordsAreSolid(s[..|s| - 1]);
    }
  }

  /** Words are runs of ink: none is empty, and together they are all of it. */
  lemma {:induction false} WordsAreInk(s: string)
    ensures Concat(Words(s)) == Ink(s)
    ensures forall i :: 0 <= i < |Words(s)| ==> Solid(Words(s)[i])
  {
    WordsAreSolid(s);
    if s != [] {
      hide Concat, Text.Whitespace, Solid;
      var n := |s| - 1;
      var words, c := Words(s[..n]), s[n];
      WordsAreInk(s[..n]);
      if !Text.Whitespace(c) {
        ConcatSnoc(words, [c]);
        if words != [] {
          ConcatExtend(words, c);
        }
      } else {
        assert Ink(s[..n]) + "" == Ink(s[..n]);
      }
    }
  }

  /** The words with the gaps before, between and after them. */
  function Spaced(gaps: seq<string>, words: seq<string>): string
    requires |gaps| == |words| + 1
  {
    if words == [] then gaps[0]
    else
      var n := |words| - 1;
      Spaced(gaps[..n + 1], words[..n]) + words[n] + gaps[n + 1]
  }

  ghost predicate Gaps(gaps: seq<string>) {
    (forall i :: 0 <= i < |gaps| ==> Text.Blank(gaps[i])) && (forall i :: 0 < i < |gaps| - 1 ==> gaps[i] != "")
  }

  lemma SpacedGap(gaps: seq<string>, words: seq<string>, c: char)
    requires |gaps| == |words| + 1
    ensures Spaced(gaps[|words| := gaps[|words|] + [c]], words) == Spaced(gaps, words) + [c]
  {
    var n, more := |words|, gaps[|words| := gaps[|words|] + [c]];
    if n > 0 {
      assert more[..n] == gaps[..n];
      assert Spaced(gaps[..n], words[..n - 1]) + words[n - 1] + (gaps[n] + [c])
          == (Spaced(gaps[..n], words[..n - 1]) + words[n - 1] + gaps[n]) + [c];
    }
  }

  lemma SpacedNew(gaps: seq<string>, words: seq<string>, c: char)
    requires |gaps| == |words| + 1
    ensures Spaced(gaps + [""], words + [[c]]) == Spaced(gaps, words) + [c]
  {
    var n := |words|;
    assert (gaps + [""])[..n + 1] == gaps && (words + [[c]])[..n] == words;
    assert Spaced(gaps, words) + [c] + "" == Spaced(gaps, words) + [c];
  }

  lemma SpacedLonger(gaps: seq<string>, words: seq<string>, c: char)
    requires |gaps| == |words| + 1 && words != [] && gaps[|words|] == ""
    ensures var m := |words| - 1; Spaced(gaps, words[m := words[m] + [c]]) == Spaced(gaps, words) + [c]
  {
    var m := |words| - 1;
    var more := words[m := words[m] + [c]];
    assert more[..m] == words[..m];
    assert Spaced(gaps[..m + 1], words[..m]) + (words[m] + [c]) + "" == (Spaced(gaps[..m + 1], words[..m]) + words[m] + "") + [c];
  }

  /** They are the maximal runs: only white space lies between them, and some of it between any two. */
  lemma {:induction false} WordsAreMaximal(s: string) returns (gaps: seq<string>)
    ensures |gaps| == |Words(s)| + 1 && Gaps(gaps) && Spaced(gaps, Words(s)) == s
    ensures s != [] && Words(s) != [] ==> (gaps[|Words(s)|] == "" <==> !Text.Whitespace(s[|s| - 1]))
  {
    hide Text.Whitespace, Spaced;
    if s == [] {
      gaps := [""];
      NoWords();
    } else {
      var n := |s| - 1;
      var front, c, words := s[..n], s[n], Words(s[..n]);
      gaps := WordsAreMaximal(front);
      assert s == front + [c];
      if Text.Whitespace(c) {
        SpacedGap(gaps, words, c);
        gaps := gaps[|words| := gaps[|words|] + [c]];
      } else if words == [] || n == 0 || Text.Whitespace(s[n - 1]) {
        SpacedNew(gaps, words, c);
        gaps := gaps + [""];
      } else {
        SpacedLonger(gaps, words, c);
      }
    }
  }

  lemma NoWords()
    ensures Spaced([""], []) == ""
  {
  }

  // ---------------------------------------------------------------- wrapping

  /** Finished rows and the row being filled. */
  datatype Wrap = Wrap(out: seq<string>, current: string)

  function AppendChar(w: Widths, width: nat, continuation: string, at: Wrap, c: char): Wrap {
    if at.current != [] && RowWidth(w, at.current) + w(c) > width then
      Wrap(at.out + [at.current], continuation + [c])
    else at.(current := at.current + [c])
  }

  function AppendWord(w: Widths, width: nat, continuation: string, at: Wrap, word: string): Wrap {
    if word == [] then at
    else AppendChar(w, width, continuation, AppendWord(w, width, continuation, at, word[..|word| - 1]), word[|word| - 1])
  }

  function Flush(continuation: string, at: Wrap): Wrap {
    if Text.Blank(at.current) then at else Wrap(at.out + [at.current], continuation)
  }

  function Separator(current: string): string {
    if Text.Blank(current) then "" else " "
  }

  function AddWord(w: Widths, width: nat, continuation: string, at: Wrap, word: string): Wrap {
    if RowWidth(w, at.current) + |Separator(at.current)| + RowWidth(w, word) <= width then
      at.(current := at.current + Separator(at.current) + word)
    else AppendWord(w, width, continuation, Flush(continuation, at), word)
  }

  function AddWords(w: Widths, width: nat, continuation: string, at: Wrap, words: seq<string>): Wrap {
    if words == [] then at
    else AddWord(w, width, continuation, AddWords(w, width, continuation, at, words[..|words| - 1]), words[|words| - 1])
  }

  function Indentation(line: string): string {
    line[..IndentLength(line)]
  }

  function Continuation(w: Widths, width: nat, indentation: string): string {
    if RowWidth(w, indentation) < width then indentation else ""
  }

  function Finished(at: Wrap): seq<string> {
    if at.current == [] then at.out else at.out + [at.current]
  }

  function WrapLine(w: Widths, width: nat, line: string): seq<string> {
    if line == [] then [""]
    else
      var indentation := Indentation(line);
      Finished(AddWords(w, width, Continuation(w, width, indentation), Wrap([], indentation),
                        Words(line[|indentation|..])))
  }

  function WrapLines(w: Widths, width: nat, lines: seq<string>): seq<string> {
    if lines == [] then [] else WrapLines(w, width, lines[..|lines| - 1]) + WrapLine(w, width, lines[|lines| - 1])
  }

  /** `append_wrapped_word`. */
  method AppendWrappedWord(w: Widths, width: nat, continuation: string, at: Wrap, word: string) returns (next: Wrap)
    ensures next == AppendWord(w, width, continuation, at, word)
  {
    var out, current := at.out, at.current;
    for i := 0 to |word|
      invariant Wrap(out, current) == AppendWord(w, width, continuation, at, word[..i])
    {
      assert word[..i + 1][..i] == word[..i];
      if current != [] && RowWidth(w, current) + w(word[i]) > width {
        out, current := out + [current], continuation;
      }
      current := current + [word[i]];
    }
    assert word[..|word|] == word;
    next := Wrap(out, current);
  }

  /** The rows of one logical line. */
  method WrapLogical(w: Widths, width: nat, line: string) returns (rows: seq<string>)
    ensures rows == WrapLine(w, width, line)
  {
    hide RowWidth, AppendWord, Text.Blank;
    if line == [] { return [""]; }
    var indentation := Indentation(line);
    var continuation := if RowWidth(w, indentation) < width then indentation else "";
    var words := Words(line[|indentation|..]);
    var at := Wrap([], indentation);
    for i := 0 to |words|
      invariant at == AddWords(w, width, continuation, Wrap([], indentation), words[..i])
    {
      assert words[..i + 1][..i] == words[..i];
      var word := words[i];
      var separator := Separator(at.current);
      if RowWidth(w, at.current) + |separator| + RowWidth(w, word) <= width {
        at := at.(current := at.current + separator + word);
        continue;
      }
      if !Text.Blank(at.current) {
        at := Wrap(at.out + [at.current], continuation);
      }
      at := AppendWrappedWord(w, width, continuation, at, word);
    }
    assert words[..|words|] == words;
    rows := if at.current == [] then at.out else at.out + [at.current];
  }

  /** `wrap_preserving_indentation`. */
  method WrapPreservingIndentation(w: Widths, value: string, width: nat) returns (output: seq<string>)
    ensures output == WrapLines(w, width, SplitLines(TerminalSafe(value)))
  {
    var lines := SplitLines(TerminalSafe(value));
    output := [];
    for i := 0 to |lines|
      invariant output == WrapLines(w, width, lines[..i])
    {
      assert lines[..i + 1][..i] == lines[..i];
      var rows := WrapLogical(w, width, lines[i]);
      output := output + rows;
    }
    assert lines[..|lines|] == lines;
  }

  // ---------------------------------------------------------------- nothing is lost

  function Written(at: Wrap): string {
    Ink(Concat(at.out) + at.current)
  }

  lemma {:induction false} AppendKeepsInk(w: Widths, width: nat, continuation: string, at: Wrap, word: string)
    requires Text.Blank(continuation)
    ensures Written(AppendWord(w, width, continuation, at, word)) == Written(at) + Ink(word)
  {
    hide Concat, Written, AppendChar, Text.Blank;
    if word != [] {
      hide Ink;
      var n := |word| - 1;
      var before := AppendWord(w, width, continuation, at, word[..n]);
      AppendKeepsInk(w, width, continuation, at, word[..n]);
      CharKeepsInk(w, width, continuation, before, word[n]);
      assert word == word[..n] + [word[n]];
      InkAppend(word[..n], [word[n]]);
      Assoc(Written(at), Ink(word[..n]), Ink([word[n]]));
    }
  }

  lemma PushKeepsInk(out: seq<string>, current: string, continuation: string)
    requires Text.Blank(continuation)
    ensures Written(Wrap(out + [current], continuation)) == Written(Wrap(out, current))
  {
    ConcatSnoc(out, current);
    InkAppend(Concat(out) + current, continuation);
    BlankInk(continuation);
  }

  lemma CharKeepsInk(w: Widths, width: nat, continuation: string, at: Wrap, c: char)
    requires Text.Blank(continuation)
    ensures Written(AppendChar(w, width, continuation, at, c)) == Written(at) + Ink([c])
  {
    hide Ink, Concat, Text.Blank, RowWidth;
    InkAppend(Concat(at.out) + at.current, [c]);
    Assoc(Concat(at.out), at.current, [c]);
    PushKeepsInk(at.out, at.current, continuation);
    var pushed := Concat(at.out + [at.current]);
    InkAppend(pushed + continuation, [c]);
    Assoc(pushed, continuation, [c]);
  }

  lemma JoinKeepsInk(out: seq<string>, current: string, separator: string, word: string)
    requires Text.Blank(separator)
    ensures Written(Wrap(out, current + separator + word)) == Written(Wrap(out, current)) + Ink(word)
  {
    hide Ink, Concat, Text.Blank;
    BlankInk(separator);
    var base := Concat(out) + current;
    InkAppend(base, separator);
    InkAppend(base + separator, word);
    assert Ink(base) + "" == Ink(base);
    assert (base + separator) + word == Concat(out) + (current + separator + word);
  }

  lemma AddKeepsInk(w: Widths, width: nat, continuation: string, at: Wrap, word: string)
    requires Text.Blank(continuation)
    ensures Written(AddWord(w, width, continuation, at, word)) == Written(at) + Ink(word)
  {
    hide Written, AppendWord, RowWidth;
    JoinKeepsInk(at.out, at.current, Separator(at.current), word);
    PushKeepsInk(at.out, at.current, continuation);
    AppendKeepsInk(w, width, continuation, Flush(continuation, at), word);
  }

  lemma {:induction false} AddAllKeepInk(w: Widths, width: nat, continuation: string, at: Wrap, words: seq<string>)
    requires Text.Blank(continuation)
    ensures Written(AddWords(w, width, continuation, at, words)) == Written(at) + Ink(Concat(words))
  {
    hide Written, AddWord, Text.Blank;
    if words != [] {
      hide Ink, Concat;
      var n := |words| - 1;
      AddAllKeepInk(w, width, continuation, at, words[..n]);
      AddKeepsInk(w, width, continuation, AddWords(w, width, continuation, at, words[..n]), words[n]);
      assert words == words[..n] + [words[n]];
      ConcatSnoc(words[..n], words[n]);
      InkAppend(Concat(words[..n]), words[n]);
      Assoc(Written(at), Ink(Concat(words[..n])), Ink(words[n]));
    }
  }

  lemma InkOfInk(s: string)
    ensures Ink(Ink(s)) == Ink(s)
  {
    InkIsSolid(s);
    SolidInk(Ink(s));
  }

  lemma {:induction false} InkIsSolid(s: string)
    ensures forall i :: 0 <= i < |Ink(s)| ==> !Text.Whitespace(Ink(s)[i])
  {
    if s != [] {
      InkIsSolid(s[..|s| - 1]);
    }
  }

  lemma LineKeepsInk(w: Widths, width: nat, line: string)
    ensures Ink(Concat(WrapLine(w, width, line))) == Ink(line)
  {
    if line == [] {
    } else {
      var indentation := Indentation(line);
      var content := line[|indentation|..];
      assert line == indentation + content;
      InkAppend(indentation, content);
      assert Text.Blank(indentation);
      BlankInk(indentation);
      var continuation := Continuation(w, width, indentation);
      var start := Wrap([], indentation);
      assert "" + indentation == indentation;
      AddAllKeepInk(w, width, continuation, start, Words(content));
      WordsAreInk(content);
      InkOfInk(content);
      var at := AddWords(w, width, continuation, start, Words(content));
      ConcatSnoc(at.out, at.current);
      assert at.current == [] ==> Concat(at.out) + at.current == Concat(at.out);
    }
  }

  lemma {:induction false} LinesKeepInk(w: Widths, width: nat, lines: seq<string>)
    ensures Ink(Concat(WrapLines(w, width, lines))) == Ink(Concat(lines))
  {
    if lines != [] {
      var n := |lines| - 1;
      LinesKeepInk(w, width, lines[..n]);
      LineKeepsInk(w, width, lines[n]);
      ConcatAppend(WrapLines(w, width, lines[..n]), WrapLine(w, width, lines[n]));
      InkAppend(Concat(WrapLines(w, width, lines[..n])), Concat(WrapLine(w, width, lines[n])));
      InkAppend(Concat(lines[..n]), lines[n]);
    }
  }

  /** The lines with a newline between any two. */
  function Unsplit(lines: seq<string>): string
    requires lines != []
  {
    if |lines| == 1 then lines[0] else Unsplit(lines[..|lines| - 1]) + "\n" + lines[|lines| - 1]
  }

  /** Splitting is exact: no line has a newline, and joined by newlines the lines are the text. */
  lemma {:induction false} SplitIsExact(s: string)
    ensures Unsplit(SplitLines(s)) == s
    ensures forall i :: 0 <= i < |SplitLines(s)| ==> '\n' !in SplitLines(s)[i]
  {
    if s != [] {
      var n := |s| - 1;
      var lines, c := SplitLines(s[..n]), s[n];
      SplitIsExact(s[..n]);
      var m := |lines| - 1;
      assert s == s[..n] + [c];
      if c == '\n' {
        assert (lines + [""])[..|lines|] == lines;
        assert s[..n] + "\n" + "" == s;
      } else {
        assert lines[m := lines[m] + [c]][..m] == lines[..m];
        if m > 0 {
          assert Unsplit(lines[..m]) + "\n" + (lines[m] + [c]) == (Unsplit(lines[..m]) + "\n" + lines[m]) + [c];
        }
      }
    }
  }

  /** The rows of the text are the rows of its lines, in order. */
  lemma {:induction false} RowsByLine(w: Widths, width: nat, lines: seq<string>, k: nat)
    requires k <= |lines|
    ensures WrapLines(w, width, lines) == WrapLines(w, width, lines[..k]) + WrapLines(w, width, lines[k..])
    decreases |lines|
  {
    hide WrapLine;
    if k == |lines| {
      assert lines[..k] == lines && lines[k..] == [];
    } else {
      var n := |lines| - 1;
      var front, last := lines[..n], lines[n];
      RowsByLine(w, width, front, k);
      assert front[..k] == lines[..k] && lines[k..][..n - k] == front[k..] && lines[k..][n - k] == last;
      Reassociated(WrapLines(w, width, lines[..k]), WrapLines(w, width, front[k..]), WrapLine(w, width, last));
    }
  }

  /** So each line is shown where it stands. */
  lemma LineInPlace(w: Widths, width: nat, lines: seq<string>, k: nat)
    requires k < |lines|
    ensures WrapLines(w, width, lines) == WrapLines(w, width, lines[..k]) + WrapLine(w, width, lines[k]) + WrapLines(w, width, lines[k + 1..])
  {
    RowsByLine(w, width, lines, k + 1);
    assert lines[..k + 1][..k] == lines[..k];
    hide WrapLine;
  }

  lemma Reassociated(a: seq<string>, b: seq<string>, c: seq<string>)
    ensures (a + b) + c == a + (b + c)
  {
  }

  lemma {:induction false} SplitKeepsInk(s: string)
    ensures Ink(Concat(SplitLines(s))) == Ink(s)
  {
    if s != [] {
      hide Concat, Ink;
      var n := |s| - 1;
      var lines, c := SplitLines(s[..n]), s[n];
      SplitKeepsInk(s[..n]);
      assert s == s[..n] + [c];
      InkAppend(s[..n], [c]);
      if c == '\n' {
        ConcatSnoc(lines, "");
        assert Concat(lines) + "" == Concat(lines) && Ink(s[..n]) + "" == Ink(s[..n]);
      } else {
        ConcatExtend(lines, c);
        InkAppend(Concat(lines), [c]);
      }
    }
  }

  /** Wrapping keeps exactly the non-white-space characters of the sanitized text, in order. */
  lemma WrappingKeepsInk(w: Widths, width: nat, value: string)
    ensures Ink(Concat(WrapLines(w, width, SplitLines(TerminalSafe(value))))) == Ink(TerminalSafe(value))
  {
    LinesKeepInk(w, width, SplitLines(TerminalSafe(value)));
    SplitKeepsInk(TerminalSafe(value));
  }

  // ---------------------------------------------------------------- what the rows are

  /** `text` stands in word number `word` from position `from` on. */
  datatype Piece = Piece(word: nat, from: nat, text: string)

  /** Texts on one row, separated by single blanks. */
  function Join(texts: seq<string>): string {
    if texts == [] then ""
    else if |texts| == 1 then texts[0]
    else Join(texts[..|texts| - 1]) + " " + texts[|texts| - 1]
  }

  function Texts(group: seq<Piece>): seq<string> {
    seq(|group|, i requires 0 <= i < |group| => group[i].text)
  }

  /** What a row starts with: the first with the indentation, the others with what continues it. */
  function Lead(first: string, rest: string, row: nat): string {
    if row == 0 then first else rest
  }

  function RowOf(first: string, rest: string, row: nat, group: seq<Piece>): string {
    Lead(first, rest, row) + Join(Texts(group))
  }

  function AllRows(first: string, rest: string, groups: seq<seq<Piece>>): seq<string> {
    seq(|groups|, i requires 0 <= i < |groups| => RowOf(first, rest, i, groups[i]))
  }

  function Flatten<T>(groups: seq<seq<T>>): seq<T> {
    if groups == [] then [] else Flatten(groups[..|groups| - 1]) + groups[|groups| - 1]
  }

  predicate IsPiece(words: seq<string>, p: Piece) {
    p.word < |words| && p.from + |p.text| <= |words[p.word]| && p.text == words[p.word][p.from..p.from + |p.text|]
  }

  predicate Whole(words: seq<string>, p: Piece) {
    p.word < |words| && p.from == 0 && p.text == words[p.word]
  }

  /** The next piece goes on in the word, or starts the next word after this one's end. */
  predicate Next(words: seq<string>, p: Piece, q: Piece) {
    || (q.word == p.word && q.from == p.from + |p.text| && q.text != "")
    || (q.word == p.word + 1 && q.from == 0 && p.word < |words| && p.from + |p.text| == |words[p.word]|)
  }

  /** The pieces are the words cut up in order. */
  ghost predicate Cut(words: seq<string>, pieces: seq<Piece>) {
    && (pieces == [] <==> words == [])
    && (forall i :: 0 <= i < |pieces| ==> IsPiece(words, pieces[i]))
    && (forall i :: 0 < i < |pieces| ==> Next(words, pieces[i - 1], pieces[i]))
    && (pieces != [] ==>
          var last := pieces[|pieces| - 1];
          && pieces[0].word == pieces[0].from == 0
          && last.word == |words| - 1 && last.from + |last.text| == |words[last.word]|)
  }

  /** Why a row ends before piece `q`: inside a word the next character does not fit, before a word the whole word after a
      blank does not. */
  predicate MustBreak(w: Widths, width: nat, words: seq<string>, row: string, p: Piece, q: Piece) {
    q.word < |words| && q.from < |words[q.word]| &&
    if q.word == p.word then RowWidth(w, row) + w(words[q.word][q.from]) > width
    else RowWidth(w, row) + 1 + RowWidth(w, words[q.word]) > width
  }

  ghost predicate Broken(w: Widths, width: nat, first: string, rest: string, words: seq<string>, groups: seq<seq<Piece>>) {
    forall i :: 0 < i < |groups| && groups[i - 1] != [] && groups[i] != [] ==>
      MustBreak(w, width, words, RowOf(first, rest, i - 1, groups[i - 1]), groups[i - 1][|groups[i - 1]| - 1], groups[i][0])
  }

  /** A word that fits after the indentation is not cut, and a word that joins others is whole. */
  ghost predicate Uncut(w: Widths, width: nat, words: seq<string>, indentation: string, group: seq<Piece>) {
    forall j :: 0 <= j < |group| ==>
      && group[j].word < |words| && (j > 0 ==> Whole(words, group[j]))
      && (RowWidth(w, indentation) + RowWidth(w, words[group[j].word]) <= width ==> Whole(words, group[j]))
  }

  ghost predicate AllUncut(w: Widths, width: nat, words: seq<string>, indentation: string, groups: seq<seq<Piece>>) {
    forall i :: 0 <= i < |groups| ==> groups[i] != [] && Uncut(w, width, words, indentation, groups[i])
  }

  /** The rows hold the words in order, cut only where they must be, and each row ends only where it must. */
  ghost predicate Tidy(w: Widths, width: nat, first: string, rest: string, words: seq<string>, groups: seq<seq<Piece>>) {
    Cut(words, Flatten(groups)) && Broken(w, width, first, rest, words, groups) && AllUncut(w, width, words, first, groups)
  }

  /** The state of wrapping as groups of pieces, the last for the current row. */
  ghost predicate Shaped(at: Wrap, first: string, rest: string, groups: seq<seq<Piece>>) {
    if groups == [] then at == Wrap([], first)
    else
      var m := |groups| - 1;
      && at.out == AllRows(first, rest, groups[..m]) && at.current == RowOf(first, rest, m, groups[m])
      && Ink(Join(Texts(groups[m]))) != ""
  }

  // ---------------------------------------------------------------- a word spread over rows

  predicate PieceOf(n: nat, word: string, p: Piece) {
    p.word == n && p.from + |p.text| <= |word| && p.text == word[p.from..p.from + |p.text|]
  }

  /** The word goes on after `p` with `q`, because its next character does not fit the row. */
  predicate GoesOn(w: Widths, width: nat, row: string, word: string, p: Piece, q: Piece) {
    q.from == p.from + |p.text| < |word| && q.text != "" && RowWidth(w, row) + w(word[q.from]) > width
  }

  /** The pieces of one word, each on a row of its own from row `k` on. */
  ghost predicate Spread(w: Widths, width: nat, first: string, rest: string, k: nat, n: nat, word: string, pieces: seq<Piece>) {
    && pieces != [] && pieces[0].from == 0
    && (forall i :: 0 <= i < |pieces| ==> PieceOf(n, word, pieces[i]))
    && (forall i :: 0 < i < |pieces| ==> GoesOn(w, width, Lead(first, rest, k + i - 1) + pieces[i - 1].text, word, pieces[i - 1], pieces[i]))
    && (var last := pieces[|pieces| - 1]; last.from + |last.text| == |word|)
    && (RowWidth(w, Lead(first, rest, k)) + RowWidth(w, word) <= width ==> |pieces| == 1)
  }

  function RowsFrom(first: string, rest: string, k: nat, pieces: seq<Piece>): seq<string> {
    seq(|pieces|, i requires 0 <= i < |pieces| => Lead(first, rest, k + i) + pieces[i].text)
  }

  lemma {:induction false} WidthAppend(w: Widths, a: string, b: string)
    ensures RowWidth(w, a + b) == RowWidth(w, a) + RowWidth(w, b)
  {
    if b == [] {
      assert a + b == a;
    } else {
      var n := |b| - 1;
      assert (a + b)[..|a + b| - 1] == a + b[..n];
      WidthAppend(w, a, b[..n]);
    }
  }

  lemma WidthOne(w: Widths, c: char)
    ensures RowWidth(w, [c]) == w(c)
  {
    RowWidthSnoc(w, "", c);
    assert "" + [c] == [c];
  }

  lemma LongerWord(w: Widths, width: nat, n: nat, front: string, c: char)
    ensures forall p :: PieceOf(n, front, p) ==> PieceOf(n, front + [c], p)
    ensures forall row, p, q :: GoesOn(w, width, row, front, p, q) ==> GoesOn(w, width, row, front + [c], p, q)
  {
    hide RowWidth;
    var word := front + [c];
    forall p | PieceOf(n, front, p)
      ensures PieceOf(n, word, p)
    {
      assert word[p.from..p.from + |p.text|] == front[p.from..p.from + |p.text|];
    }
  }

  lemma TooWide(w: Widths, width: nat, first: string, rest: string, k: nat, n: nat, front: string, c: char, pieces: seq<Piece>)
    requires Spread(w, width, first, rest, k, n, front, pieces)
    requires var m := |pieces| - 1; RowWidth(w, Lead(first, rest, k + m) + pieces[m].text) + w(c) > width
    ensures RowWidth(w, Lead(first, rest, k)) + RowWidth(w, front + [c]) > width
  {
    hide RowWidth, Lead, GoesOn;
    if |pieces| == 1 {
      assert PieceOf(n, front, pieces[0]) && pieces[0].text == front;
      WidthAppend(w, front, [c]);
      WidthAppend(w, Lead(first, rest, k), front);
      WidthOne(w, c);
    } else {
      NarrowFront(w, front, c);
    }
  }

  lemma NewPiece(w: Widths, width: nat, row: string, n: nat, front: string, c: char, p: Piece)
    requires p.from + |p.text| == |front| && RowWidth(w, row) + w(c) > width
    ensures PieceOf(n, front + [c], Piece(n, |front|, [c])) && GoesOn(w, width, row, front + [c], p, Piece(n, |front|, [c]))
  {
    hide RowWidth;
  }

  /** A character that does not fit starts a new piece. */
  lemma SpreadNew(w: Widths, width: nat, first: string, rest: string, k: nat, n: nat, front: string, c: char, pieces: seq<Piece>)
    requires Spread(w, width, first, rest, k, n, front, pieces)
    requires var m := |pieces| - 1; RowWidth(w, Lead(first, rest, k + m) + pieces[m].text) + w(c) > width
    ensures Spread(w, width, first, rest, k, n, front + [c], pieces + [Piece(n, |front|, [c])])
  {
    hide RowWidth, Lead, GoesOn, PieceOf;
    TooWide(w, width, first, rest, k, n, front, c, pieces);
    LongerWord(w, width, n, front, c);
    var m, q := |pieces| - 1, Piece(n, |front|, [c]);
    NewPiece(w, width, Lead(first, rest, k + m) + pieces[m].text, n, front, c, pieces[m]);
    var more := pieces + [q];
    forall i | 0 < i < |more|
      ensures GoesOn(w, width, Lead(first, rest, k + i - 1) + more[i - 1].text, front + [c], more[i - 1], more[i])
    {
      if i < |pieces| {
        assert GoesOn(w, width, Lead(first, rest, k + i - 1) + pieces[i - 1].text, front, pieces[i - 1], pieces[i]);
      }
    }
  }

  lemma NarrowFront(w: Widths, front: string, c: char)
    ensures RowWidth(w, front) <= RowWidth(w, front + [c])
  {
    RowWidthSnoc(w, front, c);
  }

  /** A character that fits makes the last piece longer. */
  lemma SpreadLonger(w: Widths, width: nat, first: string, rest: string, k: nat, n: nat, front: string, c: char, pieces: seq<Piece>)
    requires Spread(w, width, first, rest, k, n, front, pieces)
    ensures var m := |pieces| - 1;
            Spread(w, width, first, rest, k, n, front + [c], pieces[m := pieces[m].(text := pieces[m].text + [c])])
  {
    var m := |pieces| - 1;
    var q := pieces[m].(text := pieces[m].text + [c]);
    LongerWord(w, width, n, front, c);
    NarrowFront(w, front, c);
    assert PieceOf(n, front, pieces[m]);
    assert PieceOf(n, front + [c], q);
    hide RowWidth, Lead, PieceOf;
    var more := pieces[m := q];
    forall i | 0 < i < |more|
      ensures GoesOn(w, width, Lead(first, rest, k + i - 1) + more[i - 1].text, front + [c], more[i - 1], more[i])
    {
      assert GoesOn(w, width, Lead(first, rest, k + i - 1) + pieces[i - 1].text, front, pieces[i - 1], pieces[i]);
    }
  }

  function SpreadOut(first: string, rest: string, out: seq<string>, pieces: seq<Piece>): Wrap
    requires pieces != []
  {
    var m := |pieces| - 1;
    Wrap(out + RowsFrom(first, rest, |out|, pieces[..m]), Lead(first, rest, |out| + m) + pieces[m].text)
  }

  lemma {:induction false} WordIsSpread(w: Widths, width: nat, first: string, rest: string, out: seq<string>, n: nat, word: string)
    returns (pieces: seq<Piece>)
    ensures Spread(w, width, first, rest, |out|, n, word, pieces)
    ensures AppendWord(w, width, rest, Wrap(out, Lead(first, rest, |out|)), word) == SpreadOut(first, rest, out, pieces)
  {
    if word == [] {
      pieces := [Piece(n, 0, "")];
      NothingSpread(first, rest, out, n);
    } else {
      var front, c := word[..|word| - 1], word[|word| - 1];
      assert word == front + [c];
      pieces := WordIsSpread(w, width, first, rest, out, n, front);
      hide Spread, RowWidth, RowsFrom, Lead;
      var m := |pieces| - 1;
      var current := Lead(first, rest, |out| + m) + pieces[m].text;
      if current != [] && RowWidth(w, current) + w(c) > width {
        SpreadNew(w, width, first, rest, |out|, n, front, c, pieces);
        RowsFromMore(first, rest, out, n, |front|, c, pieces);
        pieces := pieces + [Piece(n, |front|, [c])];
      } else {
        SpreadLonger(w, width, first, rest, |out|, n, front, c, pieces);
        Assoc(Lead(first, rest, |out| + m), pieces[m].text, [c]);
        var more := pieces[m := pieces[m].(text := pieces[m].text + [c])];
        assert more[..m] == pieces[..m];
        pieces := more;
      }
    }
  }

  lemma NothingSpread(first: string, rest: string, out: seq<string>, n: nat)
    ensures SpreadOut(first, rest, out, [Piece(n, 0, "")]) == Wrap(out, Lead(first, rest, |out|))
  {
    var lead := Lead(first, rest, |out|);
    assert [Piece(n, 0, "")][..0] == [] && RowsFrom(first, rest, |out|, []) == [];
    assert lead + "" == lead && out + [] == out;
  }

  lemma RowsFromMore(first: string, rest: string, out: seq<string>, n: nat, at: nat, c: char, pieces: seq<Piece>)
    requires pieces != []
    ensures var before := SpreadOut(first, rest, out, pieces);
            SpreadOut(first, rest, out, pieces + [Piece(n, at, [c])]) == Wrap(before.out + [before.current], rest + [c])
  {
    var m := |pieces| - 1;
    assert (pieces + [Piece(n, at, [c])])[..m + 1] == pieces;
    assert RowsFrom(first, rest, |out|, pieces)
        == RowsFrom(first, rest, |out|, pieces[..m]) + [Lead(first, rest, |out| + m) + pieces[m].text];
  }

  // ---------------------------------------------------------------- one more word

  lemma MoreWords(words: seq<string>, word: string)
    ensures forall p :: IsPiece(words, p) ==> IsPiece(words + [word], p)
    ensures forall p :: Whole(words, p) ==> Whole(words + [word], p)
    ensures forall p, q :: Next(words, p, q) ==> Next(words + [word], p, q)
  {
  }

  lemma MoreWordsUncut(w: Widths, width: nat, words: seq<string>, word: string, indentation: string, group: seq<Piece>)
    requires Uncut(w, width, words, indentation, group)
    ensures Uncut(w, width, words + [word], indentation, group)
  {
    hide RowWidth;
    MoreWords(words, word);
  }

  lemma MoreWordsBroken(w: Widths, width: nat, first: string, rest: string, words: seq<string>, word: string, groups: seq<seq<Piece>>)
    requires Broken(w, width, first, rest, words, groups)
    ensures Broken(w, width, first, rest, words + [word], groups)
  {
    hide RowWidth, RowOf;
  }

  /** The pieces of the next word, by themselves. */
  ghost predicate PiecesOfNext(words: seq<string>, word: string, more: seq<Piece>) {
    && more != [] && more[0].from == 0
    && (forall i :: 0 <= i < |more| ==> PieceOf(|words|, word, more[i]))
    && (forall i :: 0 < i < |more| ==> more[i].from == more[i - 1].from + |more[i - 1].text| && more[i].text != "")
    && (var last := more[|more| - 1]; last.from + |last.text| == |word|)
  }

  lemma CutMore(words: seq<string>, pieces: seq<Piece>, word: string, more: seq<Piece>)
    requires Cut(words, pieces) && PiecesOfNext(words, word, more)
    ensures Cut(words + [word], pieces + more)
  {
    var all, longer := pieces + more, words + [word];
    MoreWords(words, word);
    assert forall p :: PieceOf(|words|, word, p) ==> IsPiece(longer, p);
    forall i | 0 <= i < |all|
      ensures IsPiece(longer, all[i])
    {
      if i >= |pieces| { assert all[i] == more[i - |pieces|]; }
    }
    hide IsPiece;
    forall i | 0 < i < |all|
      ensures Next(longer, all[i - 1], all[i])
    {
      if i > |pieces| {
        assert all[i] == more[i - |pieces|] && all[i - 1] == more[i - |pieces| - 1];
        assert PieceOf(|words|, word, more[i - |pieces|]) && PieceOf(|words|, word, more[i - |pieces| - 1]);
      } else if i == |pieces| {
        assert all[i] == more[0] && PieceOf(|words|, word, more[0]);
      } else {
        assert Next(words, pieces[i - 1], pieces[i]);
      }
    }
    assert all[|all| - 1] == more[|more| - 1] && PieceOf(|words|, word, more[|more| - 1]);
    assert pieces == [] ==> all[0] == more[0] && PieceOf(|words|, word, more[0]);
  }

  lemma FlattenSnoc<T>(groups: seq<seq<T>>, group: seq<T>)
    ensures Flatten(groups + [group]) == Flatten(groups) + group
  {
    assert (groups + [group])[..|groups|] == groups;
  }

  lemma FlattenJoin<T>(groups: seq<seq<T>>, p: T)
    requires groups != []
    ensures var m := |groups| - 1; Flatten(groups[m := groups[m] + [p]]) == Flatten(groups) + [p]
  {
    var m := |groups| - 1;
    var joined := groups[m := groups[m] + [p]];
    assert joined[..m] == groups[..m];
    assert (Flatten(groups[..m]) + groups[m]) + [p] == Flatten(groups[..m]) + (groups[m] + [p]);
  }

  function Singles(pieces: seq<Piece>): seq<seq<Piece>> {
    seq(|pieces|, i requires 0 <= i < |pieces| => [pieces[i]])
  }

  lemma {:induction false} FlattenSingles(groups: seq<seq<Piece>>, pieces: seq<Piece>)
    ensures Flatten(groups + Singles(pieces)) == Flatten(groups) + pieces
  {
    if pieces == [] {
      assert groups + Singles(pieces) == groups;
    } else {
      var n := |pieces| - 1;
      hide Flatten, Singles;
      FlattenSingles(groups, pieces[..n]);
      SinglesSnoc(groups, pieces);
      FlattenSnoc(groups + Singles(pieces[..n]), [pieces[n]]);
      assert (Flatten(groups) + pieces[..n]) + [pieces[n]] == Flatten(groups) + pieces;
    }
  }

  lemma SinglesSnoc(groups: seq<seq<Piece>>, pieces: seq<Piece>)
    requires pieces != []
    ensures var n := |pieces| - 1; groups + Singles(pieces) == (groups + Singles(pieces[..n])) + [[pieces[n]]]
  {
  }

  /** A word that is added to the current row. */
  function Joined(groups: seq<seq<Piece>>, p: Piece): seq<seq<Piece>> {
    if groups == [] then [[p]] else groups[|groups| - 1 := groups[|groups| - 1] + [p]]
  }

  lemma WholePiece(words: seq<string>, word: string)
    requires word != ""
    ensures PiecesOfNext(words, word, [Piece(|words|, 0, word)]) && Whole(words + [word], Piece(|words|, 0, word))
  {
    assert word[0..|word|] == word;
  }

  lemma JoinedUncut(w: Widths, width: nat, words: seq<string>, indentation: string, group: seq<Piece>, p: Piece)
    requires Uncut(w, width, words, indentation, group) && Whole(words, p)
    ensures Uncut(w, width, words, indentation, group + [p])
  {
    hide RowWidth;
  }

  lemma JoinedBroken(w: Widths, width: nat, first: string, rest: string, words: seq<string>, groups: seq<seq<Piece>>, p: Piece)
    requires Broken(w, width, first, rest, words, groups) && forall i :: 0 <= i < |groups| ==> groups[i] != []
    ensures Broken(w, width, first, rest, words, Joined(groups, p))
  {
    hide MustBreak, RowOf;
    var more := Joined(groups, p);
    forall i | 0 < i < |more| && more[i - 1] != [] && more[i] != []
      ensures MustBreak(w, width, words, RowOf(first, rest, i - 1, more[i - 1]), more[i - 1][|more[i - 1]| - 1], more[i][0])
    {
      assert more[i - 1] == groups[i - 1] && more[i][0] == groups[i][0];
    }
  }

  lemma FlattenJoined(groups: seq<seq<Piece>>, p: Piece)
    ensures Flatten(Joined(groups, p)) == Flatten(groups) + [p]
  {
    if groups == [] {
      assert [[p]][..0] == [];
    } else {
      FlattenJoin(groups, p);
    }
  }

  lemma JoinedAllUncut(w: Widths, width: nat, words: seq<string>, word: string, first: string, groups: seq<seq<Piece>>, p: Piece)
    requires AllUncut(w, width, words, first, groups) && Whole(words + [word], p)
    ensures AllUncut(w, width, words + [word], first, Joined(groups, p))
  {
    hide Uncut, Whole;
    var more, longer := Joined(groups, p), words + [word];
    OnlyUncut(w, width, longer, first, p);
    forall i | 0 <= i < |groups|
      ensures more[i] != [] && Uncut(w, width, longer, first, more[i])
    {
      MoreWordsUncut(w, width, words, word, first, groups[i]);
      JoinedUncut(w, width, longer, first, groups[i], p);
    }
  }

  lemma JoinTidy(w: Widths, width: nat, first: string, rest: string, words: seq<string>, groups: seq<seq<Piece>>, word: string)
    requires Tidy(w, width, first, rest, words, groups) && word != ""
    ensures Tidy(w, width, first, rest, words + [word], Joined(groups, Piece(|words|, 0, word)))
  {
    hide RowWidth, Cut, Uncut, Broken, Whole, PiecesOfNext, Flatten, Joined;
    var p := Piece(|words|, 0, word);
    WholePiece(words, word);
    CutMore(words, Flatten(groups), word, [p]);
    FlattenJoined(groups, p);
    MoreWordsBroken(w, width, first, rest, words, word, groups);
    JoinedBroken(w, width, first, rest, words + [word], groups, p);
    JoinedAllUncut(w, width, words, word, first, groups, p);
  }

  lemma OnlyUncut(w: Widths, width: nat, words: seq<string>, indentation: string, p: Piece)
    requires Whole(words, p)
    ensures Uncut(w, width, words, indentation, [p])
  {
    hide RowWidth;
  }

  lemma SpreadIsPieces(w: Widths, width: nat, first: string, rest: string, k: nat, words: seq<string>, word: string, pieces: seq<Piece>)
    requires Spread(w, width, first, rest, k, |words|, word, pieces)
    ensures PiecesOfNext(words, word, pieces)
  {
    hide RowWidth, Lead, PieceOf;
    forall i | 0 < i < |pieces|
      ensures pieces[i].from == pieces[i - 1].from + |pieces[i - 1].text| && pieces[i].text != ""
    {
      assert GoesOn(w, width, Lead(first, rest, k + i - 1) + pieces[i - 1].text, word, pieces[i - 1], pieces[i]);
    }
  }

  lemma SingleRow(first: string, rest: string, row: nat, p: Piece)
    ensures RowOf(first, rest, row, [p]) == Lead(first, rest, row) + p.text
  {
    assert Texts([p]) == [p.text];
  }

  lemma SpreadUncut(w: Widths, width: nat, first: string, rest: string, k: nat, words: seq<string>, word: string, pieces: seq<Piece>, i: nat)
    requires Spread(w, width, first, rest, k, |words|, word, pieces) && i < |pieces|
    requires RowWidth(w, rest) <= RowWidth(w, first)
    ensures Uncut(w, width, words + [word], first, [pieces[i]])
  {
    hide RowWidth, GoesOn;
    assert PieceOf(|words|, word, pieces[i]);
    if RowWidth(w, first) + RowWidth(w, word) <= width {
      assert |pieces| == 1 && pieces[0].text == word[0..|word|] == word;
    }
  }

  /** Between two rows of the word the next character does not fit. */
  lemma SpreadBreaks(w: Widths, width: nat, first: string, rest: string, k: nat, words: seq<string>, word: string, pieces: seq<Piece>, i: nat)
    requires Spread(w, width, first, rest, k, |words|, word, pieces) && 0 < i < |pieces|
    ensures MustBreak(w, width, words + [word], RowOf(first, rest, k + i - 1, [pieces[i - 1]]), pieces[i - 1], pieces[i])
  {
    hide RowWidth, RowOf, Lead;
    SingleRow(first, rest, k + i - 1, pieces[i - 1]);
    assert GoesOn(w, width, Lead(first, rest, k + i - 1) + pieces[i - 1].text, word, pieces[i - 1], pieces[i]);
    assert PieceOf(|words|, word, pieces[i]) && PieceOf(|words|, word, pieces[i - 1]);
  }

  /** The last row before the word cannot take it. */
  ghost predicate NoRoom(w: Widths, width: nat, first: string, rest: string, groups: seq<seq<Piece>>, word: string) {
    groups != [] ==> var m := |groups| - 1; RowWidth(w, RowOf(first, rest, m, groups[m])) + 1 + RowWidth(w, word) > width
  }

  lemma SpreadBroken(w: Widths, width: nat, first: string, rest: string, words: seq<string>, groups: seq<seq<Piece>>,
      word: string, pieces: seq<Piece>)
    requires Tidy(w, width, first, rest, words, groups) && word != "" && NoRoom(w, width, first, rest, groups, word)
    requires Spread(w, width, first, rest, |groups|, |words|, word, pieces)
    ensures Broken(w, width, first, rest, words + [word], groups + Singles(pieces))
  {
    hide RowWidth, RowOf, Lead, Cut;
    MoreWordsBroken(w, width, first, rest, words, word, groups);
    var all, k := groups + Singles(pieces), |groups|;
    forall i | 0 < i < |all|
      ensures MustBreak(w, width, words + [word], RowOf(first, rest, i - 1, all[i - 1]), all[i - 1][|all[i - 1]| - 1], all[i][0])
    {
      if i > k {
        SpreadBreaks(w, width, first, rest, k, words, word, pieces, i - k);
        assert all[i] == [pieces[i - k]] && all[i - 1] == [pieces[i - 1 - k]];
      } else if i == k {
        assert PieceOf(|words|, word, pieces[0]) && all[i] == [pieces[0]];
        var last := groups[k - 1];
        assert Uncut(w, width, words, first, last) && last[|last| - 1].word < |words|;
      } else {
        assert all[i] == groups[i] && all[i - 1] == groups[i - 1];
      }
    }
  }

  lemma SpreadTidy(w: Widths, width: nat, first: string, rest: string, words: seq<string>, groups: seq<seq<Piece>>, word: string, pieces: seq<Piece>)
    requires Tidy(w, width, first, rest, words, groups) && word != "" && NoRoom(w, width, first, rest, groups, word)
    requires Spread(w, width, first, rest, |groups|, |words|, word, pieces) && RowWidth(w, rest) <= RowWidth(w, first)
    ensures Tidy(w, width, first, rest, words + [word], groups + Singles(pieces))
  {
    SpreadBroken(w, width, first, rest, words, groups, word, pieces);
    hide RowWidth, RowOf, Lead, Cut, Spread, Broken, Uncut, NoRoom, Flatten, Singles;
    SpreadIsPieces(w, width, first, rest, |groups|, words, word, pieces);
    CutMore(words, Flatten(groups), word, pieces);
    FlattenSingles(groups, pieces);
    SpreadAllUncut(w, width, first, rest, words, groups, word, pieces);
  }

  lemma SpreadAllUncut(w: Widths, width: nat, first: string, rest: string, words: seq<string>, groups: seq<seq<Piece>>,
      word: string, pieces: seq<Piece>)
    requires forall i :: 0 <= i < |groups| ==> groups[i] != [] && Uncut(w, width, words, first, groups[i])
    requires Spread(w, width, first, rest, |groups|, |words|, word, pieces) && RowWidth(w, rest) <= RowWidth(w, first)
    ensures var all := groups + Singles(pieces);
            forall i :: 0 <= i < |all| ==> all[i] != [] && Uncut(w, width, words + [word], first, all[i])
  {
    hide RowWidth, Spread, Uncut;
    var all, k := groups + Singles(pieces), |groups|;
    forall i | 0 <= i < |all|
      ensures all[i] != [] && Uncut(w, width, words + [word], first, all[i])
    {
      if i < k {
        MoreWordsUncut(w, width, words, word, first, groups[i]);
      } else {
        assert all[i] == [pieces[i - k]];
        SpreadUncut(w, width, first, rest, k, words, word, pieces, i - k);
      }
    }
  }

  // ---------------------------------------------------------------- the rows of a line

  lemma JoinSnoc(texts: seq<string>, word: string)
    ensures Join(texts + [word]) == if texts == [] then word else Join(texts) + " " + word
  {
    if texts == [] {
      assert texts + [word] == [word];
    } else {
      assert (texts + [word])[..|texts|] == texts;
    }
  }

  lemma InkyEnd(a: string, word: string)
    requires word != [] && !Text.Whitespace(word[|word| - 1])
    ensures Ink(a + word) != ""
  {
    var s := a + word;
    assert s[|s| - 1] == word[|word| - 1];
  }

  lemma BlankExactlyAtFirst(at: Wrap, first: string, rest: string, groups: seq<seq<Piece>>)
    requires Shaped(at, first, rest, groups) && Text.Blank(first) && Text.Blank(rest)
    ensures Text.Blank(at.current) <==> groups == []
  {
    if groups != [] {
      var m := |groups| - 1;
      hide Ink, Join, Texts, Text.Blank;
      InkAppend(Lead(first, rest, m), Join(Texts(groups[m])));
      BlankInk(Lead(first, rest, m));
      BlankInk(at.current);
    }
  }

  /** A word that fits on the current row joins it. */
  lemma JoinShaped(at: Wrap, first: string, rest: string, groups: seq<seq<Piece>>, n: nat, word: string)
    requires Shaped(at, first, rest, groups) && Text.Blank(first) && Text.Blank(rest) && Solid(word)
    ensures Shaped(at.(current := at.current + Separator(at.current) + word), first, rest, Joined(groups, Piece(n, 0, word)))
  {
    BlankExactlyAtFirst(at, first, rest, groups);
    var p := Piece(n, 0, word);
    var more := Joined(groups, p);
    hide Text.Blank, Text.Whitespace;
    if groups == [] {
      SingleRow(first, rest, 0, p);
      assert Texts([p]) == [word] && more[..0] == [] && AllRows(first, rest, []) == [];
      assert first + "" + word == first + word;
      InkyEnd("", word);
      assert "" + word == word;
    } else {
      var m := |groups| - 1;
      var joined, lead := Join(Texts(groups[m])), Lead(first, rest, m);
      assert Texts(groups[m] + [p]) == Texts(groups[m]) + [word];
      JoinSnoc(Texts(groups[m]), word);
      assert more[..m] == groups[..m];
      assert Texts(groups[m]) != [];
      assert (lead + joined) + " " + word == lead + (joined + " " + word);
      InkyEnd(joined + " ", word);
    }
  }

  lemma SpreadRows(first: string, rest: string, groups: seq<seq<Piece>>, pieces: seq<Piece>)
    ensures AllRows(first, rest, groups + Singles(pieces)) == AllRows(first, rest, groups) + RowsFrom(first, rest, |groups|, pieces)
  {
    hide RowOf, Lead;
    var all, k := groups + Singles(pieces), |groups|;
    forall i | 0 <= i < |pieces|
      ensures AllRows(first, rest, all)[k + i] == RowsFrom(first, rest, k, pieces)[i]
    {
      SingleRow(first, rest, k + i, pieces[i]);
    }
  }

  /** Any other word is spread over the rows that follow. */
  lemma SpreadShaped(first: string, rest: string, groups: seq<seq<Piece>>, pieces: seq<Piece>)
    requires pieces != [] && pieces[|pieces| - 1].text != ""
    requires !Text.Whitespace(pieces[|pieces| - 1].text[|pieces[|pieces| - 1].text| - 1])
    ensures Shaped(SpreadOut(first, rest, AllRows(first, rest, groups), pieces), first, rest, groups + Singles(pieces))
  {
    hide Text.Whitespace, Lead, RowOf, AllRows, RowsFrom, Ink, Singles;
    var m, k := |pieces| - 1, |groups|;
    var p := pieces[m];
    SingleRow(first, rest, k + m, p);
    AllRowsCounted(first, rest, groups);
    SinglesSnoc(groups, pieces);
    SinglesCounted(pieces);
    SinglesCounted(pieces[..m]);
    var all, before := groups + Singles(pieces), groups + Singles(pieces[..m]);
    assert all[..k + m] == before && all[k + m] == [p] && Texts([p]) == [p.text];
    SpreadRows(first, rest, groups, pieces[..m]);
    InkyEnd("", p.text);
    assert "" + p.text == p.text;
  }

  lemma FlushShaped(at: Wrap, first: string, rest: string, groups: seq<seq<Piece>>)
    requires Shaped(at, first, rest, groups) && Text.Blank(first) && Text.Blank(rest)
    ensures Flush(rest, at) == Wrap(AllRows(first, rest, groups), Lead(first, rest, |groups|))
  {
    BlankExactlyAtFirst(at, first, rest, groups);
    hide Text.Blank, RowOf, Ink;
    if groups != [] {
      var m := |groups| - 1;
      assert AllRows(first, rest, groups) == AllRows(first, rest, groups[..m]) + [RowOf(first, rest, m, groups[m])];
    } else {
      assert AllRows(first, rest, groups) == [];
    }
  }

  lemma SpreadEnd(w: Widths, width: nat, first: string, rest: string, k: nat, n: nat, word: string, pieces: seq<Piece>)
    requires Spread(w, width, first, rest, k, n, word, pieces) && Solid(word)
    ensures word != "" && pieces != []
    ensures var last := pieces[|pieces| - 1].text; last != "" && !Text.Whitespace(last[|last| - 1])
  {
    hide RowWidth, Lead, Text.Whitespace;
    var m := |pieces| - 1;
    assert PieceOf(n, word, pieces[m]);
    if m > 0 {
      assert GoesOn(w, width, Lead(first, rest, k + m - 1) + pieces[m - 1].text, word, pieces[m - 1], pieces[m]);
    }
  }

  lemma RoomIsOnTheRow(at: Wrap, first: string, rest: string, groups: seq<seq<Piece>>)
    requires Shaped(at, first, rest, groups) && Text.Blank(first) && Text.Blank(rest)
    ensures groups != [] ==> at.current == RowOf(first, rest, |groups| - 1, groups[|groups| - 1]) && |Separator(at.current)| == 1
  {
    BlankExactlyAtFirst(at, first, rest, groups);
  }

  lemma MovedWordTidy(w: Widths, width: nat, first: string, rest: string, at: Wrap, words: seq<string>, groups: seq<seq<Piece>>, word: string)
    returns (more: seq<seq<Piece>>)
    requires Shaped(at, first, rest, groups) && Tidy(w, width, first, rest, words, groups) && Solid(word)
    requires Text.Blank(first) && Text.Blank(rest) && RowWidth(w, rest) <= RowWidth(w, first)
    requires RowWidth(w, at.current) + |Separator(at.current)| + RowWidth(w, word) > width
    ensures Shaped(AppendWord(w, width, rest, Flush(rest, at), word), first, rest, more)
    ensures Tidy(w, width, first, rest, words + [word], more) && more != []
  {
    hide *;
    RoomIsOnTheRow(at, first, rest, groups);
    FlushShaped(at, first, rest, groups);
    var rows := AllRows(first, rest, groups);
    AllRowsCounted(first, rest, groups);
    var pieces := WordIsSpread(w, width, first, rest, rows, |words|, word);
    SpreadEnd(w, width, first, rest, |groups|, |words|, word, pieces);
    SpreadShaped(first, rest, groups, pieces);
    NoRoomFor(w, width, first, rest, groups, word);
    SpreadTidy(w, width, first, rest, words, groups, word, pieces);
    more := groups + Singles(pieces);
    SinglesCounted(pieces);
  }

  lemma AllRowsCounted(first: string, rest: string, groups: seq<seq<Piece>>)
    ensures |AllRows(first, rest, groups)| == |groups|
  {
  }

  lemma SinglesCounted(pieces: seq<Piece>)
    ensures |Singles(pieces)| == |pieces|
  {
  }

  lemma NoRoomFor(w: Widths, width: nat, first: string, rest: string, groups: seq<seq<Piece>>, word: string)
    requires groups != [] ==> RowWidth(w, RowOf(first, rest, |groups| - 1, groups[|groups| - 1])) + 1 + RowWidth(w, word) > width
    ensures NoRoom(w, width, first, rest, groups, word)
  {
  }

  /** One more word keeps the rows tidy. */
  lemma AddWordTidy(w: Widths, width: nat, first: string, rest: string, at: Wrap, words: seq<string>, groups: seq<seq<Piece>>, word: string)
    returns (more: seq<seq<Piece>>)
    requires Shaped(at, first, rest, groups) && Tidy(w, width, first, rest, words, groups) && Solid(word)
    requires Text.Blank(first) && Text.Blank(rest) && RowWidth(w, rest) <= RowWidth(w, first)
    ensures Shaped(AddWord(w, width, rest, at, word), first, rest, more) && Tidy(w, width, first, rest, words + [word], more)
    ensures more != []
  {
    hide Shaped, Tidy, RowWidth, AppendWord, Text.Blank, Flush, Separator;
    if RowWidth(w, at.current) + |Separator(at.current)| + RowWidth(w, word) <= width {
      JoinShaped(at, first, rest, groups, |words|, word);
      JoinTidy(w, width, first, rest, words, groups, word);
      more := Joined(groups, Piece(|words|, 0, word));
    } else {
      more := MovedWordTidy(w, width, first, rest, at, words, groups, word);
    }
  }

  lemma NoWordsTidy(w: Widths, width: nat, first: string, rest: string)
    ensures Tidy(w, width, first, rest, [], []) && Shaped(Wrap([], first), first, rest, [])
  {
  }

  lemma {:induction false} AddWordsTidy(w: Widths, width: nat, first: string, rest: string, words: seq<string>)
    returns (groups: seq<seq<Piece>>)
    requires Text.Blank(first) && Text.Blank(rest) && RowWidth(w, rest) <= RowWidth(w, first)
    requires forall i :: 0 <= i < |words| ==> Solid(words[i])
    ensures Shaped(AddWords(w, width, rest, Wrap([], first), words), first, rest, groups)
    ensures Tidy(w, width, first, rest, words, groups) && (groups == [] <==> words == [])
  {
    hide Shaped, AddWord, Solid, Tidy, RowWidth, Text.Blank;
    if words == [] {
      groups := [];
      NoWordsTidy(w, width, first, rest);
    } else {
      var n := |words| - 1;
      var before := AddWordsTidy(w, width, first, rest, words[..n]);
      groups := AddWordTidy(w, width, first, rest, AddWords(w, width, rest, Wrap([], first), words[..n]), words[..n], before, words[n]);
      assert words == words[..n] + [words[n]];
    }
  }

  /** The rows of a line are its words in order, the first row after the indentation and the others after what continues
      it; a word that fits after the indentation is not cut; and a row ends only before a word that does not fit after a
      blank, or inside one before a character that does not fit. */
  lemma RowsAreTidy(w: Widths, width: nat, line: string) returns (groups: seq<seq<Piece>>)
    requires Words(line[|Indentation(line)|..]) != []
    ensures var indentation := Indentation(line);
            var rest := Continuation(w, width, indentation);
            && WrapLine(w, width, line) == AllRows(indentation, rest, groups)
            && Tidy(w, width, indentation, rest, Words(line[|indentation|..]), groups)
  {
    hide Words, Tidy, RowWidth;
    var indentation := Indentation(line);
    var rest := Continuation(w, width, indentation);
    var words := Words(line[|indentation|..]);
    WordsAreInk(line[|indentation|..]);
    assert Text.Blank(indentation) && Text.Blank(rest);
    NothingIsNarrow(w);
    groups := AddWordsTidy(w, width, indentation, rest, words);
    FinishTidy(AddWords(w, width, rest, Wrap([], indentation), words), indentation, rest, groups);
    assert line != [] by { EmptyHasNoWords(); }
  }

  lemma EmptyHasNoWords()
    ensures Words("") == []
  {
  }

  lemma NothingIsNarrow(w: Widths)
    ensures RowWidth(w, "") == 0
  {
  }

  lemma FinishTidy(at: Wrap, first: string, rest: string, groups: seq<seq<Piece>>)
    requires Shaped(at, first, rest, groups) && groups != []
    ensures Finished(at) == AllRows(first, rest, groups)
  {
    hide RowOf, Join;
    var m := |groups| - 1;
    InkAppend(Lead(first, rest, m), Join(Texts(groups[m])));
    assert AllRows(first, rest, groups) == AllRows(first, rest, groups[..m]) + [RowOf(first, rest, m, groups[m])];
    RowNotEmpty(first, rest, m, groups[m]);
  }

  lemma RowNotEmpty(first: string, rest: string, row: nat, group: seq<Piece>)
    requires Ink(Join(Texts(group))) != ""
    ensures RowOf(first, rest, row, group) != ""
  {
    hide Join, Texts;
  }

  /** An empty line is an empty row; any other line without words is its indentation, or nothing. */
  lemma NoWordsRow(w: Widths, width: nat, line: string)
    requires Words(line[|Indentation(line)|..]) == []
    ensures WrapLine(w, width, line) == if line == "" then [""] else if Indentation(line) == "" then [] else [Indentation(line)]
  {
    assert [] + [Indentation(line)] == [Indentation(line)];
  }

  /** Where the indentation is narrower than the width, all rows start with it. */
  lemma RowsKeepIndentation(w: Widths, width: nat, line: string) returns (groups: seq<seq<Piece>>)
    requires Words(line[|Indentation(line)|..]) != [] && RowWidth(w, Indentation(line)) < width
    ensures WrapLine(w, width, line) == AllRows(Indentation(line), Indentation(line), groups)
    ensures Tidy(w, width, Indentation(line), Indentation(line), Words(line[|Indentation(line)|..]), groups)
  {
    groups := RowsAreTidy(w, width, line);
  }

  // ---------------------------------------------------------------- no arrangement has fewer rows

  /** The words in order, some on each row after the indentation, and every row fits. */
  ghost predicate Arranges(w: Widths, width: nat, indentation: string, words: seq<string>, rows: seq<seq<string>>) {
    Flatten(rows) == words && forall i :: 0 <= i < |rows| ==> RowWidth(w, indentation + Join(rows[i])) <= width
  }

  lemma FittingWordMoves(w: Widths, width: nat, indentation: string, out: seq<string>, word: string)
    requires Solid(word) && RowWidth(w, indentation) + RowWidth(w, word) <= width
    ensures AppendWord(w, width, indentation, Wrap(out, indentation), word) == Wrap(out, indentation + word)
  {
    hide AppendWord, RowWidth, GoesOn;
    var pieces := WordIsSpread(w, width, indentation, indentation, out, 0, word);
    assert |pieces| == 1 && PieceOf(0, word, pieces[0]);
    assert pieces[0].text == word[0..|word|] == word;
    assert pieces[..0] == [] && RowsFrom(indentation, indentation, |out|, []) == [] && out + [] == out;
  }

  lemma JoinWidth(w: Widths, lead: string, texts: seq<string>, word: string)
    requires w(' ') == 1
    ensures RowWidth(w, lead + Join(texts + [word]))
         == if texts == [] then RowWidth(w, lead) + RowWidth(w, word) else RowWidth(w, lead + Join(texts)) + 1 + RowWidth(w, word)
  {
    hide RowWidth, Join;
    JoinSnoc(texts, word);
    WidthAppend(w, lead, word);
    var joined := Join(texts);
    assert lead + (joined + " " + word) == (lead + joined + " ") + word;
    WidthAppend(w, lead + joined + " ", word);
    WidthAppend(w, lead + joined, " ");
    WidthOne(w, ' ');
  }

  /** What a fitting word does to a row that has words. */
  lemma FittingWord(w: Widths, width: nat, indentation: string, at: Wrap, word: string)
    requires Solid(word) && RowWidth(w, indentation) + RowWidth(w, word) <= width && !Text.Blank(at.current) && w(' ') == 1
    ensures var next := AddWord(w, width, indentation, at, word);
            && !Text.Blank(next.current)
            && if RowWidth(w, at.current) + 1 + RowWidth(w, word) <= width
               then |next.out| == |at.out| && RowWidth(w, next.current) == RowWidth(w, at.current) + 1 + RowWidth(w, word)
               else |next.out| == |at.out| + 1 && RowWidth(w, next.current) == RowWidth(w, indentation) + RowWidth(w, word)
  {
    hide RowWidth, AppendWord, Text.Blank, Solid;
    FittingWordMoves(w, width, indentation, at.out + [at.current], word);
    WidthAppend(w, indentation, word);
    WidthAppend(w, at.current + " ", word);
    WidthAppend(w, at.current, " ");
    WidthOne(w, ' ');
    WordIsNotBlank(indentation, word);
    WordIsNotBlank(at.current + " ", word);
  }

  lemma FirstWord(w: Widths, width: nat, indentation: string, word: string)
    requires Solid(word) && RowWidth(w, indentation) + RowWidth(w, word) <= width && Text.Blank(indentation)
    ensures AddWord(w, width, indentation, Wrap([], indentation), word) == Wrap([], indentation + word)
    ensures !Text.Blank(indentation + word)
  {
    hide RowWidth, AppendWord, Text.Blank, Solid;
    WordIsNotBlank(indentation, word);
    assert indentation + "" + word == indentation + word;
  }

  lemma WordIsNotBlank(indentation: string, word: string)
    requires Solid(word)
    ensures !Text.Blank(indentation + word)
  {
    hide Text.Whitespace;
    assert (indentation + word)[|indentation|] == word[0];
  }

  ghost predicate AllFit(w: Widths, width: nat, indentation: string, words: seq<string>) {
    forall i :: 0 <= i < |words| ==> Solid(words[i]) && RowWidth(w, indentation) + RowWidth(w, words[i]) <= width
  }

  /** Of an arrangement of the words so far: it has more rows, or as many and a last row at least as wide. */
  ghost predicate NotAhead(w: Widths, indentation: string, at: Wrap, rows: seq<seq<string>>) {
    || |at.out| + 1 < |rows|
    || (|at.out| + 1 == |rows| && rows[|rows| - 1] != [] && RowWidth(w, at.current) <= RowWidth(w, indentation + Join(rows[|rows| - 1])))
  }

  lemma LastOfLast<T>(all: seq<T>, groups: seq<seq<T>>)
    requires groups != [] && groups[|groups| - 1] != [] && Flatten(groups) == all
    ensures var group := groups[|groups| - 1];
            all != [] && group[|group| - 1] == all[|all| - 1] && Flatten(groups[|groups| - 1 := group[..|group| - 1]]) == all[..|all| - 1]
  {
    var m := |groups| - 1;
    var group := groups[m];
    var front := group[..|group| - 1];
    assert groups[m := front][..m] == groups[..m] && group == front + [group[|group| - 1]];
    assert all == (Flatten(groups[..m]) + front) + [group[|group| - 1]];
  }

  lemma WithoutLast(w: Widths, width: nat, indentation: string, words: seq<string>, rows: seq<seq<string>>)
    requires w(' ') == 1 && words != [] && rows != [] && rows[|rows| - 1] != [] && Arranges(w, width, indentation, words, rows)
    ensures var n, m := |words| - 1, |rows| - 1;
            var group := rows[m];
            && group[|group| - 1] == words[n]
            && Arranges(w, width, indentation, words[..n], rows[m := group[..|group| - 1]])
  {
    hide RowWidth, Join, Flatten;
    LastOfLast(words, rows);
    var group := rows[|rows| - 1];
    var front := group[..|group| - 1];
    assert group == front + [group[|group| - 1]];
    JoinWidth(w, indentation, front, group[|group| - 1]);
    NothingJoined(indentation);
  }

  lemma NothingJoined(indentation: string)
    ensures indentation + Join([]) == indentation
  {
  }

  lemma FewerGroups(w: Widths, width: nat, indentation: string, words: seq<string>, rows: seq<seq<string>>)
    requires rows != [] && rows[|rows| - 1] == [] && Arranges(w, width, indentation, words, rows)
    ensures Arranges(w, width, indentation, words, rows[..|rows| - 1])
  {
    hide RowWidth, Join;
    assert Flatten(rows[..|rows| - 1]) + [] == Flatten(rows[..|rows| - 1]);
  }

  lemma {:induction false} NeverAhead(w: Widths, width: nat, indentation: string, words: seq<string>, rows: seq<seq<string>>)
    requires w(' ') == 1 && words != [] && Text.Blank(indentation) && AllFit(w, width, indentation, words)
    requires Arranges(w, width, indentation, words, rows)
    ensures var at := AddWords(w, width, indentation, Wrap([], indentation), words);
            NotAhead(w, indentation, at, rows) && !Text.Blank(at.current)
    decreases |words| + |rows|
  {
    hide AddWord, RowWidth, Join, Text.Blank, Flatten, Arranges, Solid;
    ArrangedSomewhere(w, width, indentation, words, rows);
    var n, m := |words| - 1, |rows| - 1;
    var group, word := rows[m], words[n];
    if group == [] {
      FewerGroups(w, width, indentation, words, rows);
      NeverAhead(w, width, indentation, words, rows[..m]);
    } else {
      WithoutLast(w, width, indentation, words, rows);
      var front := group[..|group| - 1];
      assert group == front + [word];
      JoinWidth(w, indentation, front, word);
      if n == 0 {
        FirstWordAhead(w, width, indentation, words, rows);
      } else {
        NeverAhead(w, width, indentation, words[..n], rows[m := front]);
        FittingWord(w, width, indentation, AddWords(w, width, indentation, Wrap([], indentation), words[..n]), word);
        WideEnough(w, indentation, front);
        ArrangedFits(w, width, indentation, words, rows);
      }
    }
  }

  lemma ArrangedSomewhere(w: Widths, width: nat, indentation: string, words: seq<string>, rows: seq<seq<string>>)
    requires words != [] && Arranges(w, width, indentation, words, rows)
    ensures rows != []
  {
  }

  lemma ArrangedFits(w: Widths, width: nat, indentation: string, words: seq<string>, rows: seq<seq<string>>)
    requires rows != [] && Arranges(w, width, indentation, words, rows)
    ensures RowWidth(w, indentation + Join(rows[|rows| - 1])) <= width
  {
  }

  lemma WideEnough(w: Widths, lead: string, texts: seq<string>)
    ensures RowWidth(w, lead) <= RowWidth(w, lead + Join(texts))
  {
    hide RowWidth, Join;
    WidthAppend(w, lead, Join(texts));
  }

  lemma FirstWordAhead(w: Widths, width: nat, indentation: string, words: seq<string>, rows: seq<seq<string>>)
    requires w(' ') == 1 && |words| == 1 && Text.Blank(indentation) && AllFit(w, width, indentation, words)
    requires rows != [] && Arranges(w, width, indentation, words, rows) && rows[|rows| - 1] != []
    ensures var at := AddWords(w, width, indentation, Wrap([], indentation), words);
            NotAhead(w, indentation, at, rows) && !Text.Blank(at.current)
  {
    WithoutLast(w, width, indentation, words, rows);
    hide AddWord, RowWidth, Join, Text.Blank, Flatten, Arranges;
    var word, group := words[0], rows[|rows| - 1];
    assert words[..0] == [];
    FirstWord(w, width, indentation, word);
    WidthAppend(w, indentation, word);
    var front := group[..|group| - 1];
    assert group == front + [word];
    JoinWidth(w, indentation, front, word);
    WideEnough(w, indentation, front);
  }

  /** Where every word fits after the indentation, no arrangement of the words in order, with single blanks between them
      and rows that fit, has fewer rows. */
  lemma FewestRows(w: Widths, width: nat, line: string, rows: seq<seq<string>>)
    requires w(' ') == 1 && RowWidth(w, Indentation(line)) < width
    requires var words := Words(line[|Indentation(line)|..]);
             && words != [] && Arranges(w, width, Indentation(line), words, rows)
             && forall i :: 0 <= i < |words| ==> RowWidth(w, Indentation(line)) + RowWidth(w, words[i]) <= width
    ensures |WrapLine(w, width, line)| <= |rows|
  {
    hide Words, AddWords, RowWidth, Arranges;
    var indentation := Indentation(line);
    var words := Words(line[|indentation|..]);
    WordsAreInk(line[|indentation|..]);
    EmptyHasNoWords();
    NeverAhead(w, width, indentation, words, rows);
  }

  // ---------------------------------------------------------------- rows fit

  ghost predicate WrapFits(w: Widths, width: nat, at: Wrap) {
    RowWidth(w, at.current) <= width && forall i :: 0 <= i < |at.out| ==> RowWidth(w, at.out[i]) <= width
  }

  /** Each character of the words fits after the indentation. */
  ghost predicate Narrow(w: Widths, width: nat, indentation: string, word: string) {
    forall i :: 0 <= i < |word| ==> RowWidth(w, indentation) + w(word[i]) <= width
  }

  lemma CharFits(w: Widths, width: nat, indentation: string, at: Wrap, c: char)
    requires WrapFits(w, width, at) && RowWidth(w, indentation) + w(c) <= width
    ensures WrapFits(w, width, AppendChar(w, width, indentation, at, c))
  {
    RowWidthSnoc(w, at.current, c);
    RowWidthSnoc(w, indentation, c);
  }

  lemma {:induction false} AppendFits(w: Widths, width: nat, indentation: string, at: Wrap, word: string)
    requires WrapFits(w, width, at) && Narrow(w, width, indentation, word)
    ensures WrapFits(w, width, AppendWord(w, width, indentation, at, word))
  {
    hide RowWidth, WrapFits, AppendChar;
    if word != [] {
      var n := |word| - 1;
      AppendFits(w, width, indentation, at, word[..n]);
      CharFits(w, width, indentation, AppendWord(w, width, indentation, at, word[..n]), word[n]);
    }
  }

  lemma SeparatorWidth(w: Widths, current: string)
    requires w(' ') == 1
    ensures RowWidth(w, Separator(current)) == |Separator(current)|
  {
    RowWidthSnoc(w, "", ' ');
    assert "" + [' '] == " ";
  }

  lemma AddFits(w: Widths, width: nat, indentation: string, at: Wrap, word: string)
    requires WrapFits(w, width, at) && Narrow(w, width, indentation, word)
    requires w(' ') == 1 && RowWidth(w, indentation) < width
    ensures WrapFits(w, width, AddWord(w, width, indentation, at, word))
  {
    hide RowWidth, Separator, AppendWord;
    var separator := Separator(at.current);
    SeparatorWidth(w, at.current);
    if RowWidth(w, at.current) + |separator| + RowWidth(w, word) <= width {
      WidthAppend(w, at.current, separator);
      WidthAppend(w, at.current + separator, word);
    } else {
      AppendFits(w, width, indentation, Flush(indentation, at), word);
    }
  }

  lemma {:induction false} AddAllFit(w: Widths, width: nat, indentation: string, at: Wrap, words: seq<string>)
    requires WrapFits(w, width, at) && w(' ') == 1 && RowWidth(w, indentation) < width
    requires forall i :: 0 <= i < |words| ==> Narrow(w, width, indentation, words[i])
    ensures WrapFits(w, width, AddWords(w, width, indentation, at, words))
  {
    if words != [] {
      var n := |words| - 1;
      AddAllFit(w, width, indentation, at, words[..n]);
      AddFits(w, width, indentation, AddWords(w, width, indentation, at, words[..n]), words[n]);
    }
  }

  lemma {:induction false} WordCharsFromLine(s: string)
    ensures forall i, j :: 0 <= i < |Words(s)| && 0 <= j < |Words(s)[i]| ==> Words(s)[i][j] in s
  {
    if s != [] {
      WordCharsFromLine(s[..|s| - 1]);
      assert forall c :: c in s[..|s| - 1] ==> c in s;
    }
  }

  /** Where the indentation is narrower than the width and leaves room for the line's widest character,
      every row of the line fits. */
  lemma RowsFit(w: Widths, width: nat, line: string)
    requires w(' ') == 1 && RowWidth(w, Indentation(line)) < width
    requires forall c :: c in line ==> RowWidth(w, Indentation(line)) + w(c) <= width
    ensures forall i :: 0 <= i < |WrapLine(w, width, line)| ==> RowWidth(w, WrapLine(w, width, line)[i]) <= width
  {
    hide Words, AddWords, RowWidth, IndentLength;
    if line != [] {
      var indentation := Indentation(line);
      var content := line[|indentation|..];
      WordCharsFromLine(content);
      assert forall c :: c in content ==> c in line;
      forall i | 0 <= i < |Words(content)|
        ensures Narrow(w, width, indentation, Words(content)[i])
      {
        assert forall j :: 0 <= j < |Words(content)[i]| ==> Words(content)[i][j] in line;
      }
      AddAllFit(w, width, indentation, Wrap([], indentation), Words(content));
    }
  }

  // ---------------------------------------------------------------- exactly when the indentation is kept

  /** With nothing to continue with, the first row starts with the indentation and every later one with ink. */
  ghost predicate Headed(at: Wrap, indentation: string) {
    && (at.out == [] ==> indentation <= at.current)
    && (at.out != [] ==> indentation <= at.out[0] && (at.current == "" || !Text.Whitespace(at.current[0])))
    && forall i :: 0 < i < |at.out| ==> at.out[i] != "" && !Text.Whitespace(at.out[i][0])
  }

  lemma CharHeaded(w: Widths, width: nat, at: Wrap, indentation: string, c: char)
    requires Headed(at, indentation) && !Text.Whitespace(c)
    ensures Headed(AppendChar(w, width, "", at, c), indentation) && AppendChar(w, width, "", at, c).current != ""
  {
    hide Text.Whitespace, RowWidth;
    assert "" + [c] == [c];
  }

  lemma {:induction false} WordHeaded(w: Widths, width: nat, at: Wrap, indentation: string, word: string)
    requires Headed(at, indentation) && forall i :: 0 <= i < |word| ==> !Text.Whitespace(word[i])
    ensures Headed(AppendWord(w, width, "", at, word), indentation)
    ensures word != [] ==> AppendWord(w, width, "", at, word).current != ""
  {
    hide Text.Whitespace, RowWidth, Headed, AppendChar;
    if word != [] {
      var n := |word| - 1;
      WordHeaded(w, width, at, indentation, word[..n]);
      CharHeaded(w, width, AppendWord(w, width, "", at, word[..n]), indentation, word[n]);
    }
  }

  lemma JoinHeaded(at: Wrap, indentation: string, word: string)
    requires Headed(at, indentation) && Solid(word)
    ensures Headed(at.(current := at.current + Separator(at.current) + word), indentation)
  {
    hide Text.Whitespace;
    if at.current == "" {
      assert "" + "" + word == word;
    }
  }

  lemma FlushHeaded(at: Wrap, indentation: string)
    requires Headed(at, indentation)
    ensures Headed(Flush("", at), indentation)
  {
    hide Text.Whitespace;
  }

  lemma {:induction false} WordsHeaded(w: Widths, width: nat, indentation: string, words: seq<string>)
    requires indentation != "" && forall i :: 0 <= i < |words| ==> Solid(words[i])
    ensures var at := AddWords(w, width, "", Wrap([], indentation), words);
            Headed(at, indentation) && at.current != ""
  {
    hide Text.Whitespace, RowWidth, Headed, AppendWord, Separator, Flush;
    if words == [] {
      BareHeaded(indentation);
    } else {
      var n := |words| - 1;
      WordsHeaded(w, width, indentation, words[..n]);
      var at := AddWords(w, width, "", Wrap([], indentation), words[..n]);
      JoinHeaded(at, indentation, words[n]);
      FlushHeaded(at, indentation);
      WordHeaded(w, width, Flush("", at), indentation, words[n]);
    }
  }

  lemma BareHeaded(indentation: string)
    ensures Headed(Wrap([], indentation), indentation)
  {
  }

  ghost predicate AllIndented(w: Widths, width: nat, line: string) {
    forall i :: 0 <= i < |WrapLine(w, width, line)| ==> Indentation(line) <= WrapLine(w, width, line)[i]
  }

  lemma CharKeepsRows(w: Widths, width: nat, at: Wrap, c: char)
    ensures |AppendChar(w, width, "", at, c).out| >= |at.out|
  {
  }

  /** A word put on a row that is not empty either moves to a new row or stays whole, and then fits. */
  lemma {:induction false} WordMovesOrStays(w: Widths, width: nat, at: Wrap, word: string)
    requires at.current != ""
    ensures var r := AppendWord(w, width, "", at, word);
            |r.out| > |at.out|
            || (r == Wrap(at.out, at.current + word) && (word != [] ==> RowWidth(w, at.current) + RowWidth(w, word) <= width))
  {
    hide RowWidth;
    if word == [] {
      assert at.current + word == at.current;
    } else {
      var n := |word| - 1;
      var front, c := word[..n], word[n];
      assert word == front + [c];
      WordMovesOrStays(w, width, at, front);
      var r := AppendWord(w, width, "", at, front);
      CharKeepsRows(w, width, r, c);
      WidthAppend(w, at.current, front);
      RowWidthSnoc(w, front, c);
      Assoc(at.current, front, [c]);
    }
  }

  /** The first word stays on the indentation's row exactly when that row is just full and the word has no width. */
  lemma FirstWordStaysIff(w: Widths, width: nat, indentation: string, word: string)
    requires Text.Blank(indentation) && indentation != "" && RowWidth(w, indentation) >= width && Solid(word)
    ensures var at := AddWord(w, width, "", Wrap([], indentation), word);
            && (at.out == [] <==> RowWidth(w, indentation) == width && RowWidth(w, word) == 0)
            && (at.out == [] ==> at.current == indentation + word)
  {
    hide RowWidth, AppendWord, Text.Blank;
    WordMovesOrStays(w, width, Wrap([], indentation), word);
    assert indentation + "" + word == indentation + word;
  }

  /** A further word always moves on. */
  lemma NextWordMoves(w: Widths, width: nat, current: string, word: string)
    requires !Text.Blank(current) && RowWidth(w, current) >= width
    ensures AddWord(w, width, "", Wrap([], current), word).out != []
  {
    hide RowWidth, AppendWord, Text.Blank;
    assert [] + [current] == [current];
    WordKeepsRows(w, width, Wrap([current], ""), word);
  }

  lemma {:induction false} WordKeepsRows(w: Widths, width: nat, at: Wrap, word: string)
    ensures |AppendWord(w, width, "", at, word).out| >= |at.out|
  {
    hide AppendChar;
    if word != [] {
      var n := |word| - 1;
      WordKeepsRows(w, width, at, word[..n]);
      CharKeepsRows(w, width, AppendWord(w, width, "", at, word[..n]), word[n]);
    }
  }

  lemma AddKeepsRows(w: Widths, width: nat, at: Wrap, word: string)
    ensures |AddWord(w, width, "", at, word).out| >= |at.out|
  {
    hide RowWidth, AppendWord, Text.Blank;
    WordKeepsRows(w, width, Flush("", at), word);
  }

  /** The words leave the first row alone: there are none, or one without width on a row that is just full. */
  predicate OnOneRow(w: Widths, width: nat, indentation: string, words: seq<string>) {
    words == [] || (RowWidth(w, indentation) == width && |words| == 1 && RowWidth(w, words[0]) == 0)
  }

  lemma {:induction false} OneRowIff(w: Widths, width: nat, indentation: string, words: seq<string>)
    requires Text.Blank(indentation) && indentation != "" && RowWidth(w, indentation) >= width
    requires forall i :: 0 <= i < |words| ==> Solid(words[i])
    ensures var at := AddWords(w, width, "", Wrap([], indentation), words);
            && (at.out == [] <==> OnOneRow(w, width, indentation, words))
            && (at.out == [] && words != [] ==> at.current == indentation + words[0])
  {
    hide RowWidth, AddWord, Text.Blank, Solid;
    if words != [] {
      var n := |words| - 1;
      OneRowIff(w, width, indentation, words[..n]);
      var at := AddWords(w, width, "", Wrap([], indentation), words[..n]);
      AddKeepsRows(w, width, at, words[n]);
      if n == 0 {
        assert at == Wrap([], indentation);
        FirstWordStaysIff(w, width, indentation, words[0]);
      } else if at.out == [] {
        WordIsNotBlank(indentation, words[0]);
        WidthAppend(w, indentation, words[0]);
        NextWordMoves(w, width, indentation + words[0], words[n]);
      }
    }
  }

  lemma WideIndentation(w: Widths, width: nat, line: string)
    requires Indentation(line) != "" && RowWidth(w, Indentation(line)) >= width
    ensures AllIndented(w, width, line) <==> OnOneRow(w, width, Indentation(line), Words(line[|Indentation(line)|..]))
  {
    hide Words, AddWords, RowWidth, OnOneRow;
    var indentation := Indentation(line);
    var words := Words(line[|indentation|..]);
    WordsAreInk(line[|indentation|..]);
    WordsHeaded(w, width, indentation, words);
    OneRowIff(w, width, indentation, words);
    var rows := WrapLine(w, width, line);
    assert rows == Finished(AddWords(w, width, "", Wrap([], indentation), words));
    if |rows| > 1 {
      assert Text.Whitespace(indentation[0]) && !Text.Whitespace(rows[1][0]);
    }
  }

  lemma NarrowIndentation(w: Widths, width: nat, line: string)
    requires Indentation(line) != "" && RowWidth(w, Indentation(line)) < width
    ensures AllIndented(w, width, line)
  {
    hide WrapLine, RowWidth, IndentLength, Words, Tidy;
    if Words(line[|Indentation(line)|..]) == [] {
      NoWordsRow(w, width, line);
    } else {
      var groups := RowsKeepIndentation(w, width, line);
    }
  }

  /** Every row of a line starts with its indentation exactly when there is none, or it is narrower than the width, or no
      word follows it, or one word without width follows an indentation as wide as the row. */
  lemma IndentationKeptIff(w: Widths, width: nat, line: string)
    ensures AllIndented(w, width, line) <==>
            Indentation(line) == "" || RowWidth(w, Indentation(line)) < width
            || OnOneRow(w, width, Indentation(line), Words(line[|Indentation(line)|..]))
  {
    hide WrapLine, RowWidth, IndentLength, OnOneRow, Words;
    if Indentation(line) != "" {
      if RowWidth(w, Indentation(line)) < width {
        NarrowIndentation(w, width, line);
      } else {
        WideIndentation(w, width, line);
      }
    }
  }

  /** A combining accent takes no column. */
  const ACCENT: char := '\U{301}'

  lemma AccentWords()
    ensures var line := [' ', ACCENT, ' ', ACCENT];
            Indentation(line) == " " && Words(line[1..]) == [[ACCENT], [ACCENT]]
  {
    var line := [' ', ACCENT, ' ', ACCENT];
    var rest := [ACCENT, ' ', ACCENT];
    assert line[1..] == rest && IndentLength(rest) == 0 && IndentLength(line) == 1;
    assert rest[..2] == [ACCENT, ' '] && [ACCENT, ' '][..1] == [ACCENT] && [ACCENT][..0] == [];
    assert Words([ACCENT]) == [[ACCENT]];
    assert Words([ACCENT, ' ']) == [[ACCENT]];
  }

  lemma AccentWidths(w: Widths)
    requires w(' ') == 1 && w(ACCENT) == 0
    ensures RowWidth(w, " ") == 1 && RowWidth(w, [ACCENT]) == 0 && RowWidth(w, [' ', ACCENT]) == 1
  {
    RowWidthSnoc(w, "", ' ');
    RowWidthSnoc(w, "", ACCENT);
    RowWidthSnoc(w, " ", ACCENT);
    assert "" + [' '] == " " && "" + [ACCENT] == [ACCENT] && " " + [ACCENT] == [' ', ACCENT];
  }

  lemma FirstAccent(w: Widths)
    requires w(' ') == 1 && w(ACCENT) == 0
    ensures AddWord(w, 1, "", Wrap([], " "), [ACCENT]) == Wrap([], [' ', ACCENT])
  {
    hide RowWidth;
    AccentWidths(w);
    assert Text.Blank(" ") && " " + "" + [ACCENT] == [' ', ACCENT];
  }

  lemma SecondAccent(w: Widths)
    requires w(' ') == 1 && w(ACCENT) == 0
    ensures AddWord(w, 1, "", Wrap([], [' ', ACCENT]), [ACCENT]) == Wrap([[' ', ACCENT]], [ACCENT])
  {
    hide RowWidth;
    AccentWidths(w);
    var first := [' ', ACCENT];
    assert Separator(first) == " " by { assert first[1] == ACCENT; }
    assert Flush("", Wrap([], first)) == Wrap([first], "") by { assert [] + [first] == [first]; }
    assert AppendWord(w, 1, "", Wrap([first], ""), [ACCENT]) == Wrap([first], [ACCENT]) by {
      assert [ACCENT][..0] == "" && "" + [ACCENT] == [ACCENT];
    }
  }

  /** An indentation exactly as wide as the row is dropped from the rows that follow, even where every word would fit
      after it: two words of one combining accent each. */
  lemma EdgeIndentationIsDropped(w: Widths)
    requires w(' ') == 1 && w(ACCENT) == 0
    ensures WrapLine(w, 1, [' ', ACCENT, ' ', ACCENT]) == [[' ', ACCENT], [ACCENT]]
  {
    hide RowWidth, Words, IndentLength, AddWord;
    AccentWords();
    AccentWidths(w);
    FirstAccent(w);
    SecondAccent(w);
    var one: seq<string> := [[ACCENT]];
    var start, words := Wrap([], " "), [[ACCENT], [ACCENT]];
    assert words[..1] == one && one[..0] == [];
    assert AddWords(w, 1, "", start, []) == start;
    assert AddWords(w, 1, "", start, one) == Wrap([], [' ', ACCENT]);
    assert AddWords(w, 1, "", start, words) == Wrap([[' ', ACCENT]], [ACCENT]);
  }
}
