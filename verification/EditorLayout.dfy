/** Row breaking in the composer and the cursor locator that must agree with it.  The display width of a
    string is the sum of the widths of its characters. */
module EditorLayout {
  import Text
  import Utf8

  /** Display width of each character. */
  type Widths = char -> nat

  function RowWidth(w: Widths, row: string): nat {
    if row == [] then 0 else RowWidth(w, row[..|row| - 1]) + w(row[|row| - 1])
  }

  /** The rows so far and the width of the last one. */
  datatype Layout = Layout(rows: seq<string>, column: nat)

  function Place(w: Widths, width: nat, at: Layout, c: char): Layout
    requires at.rows != []
  {
    var n := |at.rows| - 1;
    if c == '\n' then Layout(at.rows + [""], 0)
    else if at.column > 0 && at.column + w(c) > width then Layout(at.rows + [[c]], w(c))
    else Layout(at.rows[n := at.rows[n] + [c]], at.column + w(c))
  }

  function Lay(w: Widths, width: nat, value: string): (at: Layout)
    ensures at.rows != []
  {
    if value == [] then Layout([""], 0)
    else Place(w, width, Lay(w, width, value[..|value| - 1]), value[|value| - 1])
  }

  /** `editor_lines`. */
  method EditorLines(w: Widths, value: string, width: nat) returns (lines: seq<string>)
    ensures lines == Lay(w, width, value).rows
  {
    lines := [""];
    var column: nat := 0;
    for i := 0 to |value|
      invariant Layout(lines, column) == Lay(w, width, value[..i])
    {
      var c := value[i];
      assert value[..i + 1][..i] == value[..i];
      if c == '\n' {
        lines, column := lines + [""], 0;
        continue;
      }
      assert "" + [c] == [c] && (lines + [""])[|lines| := [c]] == lines + [[c]];
      if column > 0 && column + w(c) > width {
        lines, column := lines + [""], 0;
      }
      lines := lines[|lines| - 1 := lines[|lines| - 1] + [c]];
      column := column + w(c);
    }
    assert value[..|value|] == value;
  }

  // ---------------------------------------------------------------- a breaking of the text

  /** `rows` breaks `text`: its newlines each end a row, and other row ends fall between characters. */
  ghost predicate Breaks(text: string, rows: seq<string>)
    decreases |rows|
  {
    rows != [] && '\n' !in rows[0]
    && if |rows| == 1 then text == rows[0]
       else rows[0] <= text
            && var rest := text[|rows[0]|..];
               (rest != [] && rest[0] == '\n' && Breaks(rest[1..], rows[1..])) || Breaks(rest, rows[1..])
  }

  ghost predicate Fits(w: Widths, rows: seq<string>, width: nat) {
    forall i :: 0 <= i < |rows| ==> RowWidth(w, rows[i]) <= width
  }

  ghost predicate CharsFit(w: Widths, text: string, width: nat) {
    forall i :: 0 <= i < |text| && text[i] != '\n' ==> w(text[i]) <= width
  }

  lemma {:induction false} BreaksNewline(text: string, rows: seq<string>)
    requires Breaks(text, rows)
    ensures Breaks(text + ['\n'], rows + [""])
    decreases |rows|
  {
    var more, longer := rows + [""], text + ['\n'];
    assert more[0] == rows[0] && more[1..] == rows[1..] + [""];
    if |rows| == 1 {
      assert longer[|rows[0]|..] == ['\n'];
      assert ['\n'][1..] == [] && more[1..] == [""];
      assert Breaks("", [""]);
    } else {
      var rest := text[|rows[0]|..];
      assert longer[|rows[0]|..] == rest + ['\n'];
      if rest != [] && rest[0] == '\n' && Breaks(rest[1..], rows[1..]) {
        BreaksNewline(rest[1..], rows[1..]);
        assert (rest + ['\n'])[1..] == rest[1..] + ['\n'];
      } else {
        BreaksNewline(rest, rows[1..]);
      }
    }
  }

  lemma {:induction false} BreaksSoft(text: string, rows: seq<string>)
    requires Breaks(text, rows)
    ensures Breaks(text, rows + [""])
    decreases |rows|
  {
    var more := rows + [""];
    assert more[0] == rows[0] && more[1..] == rows[1..] + [""];
    if |rows| == 1 {
      assert text[|rows[0]|..] == [] && more[1..] == [""];
      assert Breaks("", [""]);
    } else {
      var rest := text[|rows[0]|..];
      if rest != [] && rest[0] == '\n' && Breaks(rest[1..], rows[1..]) {
        BreaksSoft(rest[1..], rows[1..]);
      } else {
        BreaksSoft(rest, rows[1..]);
      }
    }
  }

  lemma BreaksInto(text: string, rows: seq<string>) returns (mark: string, rest: string)
    requires Breaks(text, rows) && |rows| > 1
    ensures '\n' !in rows[0] && (mark == "\n" || mark == "")
    ensures text == rows[0] + mark + rest && Breaks(rest, rows[1..])
  {
    rest := text[|rows[0]|..];
    mark := "";
    assert text == rows[0] + mark + rest;
    if rest != [] && rest[0] == '\n' && Breaks(rest[1..], rows[1..]) {
      assert rest == "\n" + rest[1..];
      mark, rest := "\n", rest[1..];
    }
  }

  lemma BreaksFrom(row: string, mark: string, rest: string, rows: seq<string>)
    requires '\n' !in row && (mark == "\n" || mark == "") && Breaks(rest, rows)
    ensures Breaks(row + mark + rest, [row] + rows)
  {
    var text, all := row + mark + rest, [row] + rows;
    assert all[1..] == rows && row <= text;
    var tail := text[|row|..];
    assert tail == mark + rest;
    if mark == "\n" {
      assert tail[0] == '\n' && tail[1..] == rest;
    } else {
      assert tail == rest;
    }
  }

  lemma Longer(front: string, rest: string, c: char)
    ensures front + rest + [c] == front + (rest + [c])
  {
  }

  lemma {:induction false} BreaksExtend(text: string, rows: seq<string>, c: char)
    requires Breaks(text, rows) && c != '\n'
    ensures Breaks(text + [c], rows[|rows| - 1 := rows[|rows| - 1] + [c]])
    decreases |rows|
  {
    assert rows != [];
    hide Breaks;
    var n := |rows| - 1;
    if n == 0 {
    } else {
      var mark, rest := BreaksInto(text, rows);
      BreaksExtend(rest, rows[1..], c);
      BreaksFrom(rows[0], mark, rest + [c], rows[1..][n - 1 := rows[1..][n - 1] + [c]]);
      Longer(rows[0] + mark, rest, c);
    }
  }

  /** The rows are a breaking of the text, the column is the width of the last row, and if every
      character fits then so does every row. */
  lemma {:induction false} LayIsBreaking(w: Widths, width: nat, value: string)
    ensures Breaks(value, Lay(w, width, value).rows)
    ensures var at := Lay(w, width, value);
            at.column == RowWidth(w, at.rows[|at.rows| - 1])
    ensures CharsFit(w, value, width) ==> Fits(w, Lay(w, width, value).rows, width)
  {
    hide Breaks;
    if value == [] {
      assert Lay(w, width, value).rows == [""];
      OneEmptyRow();
    } else {
      var n := |value| - 1;
      var front, c := value[..n], value[n];
      LayIsBreaking(w, width, front);
      PlaceBreaks(w, width, front, Lay(w, width, front), c);
      assert value == front + [c];
      assert CharsFit(w, value, width) ==> CharsFit(w, front, width);
    }
  }

  lemma OneEmptyRow()
    ensures Breaks("", [""])
  {
  }

  lemma PlaceBreaks(w: Widths, width: nat, text: string, at: Layout, c: char)
    requires at.rows != [] && Breaks(text, at.rows)
    ensures Breaks(text + [c], Place(w, width, at, c).rows)
  {
    hide Breaks;
    var next, n := Place(w, width, at, c), |at.rows| - 1;
    if c == '\n' {
      BreaksNewline(text, at.rows);
    } else if at.column > 0 && at.column + w(c) > width {
      BreaksSoft(text, at.rows);
      BreaksExtend(text, at.rows + [""], c);
      assert "" + [c] == [c];
      assert (at.rows + [""])[n + 1 := [c]] == next.rows;
    } else {
      BreaksExtend(text, at.rows, c);
    }
  }

  lemma RowWidthSnoc(w: Widths, row: string, c: char)
    ensures RowWidth(w, row + [c]) == RowWidth(w, row) + w(c)
  {
    assert (row + [c])[..|row|] == row;
  }

  // ---------------------------------------------------------------- no breaking has fewer rows

  /** Row ends that laying out `text` adds when it starts at `column`. */
  function Extra(w: Widths, width: nat, text: string, column: nat): nat {
    if text == [] then 0
    else if text[0] == '\n' then 1 + Extra(w, width, text[1..], 0)
    else if column > 0 && column + w(text[0]) > width then 1 + Extra(w, width, text[1..], w(text[0]))
    else Extra(w, width, text[1..], column + w(text[0]))
  }

  lemma {:induction false} ExtraSnoc(w: Widths, width: nat, text: string, column: nat, c: char)
    ensures Extra(w, width, text + [c], column)
         == Extra(w, width, text, column)
            + (if c == '\n' || (End(w, width, text, column) > 0 && End(w, width, text, column) + w(c) > width) then 1 else 0)
  {
    if text == [] {
      assert text + [c] == [c];
    } else {
      assert (text + [c])[0] == text[0] && (text + [c])[1..] == text[1..] + [c];
      ExtraSnoc(w, width, text[1..], Next(w, width, text[0], column), c);
    }
  }

  function Next(w: Widths, width: nat, c: char, column: nat): nat {
    if c == '\n' then 0 else if column > 0 && column + w(c) > width then w(c) else column + w(c)
  }

  function End(w: Widths, width: nat, text: string, column: nat): nat {
    if text == [] then column else End(w, width, text[1..], Next(w, width, text[0], column))
  }

  lemma {:induction false} EndSnoc(w: Widths, width: nat, text: string, column: nat, c: char)
    ensures End(w, width, text + [c], column) == Next(w, width, c, End(w, width, text, column))
  {
    if text == [] {
      assert text + [c] == [c] && [c][1..] == [];
    } else {
      assert (text + [c])[0] == text[0] && (text + [c])[1..] == text[1..] + [c];
      EndSnoc(w, width, text[1..], Next(w, width, text[0], column), c);
    }
  }

  lemma {:induction false} RowsCounted(w: Widths, width: nat, value: string)
    ensures |Lay(w, width, value).rows| == 1 + Extra(w, width, value, 0)
    ensures Lay(w, width, value).column == End(w, width, value, 0)
  {
    if value != [] {
      var n := |value| - 1;
      RowsCounted(w, width, value[..n]);
      assert value == value[..n] + [value[n]];
      ExtraSnoc(w, width, value[..n], 0, value[n]);
      EndSnoc(w, width, value[..n], 0, value[n]);
    }
  }

  /** Starting further right costs no fewer and at most one more row. */
  lemma {:induction false} ColumnMatters(w: Widths, width: nat, text: string, a: nat, b: nat)
    requires a <= b <= width && CharsFit(w, text, width)
    ensures Extra(w, width, text, a) <= Extra(w, width, text, b) <= Extra(w, width, text, a) + 1
  {
    if text != [] && text[0] != '\n' {
      var x, rest := w(text[0]), text[1..];
      assert CharsFit(w, rest, width) by {
        assert forall i :: 0 <= i < |rest| ==> rest[i] == text[i + 1];
      }
      if b + x <= width {
        ColumnMatters(w, width, rest, a + x, b + x);
      } else if a + x <= width {
        ColumnMatters(w, width, rest, x, a + x);
      }
    }
  }

  lemma {:induction false} RowWidthFront(w: Widths, row: string)
    requires row != []
    ensures RowWidth(w, row) == w(row[0]) + RowWidth(w, row[1..])
  {
    var n := |row| - 1;
    if n > 0 {
      RowWidthFront(w, row[..n]);
      assert row[..n][1..] == row[1..][..n - 1];
    }
  }

  /** Any breaking whose first row leaves room for `column` more cells has at least the greedy rows. */
  lemma {:induction false} GreedyAhead(w: Widths, width: nat, text: string, column: nat, rows: seq<string>)
    requires CharsFit(w, text, width) && Breaks(text, rows) && Fits(w, rows, width)
    requires column + RowWidth(w, rows[0]) <= width
    ensures 1 + Extra(w, width, text, column) <= |rows|
    decreases |rows|, |text|
  {
    if text != [] {
      var rest := text[1..];
      assert CharsFit(w, rest, width) by {
        assert forall i :: 0 <= i < |rest| ==> rest[i] == text[i + 1];
      }
      if rows[0] == [] {
        if text[0] == '\n' && Breaks(rest, rows[1..]) {
          GreedyAhead(w, width, rest, 0, rows[1..]);
        } else {
          GreedyAhead(w, width, text, 0, rows[1..]);
          ColumnMatters(w, width, text, 0, column);
        }
      } else {
        var shorter := [rows[0][1..]] + rows[1..];
        DropFirstChar(text, rows);
        RowWidthFront(w, rows[0]);
        assert text[0] == rows[0][0];
        GreedyAhead(w, width, rest, column + w(text[0]), shorter);
      }
    }
  }

  lemma DropFirstChar(text: string, rows: seq<string>)
    requires Breaks(text, rows) && rows[0] != []
    ensures text != [] && text[0] == rows[0][0] != '\n'
    ensures Breaks(text[1..], [rows[0][1..]] + rows[1..])
  {
    var shorter := [rows[0][1..]] + rows[1..];
    assert rows[0][0] in rows[0];
    assert shorter[1..] == rows[1..];
    if |rows| > 1 {
      assert text[1..][|rows[0]| - 1..] == text[|rows[0]|..];
      assert text[1..][..|rows[0]| - 1] == rows[0][1..];
    }
  }

  /** Greedy breaking is optimal: when every character fits, no breaking that respects newlines and the
      width has fewer rows. */
  lemma GreedyIsOptimal(w: Widths, width: nat, text: string, rows: seq<string>)
    requires CharsFit(w, text, width) && Breaks(text, rows) && Fits(w, rows, width)
    ensures |Lay(w, width, text).rows| <= |rows|
  {
    RowsCounted(w, width, text);
    GreedyAhead(w, width, text, 0, rows);
  }

  // ---------------------------------------------------------------- the cursor

  /** The characters that start before byte `cursor`. */
  function CharsBefore(value: string, cursor: nat): (k: nat)
    ensures k <= |value|
  {
    if value == [] then 0
    else
      var n := |value| - 1;
      if |Utf8.Encode(value[..n])| < cursor then |value| else CharsBefore(value[..n], cursor)
  }

  /** `editor_cursor`. */
  method EditorCursor(w: Widths, value: string, cursor: nat, width: nat) returns (row: nat, column: nat)
    ensures var at := Lay(w, width, value[..CharsBefore(value, cursor)]);
            row == |at.rows| - 1 && column == at.column == RowWidth(w, at.rows[row])
  {
    row, column := 0, 0;
    var index, i := 0, 0;
    while i < |value| && index < cursor
      invariant 0 <= i <= |value| && index == |Utf8.Encode(value[..i])|
      invariant i > 0 ==> |Utf8.Encode(value[..i - 1])| < cursor
      invariant var at := Lay(w, width, value[..i]);
                row == |at.rows| - 1 && column == at.column
    {
      var c := value[i];
      assert value[..i + 1][..i] == value[..i];
      index := index + |Utf8.EncodeChar(c)|;
      i := i + 1;
      if c == '\n' {
        row, column := row + 1, 0;
        continue;
      }
      if column > 0 && column + w(c) > width {
        row, column := row + 1, 0;
      }
      column := column + w(c);
    }
    CountIs(value, cursor, i);
    LayIsBreaking(w, width, value[..i]);
  }

  lemma {:induction false} CountIs(value: string, cursor: nat, i: nat)
    requires i <= |value| && (i > 0 ==> |Utf8.Encode(value[..i - 1])| < cursor)
    requires i < |value| ==> |Utf8.Encode(value[..i])| >= cursor
    ensures CharsBefore(value, cursor) == i
  {
    hide Utf8.Encode;
    var n := |value| - 1;
    if i < |value| {
      Utf8.PrefixShorter(value, i, n);
      assert value[..n][..i] == value[..i];
      if i > 0 {
        assert value[..n][..i - 1] == value[..i - 1];
      }
      CountIs(value[..n], cursor, i);
    } else if i > 0 {
      assert value[..n] == value[..i - 1];
    }
  }

  /** At a character boundary the locator measures exactly the text before the cursor. */
  lemma BoundaryCursor(value: string, k: nat)
    requires k <= |value|
    ensures CharsBefore(value, |Utf8.Encode(value[..k])|) == k
  {
    if k > 0 {
      Utf8.PrefixShorter(value, k - 1, k);
    }
    CountIs(value, |Utf8.Encode(value[..k])|, k);
  }

  /** The layout of the text before the cursor is an initial part of the whole layout. */
  ghost predicate InitialPart(a: seq<string>, b: seq<string>) {
    1 <= |a| <= |b| && a[..|a| - 1] == b[..|a| - 1] && a[|a| - 1] <= b[|a| - 1]
  }

  lemma {:induction false} PrefixLayout(w: Widths, width: nat, value: string, k: nat)
    requires k <= |value|
    ensures InitialPart(Lay(w, width, value[..k]).rows, Lay(w, width, value).rows)
  {
    if k == |value| {
      assert value[..k] == value;
    } else {
      var n := |value| - 1;
      assert value[..n][..k] == value[..k];
      PrefixLayout(w, width, value[..n], k);
    }
  }

  // ---------------------------------------------------------------- what the screen shows

  function Safe(c: char): char {
    if Text.Control(c) && c != '\n' && c != '\t' then '\U{FFFD}' else c
  }

  /** `terminal_safe`: control characters are drawn as a replacement character. */
  function TerminalSafe(value: string): (safe: string)
    ensures |safe| == |value|
  {
    if value == [] then [] else TerminalSafe(value[..|value| - 1]) + [Safe(value[|value| - 1])]
  }

  /** What is drawn has no control character but newlines and tabs, and is otherwise what was written, with a replacement
      for each of the others. */
  lemma {:induction false} SafeIsExact(value: string, i: nat)
    requires i < |value|
    ensures var c, d := value[i], TerminalSafe(value)[i];
            && (Text.Control(d) ==> d == '\n' || d == '\t')
            && (!Text.Control(c) || c == '\n' || c == '\t' ==> d == c)
            && (Text.Control(c) && c != '\n' && c != '\t' ==> d == '\U{FFFD}')
  {
    if i < |value| - 1 {
      SafeIsExact(value[..|value| - 1], i);
    }
  }

  /** How many bytes replacing a character adds: its replacement takes three, an ASCII control one, any other two. */
  function Growth(c: char): nat {
    if Safe(c) == c then 0 else if c < '\U{80}' then 2 else 1
  }

  function TotalGrowth(s: string): nat {
    if s == [] then 0 else TotalGrowth(s[..|s| - 1]) + Growth(s[|s| - 1])
  }

  lemma SafeLength(c: char)
    ensures |Utf8.EncodeChar(Safe(c))| == |Utf8.EncodeChar(c)| + Growth(c)
  {
  }

  lemma EncodeLast(s: string)
    requires s != []
    ensures |Utf8.Encode(s)| == |Utf8.Encode(s[..|s| - 1])| + |Utf8.EncodeChar(s[|s| - 1])|
  {
  }

  lemma {:induction false} SafePrefix(value: string, k: nat)
    requires k <= |value|
    ensures TerminalSafe(value)[..k] == TerminalSafe(value[..k])
    ensures |Utf8.Encode(TerminalSafe(value)[..k])| == |Utf8.Encode(value[..k])| + TotalGrowth(value[..k])
  {
    hide Utf8.Encode, Utf8.EncodeChar, Safe, Growth;
    if value != [] {
      var n := |value| - 1;
      var safe := TerminalSafe(value);
      assert safe[..n] == TerminalSafe(value[..n]) && safe == safe[..n] + [Safe(value[n])];
      if k < |value| {
        SafePrefix(value[..n], k);
        assert value[..n][..k] == value[..k] && safe[..k] == safe[..n][..k];
      } else {
        SafePrefix(value[..n], n);
        assert value[..k] == value && value[..n][..n] == value[..n];
        assert safe[..k] == safe && safe[..n][..n] == safe[..n];
        EncodeLast(value);
        EncodeLast(safe);
        SafeLength(value[n]);
      }
    }
  }

  /** The composer's cursor is a byte offset into the raw text, yet it is looked up in the sanitized one,
      which is longer where control characters were replaced.  The lookup measures the right characters
      exactly when all that replacement adds before the last of them is less than its own length; otherwise
      it measures too few. */
  lemma ScreenCursorExact(value: string, k: nat)
    requires k <= |value|
    ensures var safe, cursor := TerminalSafe(value), |Utf8.Encode(value[..k])|;
            && CharsBefore(safe, cursor) <= k
            && (CharsBefore(safe, cursor) == k <==>
                k == 0 || TotalGrowth(value[..k - 1]) < |Utf8.EncodeChar(value[k - 1])|)
  {
    hide Utf8.Encode, Utf8.EncodeChar, TerminalSafe, CharsBefore, TotalGrowth;
    var safe, cursor := TerminalSafe(value), |Utf8.Encode(value[..k])|;
    SafePrefix(value, k);
    if k > 0 {
      SafePrefix(value, k - 1);
      EncodeLast(value[..k]);
      assert value[..k][..k - 1] == value[..k - 1];
    }
    CharsBeforeBound(safe, cursor, k);
    if k == 0 || |Utf8.Encode(safe[..k - 1])| < cursor {
      CountIs(safe, cursor, k);
    } else {
      CharsBeforeBound(safe, cursor, k - 1);
    }
  }

  lemma {:induction false} CharsBeforeBound(value: string, cursor: nat, k: nat)
    requires k <= |value| && (k < |value| ==> |Utf8.Encode(value[..k])| >= cursor)
    ensures CharsBefore(value, cursor) <= k
  {
    if k < |value| {
      var n := |value| - 1;
      Utf8.PrefixShorter(value, k, n);
      assert value[..n][..k] == value[..k];
      CharsBeforeBound(value[..n], cursor, k);
    }
  }

  /** In particular it is right whenever nothing before the last character was replaced. */
  lemma ScreenCursorWithoutControls(value: string, k: nat)
    requires k <= |value| && forall i :: 0 <= i < k - 1 ==> Safe(value[i]) == value[i]
    ensures CharsBefore(TerminalSafe(value), |Utf8.Encode(value[..k])|) == k
  {
    hide Utf8.Encode, TerminalSafe, CharsBefore, Utf8.EncodeChar;
    ScreenCursorExact(value, k);
    if k > 0 {
      NoGrowth(value[..k - 1]);
    }
  }

  lemma {:induction false} NoGrowth(value: string)
    requires forall i :: 0 <= i < |value| ==> Safe(value[i]) == value[i]
    ensures TotalGrowth(value) == 0
  {
    hide Safe;
    if value != [] {
      NoGrowth(value[..|value| - 1]);
    }
  }

  /** One control character before an ASCII one is enough: the cursor after both is drawn after the first. */
  lemma ControlMisplacesCursor()
    ensures CharsBefore(TerminalSafe("\U{1}a"), |Utf8.Encode("\U{1}a")|) < 2
  {
    hide Utf8.Encode, TerminalSafe, CharsBefore;
    var value := "\U{1}a";
    ScreenCursorExact(value, 2);
    assert value[..2] == value && value[..1] == ['\U{1}'];
    assert TotalGrowth(['\U{1}']) == 2 by { assert ['\U{1}'][..0] == []; }
  }
}
