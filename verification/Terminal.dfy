/** A terminal screen fed byte by byte, as far as the canvas of the program uses
    one: printing with the deferred wrap at the last column, carriage return,
    line feed with scrolling into a bounded history, and the control functions
    CUP, CNL and EL of ECMA-48 (sections 8.3.21, 8.3.12 and 8.3.41).  One
    character fills one cell. */
module Terminal {
  import opened Text

  const ESC: char := '\U{1B}'

  /** History rows kept; older rows are dropped (`TermView::SCROLLBACK_LINES`). */
  const SCROLLBACK_LINES: nat := 10_000

  /** Control-sequence parameters saturate at 16 bits. */
  const PARAM_MAX: nat := 65_535

  type Row = string

  datatype Parser = Ground | Escape | Csi(text: string)

  datatype Term = Term(
    cols: nat,
    history: seq<Row>,
    screen: seq<Row>,
    row: nat,
    col: nat,
    wrapPending: bool,
    cursorShown: bool,
    parser: Parser)
  {
    predicate Valid() {
      && 0 < cols
      && row < |screen|
      && col < cols
      && (wrapPending ==> col == cols - 1)
      && forall i :: 0 <= i < |screen| ==> |screen[i]| == cols
    }
  }

  function Min(a: nat, b: nat): nat { if a < b then a else b }

  function Blank(n: nat): (r: Row)
    ensures |r| == n && forall i :: 0 <= i < n ==> r[i] == ' '
  {
    if n == 0 then "" else Blank(n - 1) + " "
  }

  function BlankRows(n: nat, cols: nat): (rs: seq<Row>)
    ensures |rs| == n && forall i :: 0 <= i < n ==> rs[i] == Blank(cols)
  {
    if n == 0 then [] else BlankRows(n - 1, cols) + [Blank(cols)]
  }

  function Fresh(cols: nat, rows: nat): (t: Term)
    requires 0 < cols && 0 < rows
    ensures t.Valid()
  {
    Term(cols, [], BlankRows(rows, cols), 0, 0, false, true, Ground)
  }

  /** The bounded history: the oldest rows fall off. */
  function KeepLast(h: seq<Row>): seq<Row> {
    if |h| > SCROLLBACK_LINES then KeepLast(h[1..]) else h
  }

  lemma {:induction false} KeepLastIs(h: seq<Row>)
    ensures KeepLast(h) == h[|h| - Min(|h|, SCROLLBACK_LINES)..]
  {
    if |h| > SCROLLBACK_LINES {
      KeepLastIs(h[1..]);
    }
  }

  predicate Printable(c: char) { ' ' <= c && c != '\U{7F}' }

  // ---- the functions a byte can invoke ----

  function CarriageReturn(t: Term): Term
    requires t.Valid()
  {
    t.(col := 0, wrapPending := false)
  }

  function LineFeed(t: Term): (u: Term)
    requires t.Valid()
    ensures u.Valid() && |u.screen| == |t.screen| && u.cols == t.cols && u.parser == t.parser
  {
    if t.row + 1 == |t.screen|
    then t.(history := KeepLast(t.history + [t.screen[0]]),
            screen := t.screen[1..] + [Blank(t.cols)])
    else t.(row := t.row + 1)
  }

  function PutCell(t: Term, c: char): (u: Term)
    requires t.Valid()
    ensures u.Valid() && |u.screen| == |t.screen| && u.cols == t.cols && u.parser == t.parser
  {
    t.(screen := t.screen[t.row := t.screen[t.row][t.col := c]],
       col := if t.col + 1 < t.cols then t.col + 1 else t.col,
       wrapPending := t.col + 1 == t.cols)
  }

  function Put(t: Term, c: char): (u: Term)
    requires t.Valid()
    ensures u.Valid() && |u.screen| == |t.screen| && u.cols == t.cols && u.parser == t.parser
  {
    if t.wrapPending then PutCell(LineFeed(CarriageReturn(t)), c) else PutCell(t, c)
  }

  /** CUP: one-based position, clamped to the screen. */
  function CursorTo(t: Term, line: nat, column: nat): (u: Term)
    requires t.Valid() && 1 <= line && 1 <= column
    ensures u.Valid() && |u.screen| == |t.screen| && u.cols == t.cols && u.parser == t.parser
  {
    t.(row := Min(line - 1, |t.screen| - 1), col := Min(column - 1, t.cols - 1), wrapPending := false)
  }

  /** CNL: down `n` rows, no further than the bottom, to the first column. */
  function NextLine(t: Term, n: nat): (u: Term)
    requires t.Valid()
    ensures u.Valid() && |u.screen| == |t.screen| && u.cols == t.cols && u.parser == t.parser
  {
    t.(row := Min(t.row + n, |t.screen| - 1), col := 0, wrapPending := false)
  }

  /** EL 0: blank from the cursor to the end; a pending wrap means the cursor
      stands past the last column and there is nothing left to blank. */
  function EraseRight(t: Term): (u: Term)
    requires t.Valid()
    ensures u.Valid() && |u.screen| == |t.screen| && u.cols == t.cols && u.parser == t.parser
  {
    if t.wrapPending then t
    else t.(screen := t.screen[t.row := t.screen[t.row][..t.col] + Blank(t.cols - t.col)])
  }

  // ---- control sequences ----

  function ParamValue(s: string, acc: nat): nat {
    if s == "" then acc
    else ParamValue(s[1..], Min(PARAM_MAX, if IsDigit(s[0]) then acc * 10 + (s[0] as int - '0' as int) else acc))
  }

  /** The `i`-th parameter; missing and zero both mean one, as CUP and CNL have it. */
  function Param(text: string, i: nat): (v: nat)
    ensures 1 <= v
  {
    var parts := Split(text, ';');
    var v := if i < |parts| then ParamValue(parts[i], 0) else 0;
    if v == 0 then 1 else v
  }

  function Dispatch(t: Term, text: string, final: char): (u: Term)
    requires t.Valid()
    ensures u.Valid() && |u.screen| == |t.screen| && u.cols == t.cols
  {
    if final == 'H' then CursorTo(t, Param(text, 0), Param(text, 1))
    else if final == 'E' then NextLine(t, Param(text, 0))
    else if final == 'K' && text == "" then EraseRight(t)
    else if text == "?25" && final == 'l' then t.(cursorShown := false)
    else if text == "?25" && final == 'h' then t.(cursorShown := true)
    else t
  }

  /** One byte.  Other controls and other sequences have no effect here. */
  function Step(t: Term, c: char): (u: Term)
    requires t.Valid()
    ensures u.Valid() && |u.screen| == |t.screen| && u.cols == t.cols
  {
    match t.parser
    case Ground =>
      if c == ESC then t.(parser := Escape)
      else if c == '\r' then CarriageReturn(t)
      else if c == '\n' then LineFeed(t)
      else if Printable(c) then Put(t, c)
      else t
    case Escape =>
      if c == '[' then t.(parser := Csi("")) else t.(parser := Ground)
    case Csi(text) =>
      if '@' <= c <= '~' then Dispatch(t.(parser := Ground), text, c)
      else t.(parser := Csi(text + [c]))
  }

  function Feed(t: Term, s: string): (u: Term)
    requires t.Valid()
    ensures u.Valid() && |u.screen| == |t.screen| && u.cols == t.cols
    decreases |s|
  {
    if s == "" then t else Feed(Step(t, s[0]), s[1..])
  }

  /** A byte stream may be cut anywhere. */
  lemma {:induction false} FeedAppend(t: Term, a: string, b: string)
    requires t.Valid()
    ensures Feed(t, a + b) == Feed(Feed(t, a), b)
    decreases |a|
  {
    if a == "" {
      assert a + b == b;
    } else {
      assert (a + b)[1..] == a[1..] + b;
      FeedAppend(Step(t, a[0]), a[1..], b);
    }
  }

  // ---- what whole pieces do ----

  function PutAll(t: Term, s: string): (u: Term)
    requires t.Valid()
    ensures u.Valid() && |u.screen| == |t.screen| && u.cols == t.cols && u.parser == t.parser
    decreases |s|
  {
    if s == "" then t else PutAll(Put(t, s[0]), s[1..])
  }

  /** Printable bytes are printed one by one. */
  lemma {:induction false} FeedPrintable(t: Term, s: string)
    requires t.Valid() && t.parser.Ground? && CleanText(s)
    ensures Feed(t, s) == PutAll(t, s)
    decreases |s|
  {
    if s != "" {
      assert Printable(s[0]);
      FeedPrintable(Put(t, s[0]), s[1..]);
    }
  }

  /** A character from the space up, but DEL, is written at the cursor, which moves on or
      waits to wrap in the last column; every other one but ESC, CR and LF changes nothing. */
  lemma CharacterIs(t: Term, c: char)
    requires t.Valid() && t.parser.Ground? && !t.wrapPending
    ensures var line, last := t.screen[t.row], t.col == t.cols - 1;
            ' ' <= c && c != '\U{7F}' ==>
              Feed(t, [c]) == t.(screen := t.screen[t.row := line[..t.col] + [c] + line[t.col + 1..]],
                                 col := if last then t.col else t.col + 1,
                                 wrapPending := last)
    ensures (c < ' ' || c == '\U{7F}') && c != ESC && c != '\r' && c != '\n' ==> Feed(t, [c]) == t
  {
    FeedOne(t, c);
    var r := t.screen[t.row];
    assert r[t.col := c] == r[..t.col] + [c] + r[t.col + 1..];
    hide Feed;
  }

  lemma FeedOne(t: Term, c: char)
    requires t.Valid()
    ensures Feed(t, [c]) == Step(t, c)
  {
    hide Step;
    assert [c][1..] == "";
  }

  predicate CleanText(s: string) { forall i :: 0 <= i < |s| ==> Printable(s[i]) }

  function Overwrite(r: Row, at: nat, s: string): (w: Row)
    requires at + |s| <= |r|
    ensures |w| == |r|
  {
    r[..at] + s + r[at + |s|..]
  }

  lemma OverwriteStep(r: Row, at: nat, s: string)
    requires s != "" && at + |s| <= |r|
    ensures Overwrite(r[at := s[0]], at + 1, s[1..]) == Overwrite(r, at, s)
  {
  }

  /** Overwrites `s` at the cursor of a row that has room for it. */
  function Typed(t: Term, s: string): Term
    requires t.Valid() && !t.wrapPending && t.col + |s| <= t.cols
  {
    if s == "" then t
    else t.(screen := t.screen[t.row := Overwrite(t.screen[t.row], t.col, s)],
            col := Min(t.col + |s|, t.cols - 1),
            wrapPending := t.col + |s| == t.cols)
  }

  lemma TypedStep(t: Term, s: string)
    requires t.Valid() && !t.wrapPending && t.col + |s| <= t.cols && |s| > 1
    ensures Typed(PutCell(t, s[0]), s[1..]) == Typed(t, s)
  {
    var r := t.screen[t.row];
    OverwriteStep(r, t.col, s);
    var x, y := r[t.col := s[0]], Overwrite(r, t.col, s);
    assert t.screen[t.row := x][t.row := y] == t.screen[t.row := y];
  }

  lemma {:induction false} PutAllFits(t: Term, s: string)
    requires t.Valid() && !t.wrapPending && t.col + |s| <= t.cols
    ensures PutAll(t, s) == Typed(t, s)
    decreases |s|
  {
    if s != "" {
      if |s| == 1 {
        var r := t.screen[t.row];
        assert r[t.col := s[0]] == Overwrite(r, t.col, s);
        assert s[1..] == "";
      } else {
        TypedStep(t, s);
        PutAllFits(PutCell(t, s[0]), s[1..]);
      }
    }
  }

  lemma FeedText(t: Term, s: string)
    requires t.Valid() && t.parser.Ground? && !t.wrapPending && t.col + |s| <= t.cols
    requires CleanText(s)
    ensures Feed(t, s) == Typed(t, s)
  {
    FeedPrintable(t, s);
    PutAllFits(t, s);
  }

  lemma {:induction false} FeedParams(t: Term, prefix: string, text: string, final: char)
    requires t.Valid() && t.parser == Csi(prefix)
    requires forall i :: 0 <= i < |text| ==> text[i] < '@'
    requires '@' <= final <= '~'
    ensures Feed(t, text + [final]) == Dispatch(t.(parser := Ground), prefix + text, final)
    decreases |text|
  {
    if text == "" {
      assert text + [final] == [final] && [final][1..] == "" && prefix + text == prefix;
    } else {
      var u := t.(parser := Csi(prefix + [text[0]]));
      assert Step(t, text[0]) == u;
      assert (text + [final])[1..] == text[1..] + [final];
      FeedParams(u, prefix + [text[0]], text[1..], final);
      assert prefix + [text[0]] + text[1..] == prefix + text;
    }
  }

  lemma FeedOpener(t: Term, rest: string)
    requires t.Valid() && t.parser.Ground?
    ensures Feed(t, [ESC, '['] + rest) == Feed(t.(parser := Csi("")), rest)
  {
    hide Dispatch;
    var s := [ESC, '['] + rest;
    assert s[1..] == ['['] + rest && s[1..][1..] == rest;
    assert Step(t, s[0]) == t.(parser := Escape);
  }

  /** A control sequence acts only through its parameters and final byte. */
  lemma FeedCsi(t: Term, text: string, final: char)
    requires t.Valid() && t.parser.Ground?
    requires forall i :: 0 <= i < |text| ==> text[i] < '@'
    requires '@' <= final <= '~'
    ensures Feed(t, [ESC, '['] + text + [final]) == Dispatch(t, text, final)
  {
    assert [ESC, '['] + text + [final] == [ESC, '['] + (text + [final]);
    FeedOpener(t, text + [final]);
    hide Feed, Dispatch;
    var u := t.(parser := Csi(""));
    FeedParams(u, "", text, final);
    assert "" + text == text;
  }

  lemma {:induction false} ParamValueAppend(a: string, b: string, acc: nat)
    ensures ParamValue(a + b, acc) == ParamValue(b, ParamValue(a, acc))
    decreases |a|
  {
    if a == "" {
      assert a + b == b;
    } else {
      assert (a + b)[1..] == a[1..] + b;
      var d := if IsDigit(a[0]) then acc * 10 + (a[0] as int - '0' as int) else acc;
      ParamValueAppend(a[1..], b, Min(PARAM_MAX, d));
    }
  }

  lemma {:induction false} ParamOfDec(n: nat)
    ensures ParamValue(Dec(n), 0) == Min(PARAM_MAX, n)
  {
    if n < 10 {
      assert Dec(n)[1..] == "";
    } else {
      ParamOfDec(n / 10);
      ParamValueAppend(Dec(n / 10), [DigitChar(n % 10)], 0);
      assert [DigitChar(n % 10)][1..] == "";
    }
  }

  /** The text of a cursor address, `line;column`. */
  function Address(line: nat, column: nat): (s: string)
    ensures forall i :: 0 <= i < |s| ==> s[i] < '@'
  {
    Dec(line) + ";" + Dec(column)
  }

  function CupText(line: nat, column: nat): string {
    [ESC, '['] + Address(line, column) + "H"
  }

  lemma FeedCup(t: Term, line: nat, column: nat)
    requires t.Valid() && t.parser.Ground? && 1 <= line && 1 <= column
    ensures Feed(t, CupText(line, column)) == CursorTo(t, Min(PARAM_MAX, line), Min(PARAM_MAX, column))
  {
    FeedCsi(t, Address(line, column), 'H');
    SplitFirst(Dec(line), ';', Dec(column));
    SplitNone(Dec(column), ';');
    ParamOfDec(line);
    ParamOfDec(column);
  }

  /** CNL goes down as many rows as it says, one if it says nothing or zero, to the first
      column. */
  lemma FeedCnl(t: Term, n: nat)
    requires t.Valid() && t.parser.Ground?
    ensures var down := if n == 0 then 1 else Min(PARAM_MAX, n);
            Feed(t, [ESC, '['] + Dec(n) + ['E'])
            == t.(row := if t.row + down < |t.screen| then t.row + down else |t.screen| - 1,
                  col := 0, wrapPending := false)
    ensures Feed(t, [ESC, '['] + "" + ['E']) == Feed(t, [ESC, '['] + Dec(0) + ['E'])
  {
    FeedCsi(t, Dec(n), 'E');
    FeedCsi(t, Dec(0), 'E');
    FeedCsi(t, "", 'E');
    SplitNone(Dec(n), ';');
    SplitNone(Dec(0), ';');
    SplitNone("", ';');
    ParamOfDec(n);
    hide Feed, Dec;
  }

  /** Two sequences hide and show the cursor; all others but CUP, CNL and EL change nothing. */
  lemma FeedMode(t: Term, text: string, final: char)
    requires t.Valid() && t.parser.Ground?
    requires forall i :: 0 <= i < |text| ==> text[i] < '@'
    requires '@' <= final <= '~' && final !in "HEK"
    ensures Feed(t, [ESC, '['] + text + [final])
         == t.(cursorShown := if text == "?25" && final in "hl" then final == 'h' else t.cursorShown)
  {
    FeedCsi(t, text, final);
    hide Feed;
  }

  // ---- what a terminal shows after whole lines ----

  predicate CleanLine(line: string, cols: nat) { |line| <= cols && CleanText(line) }

  ghost predicate CleanLines(lines: seq<string>, cols: nat) {
    forall i :: 0 <= i < |lines| ==> CleanLine(lines[i], cols)
  }

  /** Row `i` of the page the lines make: padded text, or blank past the end. */
  function RowOf(lines: seq<string>, cols: nat, i: nat): (r: Row)
    ensures |r| == cols
  {
    if i >= |lines| then Blank(cols)
    else if |lines[i]| <= cols then lines[i] + Blank(cols - |lines[i]|)
    else lines[i][..cols]
  }

  function RowsOf(lines: seq<string>, cols: nat, from: nat, n: nat): (rs: seq<Row>)
    ensures |rs| == n
    ensures forall i :: 0 <= i < n ==> |rs[i]| == cols
  {
    if n == 0 then [] else RowsOf(lines, cols, from, n - 1) + [RowOf(lines, cols, from + n - 1)]
  }

  lemma {:induction false} RowsOfAt(lines: seq<string>, cols: nat, from: nat, n: nat)
    ensures forall i :: 0 <= i < n ==> RowsOf(lines, cols, from, n)[i] == RowOf(lines, cols, from + i)
  {
    if n > 0 {
      RowsOfAt(lines, cols, from, n - 1);
    }
  }

  lemma RowAt(lines: seq<string>, cols: nat, from: nat, n: nat, i: nat)
    requires i < n
    ensures RowsOf(lines, cols, from, n)[i] == RowOf(lines, cols, from + i)
  {
    RowsOfAt(lines, cols, from, n);
  }

  function Scrolled(n: nat, rows: nat): nat { if n > rows then n - rows else 0 }

  /** A terminal showing the end of the page, above it the history `h`, with the
      cursor after the last line. */
  function Page(lines: seq<string>, cols: nat, rows: nat, h: seq<Row>, shown: bool := true): (t: Term)
    requires 0 < cols && 0 < rows && lines != []
    ensures t.Valid() && |t.screen| == rows && t.cols == cols && t.parser.Ground?
  {
    var top := Scrolled(|lines|, rows);
    var last := lines[|lines| - 1];
    RowsOfAt(lines, cols, top, rows);
    Term(cols, h, RowsOf(lines, cols, top, rows),
         |lines| - top - 1, Min(|last|, cols - 1), |last| == cols, shown, Ground)
  }

  /** The history that the first `n` lines leave. */
  function HistoryOf(lines: seq<string>, cols: nat, n: nat): seq<Row> {
    KeepLast(RowsOf(lines, cols, 0, n))
  }

  /** A reference that needs no bytes: the last `rows` lines are on screen and the
      lines above are history. */
  function Shown(lines: seq<string>, cols: nat, rows: nat, shown: bool := true): (t: Term)
    requires 0 < cols && 0 < rows && lines != []
    ensures t.Valid() && |t.screen| == rows && t.cols == cols && t.parser.Ground?
  {
    Page(lines, cols, rows, HistoryOf(lines, cols, Scrolled(|lines|, rows)), shown)
  }

  lemma {:induction false} KeepLastAppend(h: seq<Row>, more: seq<Row>)
    ensures KeepLast(KeepLast(h) + more) == KeepLast(h + more)
  {
    if |h| > SCROLLBACK_LINES {
      KeepLastAppend(h[1..], more);
      assert (h + more)[1..] == h[1..] + more;
    }
  }

  lemma RowOfSnoc(lines: seq<string>, line: string, cols: nat, i: nat)
    requires |line| <= cols
    ensures RowOf(lines + [line], cols, i)
         == if i == |lines| then line + Blank(cols - |line|) else RowOf(lines, cols, i)
  {
  }

  lemma RowsOfSnoc(lines: seq<string>, line: string, cols: nat, from: nat, n: nat)
    requires |line| <= cols
    requires from + n <= |lines| || line == ""
    ensures RowsOf(lines + [line], cols, from, n) == RowsOf(lines, cols, from, n)
  {
    hide RowsOf;
    var a, b := RowsOf(lines + [line], cols, from, n), RowsOf(lines, cols, from, n);
    assert "" + Blank(cols) == Blank(cols);
    forall i | 0 <= i < n ensures a[i] == b[i] {
      RowAt(lines + [line], cols, from, n, i);
      RowAt(lines, cols, from, n, i);
      RowOfSnoc(lines, line, cols, from + i);
    }
  }

  lemma {:induction false} RowsOfShift(lines: seq<string>, cols: nat, from: nat, n: nat)
    requires 0 < n
    ensures RowsOf(lines, cols, from, n)[0] == RowOf(lines, cols, from)
    ensures RowsOf(lines, cols, from, n)[1..] + [RowOf(lines, cols, from + n)] == RowsOf(lines, cols, from + 1, n)
  {
    RowsOfAt(lines, cols, from, n);
    RowsOfAt(lines, cols, from + 1, n);
  }

  lemma HistorySnoc(lines: seq<string>, line: string, cols: nat, n: nat)
    requires n <= |lines| && |line| <= cols
    ensures HistoryOf(lines + [line], cols, n) == HistoryOf(lines, cols, n)
  {
    RowsOfSnoc(lines, line, cols, 0, n);
  }

  /** The history grows by the row that a scroll pushes off the top. */
  lemma HistoryGrows(lines: seq<string>, cols: nat, n: nat, h: seq<Row>, r: Row)
    requires h == HistoryOf(lines, cols, n) && r == RowOf(lines, cols, n)
    ensures KeepLast(h + [r]) == HistoryOf(lines, cols, n + 1)
  {
    KeepLastAppend(RowsOf(lines, cols, 0, n), [r]);
  }

  lemma ShownScrollScreen(lines: seq<string>, cols: nat, rows: nat)
    requires 0 < rows <= |lines|
    ensures RowsOf(lines, cols, |lines| - rows, rows)[1..] + [Blank(cols)]
         == RowsOf(lines + [""], cols, |lines| + 1 - rows, rows)
  {
    var top := |lines| - rows;
    RowsOfShift(lines, cols, top, rows);
    RowsOfSnoc(lines, "", cols, top + 1, rows);
  }

  lemma PageNewlineAt(lines: seq<string>, cols: nat, rows: nat, h: seq<Row>, s0: seq<Row>, s1: seq<Row>,
                      shown: bool := true)
    requires 0 < cols && 0 < rows && lines != []
    requires s0 == RowsOf(lines, cols, Scrolled(|lines|, rows), rows)
    requires s1 == RowsOf(lines + [""], cols, Scrolled(|lines| + 1, rows), rows)
    ensures LineFeed(CarriageReturn(Page(lines, cols, rows, h, shown)))
         == Page(lines + [""], cols, rows, if |lines| >= rows then KeepLast(h + [s0[0]]) else h, shown)
  {
    if |lines| >= rows {
      ShownScrollScreen(lines, cols, rows);
    } else {
      RowsOfSnoc(lines, "", cols, 0, rows);
    }
  }

  lemma HistoryNewline(lines: seq<string>, cols: nat, rows: nat, h: seq<Row>, h': seq<Row>)
    requires 0 < rows
    requires h == HistoryOf(lines, cols, Scrolled(|lines|, rows))
    requires h' == HistoryOf(lines + [""], cols, Scrolled(|lines| + 1, rows))
    ensures h' == if |lines| >= rows then KeepLast(h + [RowOf(lines, cols, |lines| - rows)]) else h
  {
    HistorySnoc(lines, "", cols, Scrolled(|lines| + 1, rows));
    if |lines| >= rows {
      HistoryGrows(lines, cols, |lines| - rows, h, RowOf(lines, cols, |lines| - rows));
    }
  }

  /** A carriage return and a line feed open the next blank row. */
  lemma ShownNewline(lines: seq<string>, cols: nat, rows: nat, shown: bool := true)
    requires 0 < cols && 0 < rows && lines != []
    ensures LineFeed(CarriageReturn(Shown(lines, cols, rows, shown))) == Shown(lines + [""], cols, rows, shown)
  {
    var h := HistoryOf(lines, cols, Scrolled(|lines|, rows));
    var top := Scrolled(|lines|, rows);
    PageNewlineAt(lines, cols, rows, h, RowsOf(lines, cols, top, rows),
                  RowsOf(lines + [""], cols, Scrolled(|lines| + 1, rows), rows), shown);
    RowsOfShift(lines, cols, top, rows);
    HistoryNewline(lines, cols, rows, h, HistoryOf(lines + [""], cols, Scrolled(|lines| + 1, rows)));
  }

  lemma RowsOfRetyped(lines: seq<string>, line: string, cols: nat, from: nat, n: nat)
    requires |line| <= cols && from <= |lines| < from + n
    ensures RowsOf(lines + [""], cols, from, n)[|lines| - from := line + Blank(cols - |line|)]
         == RowsOf(lines + [line], cols, from, n)
  {
    hide RowsOf, RowOf;
    var a, b := RowsOf(lines + [""], cols, from, n), RowsOf(lines + [line], cols, from, n);
    var at := |lines| - from;
    forall i | 0 <= i < n && i != at ensures a[i] == b[i] {
      RowAt(lines + [""], cols, from, n, i);
      RowAt(lines + [line], cols, from, n, i);
      RowOfSnoc(lines, line, cols, from + i);
      RowOfSnoc(lines, "", cols, from + i);
    }
    RowAt(lines + [line], cols, from, n, at);
    RowOfSnoc(lines, line, cols, |lines|);
  }

  lemma OpenedRow(lines: seq<string>, line: string, cols: nat, top: nat, rows: nat)
    requires |line| <= cols && top <= |lines| < top + rows
    ensures var open := RowsOf(lines + [""], cols, top, rows);
            var at := |lines| - top;
            open[at := Overwrite(open[at], 0, line)] == RowsOf(lines + [line], cols, top, rows)
  {
    hide RowsOf, RowOf, Overwrite;
    RowsOfRetyped(lines, line, cols, top, rows);
    RowAt(lines + [""], cols, top, rows, |lines| - top);
    RowOfSnoc(lines, "", cols, |lines|);
    OverwriteBlank(cols, line);
  }

  lemma OverwriteBlank(cols: nat, line: string)
    requires |line| <= cols
    ensures Overwrite("" + Blank(cols), 0, line) == line + Blank(cols - |line|)
  {
  }

  lemma PageTypeAt(lines: seq<string>, line: string, cols: nat, rows: nat, h: seq<Row>, top: nat,
                   s0: seq<Row>, s1: seq<Row>, shown: bool := true)
    requires 0 < cols && 0 < rows && |line| <= cols
    requires top == Scrolled(|lines| + 1, rows)
    requires s0 == RowsOf(lines + [""], cols, top, rows)
    requires s1 == RowsOf(lines + [line], cols, top, rows)
    ensures var t := Page(lines + [""], cols, rows, h, shown);
            t.col == 0 && !t.wrapPending && Typed(t, line) == Page(lines + [line], cols, rows, h, shown)
  {
    hide RowsOf, Overwrite, Blank, KeepLast;
    OpenedRow(lines, line, cols, top, rows);
    var open, full := lines + [""], lines + [line];
    assert |open| == |full| == |lines| + 1 && open[|lines|] == "" && full[|lines|] == line;
    if line == "" {
      assert open == full;
    }
  }

  /** Typing the text of the line that was just opened. */
  lemma ShownType(lines: seq<string>, line: string, cols: nat, rows: nat, shown: bool := true)
    requires 0 < cols && 0 < rows && CleanLine(line, cols)
    ensures Feed(Shown(lines + [""], cols, rows, shown), line) == Shown(lines + [line], cols, rows, shown)
  {
    var top := Scrolled(|lines| + 1, rows);
    var h := HistoryOf(lines, cols, top);
    HistorySnoc(lines, "", cols, top);
    HistorySnoc(lines, line, cols, top);
    PageTypeAt(lines, line, cols, rows, h, top,
               RowsOf(lines + [""], cols, top, rows), RowsOf(lines + [line], cols, top, rows), shown);
    FeedText(Page(lines + [""], cols, rows, h, shown), line);
  }

  lemma FeedBreak(t: Term)
    requires t.Valid() && t.parser.Ground?
    ensures Feed(t, "\r\n") == LineFeed(CarriageReturn(t))
  {
    hide LineFeed;
    assert "\r\n"[1..] == "\n" && "\n"[1..] == "";
    assert Step(t, '\r') == CarriageReturn(t);
  }

  /** One more line on a terminal that shows `lines` and has its cursor there. */
  lemma FeedNextLine(lines: seq<string>, line: string, cols: nat, rows: nat, shown: bool := true)
    requires 0 < cols && 0 < rows && lines != [] && CleanLine(line, cols)
    ensures Feed(Shown(lines, cols, rows, shown), "\r\n" + line) == Shown(lines + [line], cols, rows, shown)
  {
    hide Shown, Feed, LineFeed, CarriageReturn, CleanLine;
    var t := Shown(lines, cols, rows, shown);
    ShownNewline(lines, cols, rows, shown);
    FeedAppend(t, "\r\n", line);
    FeedBreak(t);
    ShownType(lines, line, cols, rows, shown);
  }

  lemma FreshIsShown(cols: nat, rows: nat)
    requires 0 < cols && 0 < rows
    ensures Fresh(cols, rows) == Shown([""], cols, rows)
  {
    var a, b := Fresh(cols, rows), Shown([""], cols, rows);
    assert "" + Blank(cols) == Blank(cols);
    RowsOfAt([""], cols, 0, rows);
    forall i | 0 <= i < rows ensures a.screen[i] == b.screen[i] {
      assert a.screen[i] == Blank(cols);
    }
    assert a.screen == b.screen;
  }

  /** A fresh terminal fed lines joined by CR LF shows exactly those lines. */
  lemma {:induction false} FeedLines(lines: seq<string>, cols: nat, rows: nat)
    requires 0 < cols && 0 < rows && lines != [] && CleanLines(lines, cols)
    ensures Feed(Fresh(cols, rows), Join(lines, "\r\n")) == Shown(lines, cols, rows)
    decreases |lines|
  {
    var init, last := lines[..|lines| - 1], lines[|lines| - 1];
    assert lines == init + [last] && CleanLine(last, cols);
    var f := Fresh(cols, rows);
    if init == [] {
      FreshIsShown(cols, rows);
      ShownType([], last, cols, rows);
      assert [] + [""] == [""] && Join(lines, "\r\n") == last;
    } else {
      var typed := Join(init, "\r\n");
      assert Join(lines, "\r\n") == typed + ("\r\n" + last) by { JoinSnoc(init, last, "\r\n"); }
      assert Feed(f, typed) == Shown(init, cols, rows) by { FeedLines(init, cols, rows); }
      FeedAppend(f, typed, "\r\n" + last);
      FeedNextLine(init, last, cols, rows);
    }
  }
}
