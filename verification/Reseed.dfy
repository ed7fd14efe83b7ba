/** Reconciling a new capture with the last one (`src/reseed.rs`), and the canvas
    that the verdict is carried out on (`Canvas` in `src/termview.rs`). */
module Reseed {
  import opened Text
  import opened Terminal

  datatype ReseedPlan = Rebuild | Tail(bytes: string) | Skip

  /** A cursor position on the screen, column and row, zero-based. */
  datatype Cursor = Cursor(x: nat, y: nat)

  const EL: string := [ESC, '[', 'K']
  const CNL: string := [ESC, '[', 'E']
  const HIDE: string := [ESC, '[', '?', '2', '5', 'l']

  // ---- captures ----

  function TrimAll(parts: seq<string>): (r: seq<string>)
    ensures |r| == |parts| && forall i :: 0 <= i < |parts| ==> r[i] == TrimCr(parts[i])
  {
    if parts == [] then [] else [TrimCr(parts[0])] + TrimAll(parts[1..])
  }

  function LinesOf(cap: string): (lines: seq<string>)
    ensures lines != []
  {
    TrimAll(Split(cap, '\n'))
  }

  /** The text of a capture block: its lines joined by CR LF. */
  function Capture(lines: seq<string>): string { Join(lines, "\r\n") }

  lemma CleanLineHasNoBreaks(line: string)
    requires CleanText(line)
    ensures '\n' !in line && '\r' !in line && TrimCr(line) == line && TrimCr(line + "\r") == line
  {
    assert (line + "\r")[..|line|] == line;
  }

  /** The planner reads back exactly the lines that the capture was joined from. */
  lemma {:induction false} LinesOfCapture(lines: seq<string>)
    requires lines != [] && forall i :: 0 <= i < |lines| ==> CleanText(lines[i])
    ensures LinesOf(Capture(lines)) == lines
  {
    CleanLineHasNoBreaks(lines[0]);
    if |lines| == 1 {
      SplitNone(lines[0], '\n');
    } else {
      var rest := Capture(lines[1..]);
      LinesOfCapture(lines[1..]);
      assert Capture(lines) == (lines[0] + "\r") + ['\n'] + rest;
      SplitFirst(lines[0] + "\r", '\n', rest);
      TrimAllCons(lines[0] + "\r", Split(rest, '\n'));
    }
  }

  lemma TrimAllCons(head: string, parts: seq<string>)
    ensures TrimAll([head] + parts) == [TrimCr(head)] + TrimAll(parts)
  {
    assert ([head] + parts)[1..] == parts;
  }

  // ---- the verdict ----

  /** Immutable history: `newer` keeps the history of `older` and the rows that at
      most one screenful of scrolling pushed into it. */
  predicate Extends(older: seq<string>, newer: seq<string>, rows: nat) {
    && 0 < rows <= |older|
    && |older| <= |newer| <= |older| + rows
    && older[..|newer| - rows] == newer[..|newer| - rows]
  }

  ghost predicate ScrolledBy(older: seq<string>, newer: seq<string>, rows: nat, k: nat, screen: seq<string>) {
    k <= rows <= |older| && |screen| == rows && newer == older[..|older| - rows + k] + screen
  }

  /** Exactly the captures that a terminal can reach by scrolling at most `rows`
      rows off the old screen and then showing any screen at all. */
  lemma ExtendsIffScrolled(older: seq<string>, newer: seq<string>, rows: nat)
    requires 0 < rows
    ensures Extends(older, newer, rows) <==> exists k, screen :: ScrolledBy(older, newer, rows, k, screen)
  {
    if Extends(older, newer, rows) {
      var k, screen := |newer| - |older|, newer[|newer| - rows..];
      assert newer == newer[..|newer| - rows] + screen;
      assert ScrolledBy(older, newer, rows, k, screen);
    }
    if exists k, screen :: ScrolledBy(older, newer, rows, k, screen) {
      var k, screen :| ScrolledBy(older, newer, rows, k, screen);
      assert newer[..|newer| - rows] == older[..|newer| - rows];
    }
  }

  function LineFeeds(k: nat): string { if k == 0 then "" else LineFeeds(k - 1) + "\n" }

  /** The first `i` of the rows to repaint: text, EL, and CNL between rows. */
  function Painted(rowsText: seq<string>, i: nat): string
    requires i <= |rowsText|
  {
    if i == 0 then ""
    else Painted(rowsText, i - 1) + rowsText[i - 1] + EL + (if i < |rowsText| then CNL else "")
  }

  function TailText(newer: seq<string>, rows: nat, k: nat, cursor: Cursor): string
    requires rows <= |newer|
  {
    CupText(rows, 1) + LineFeeds(k) + CupText(1, 1)
    + Painted(newer[|newer| - rows..], rows)
    + CupText(cursor.y + 1, cursor.x + 1) + HIDE
  }

  /** What `plan_reseed` decides. */
  function Verdict(older: seq<string>, newer: seq<string>, rows: nat, cursor: Cursor, fed: bool): ReseedPlan {
    if !Extends(older, newer, rows) then Rebuild
    else if fed then Skip
    else Tail(TailText(newer, rows, |newer| - |older|, cursor))
  }

  lemma PrefixInTwo(a: seq<string>, b: seq<string>, i: nat, j: nat)
    requires i <= j <= |a| && j <= |b|
    ensures a[..j] == b[..j] <==> a[..i] == b[..i] && a[i..j] == b[i..j]
  {
    assert a[..j] == a[..i] + a[i..j] && b[..j] == b[..i] + b[i..j];
    assert a[..j][..i] == a[..i] && b[..j][..i] == b[..i];
    assert a[..j][i..] == a[i..j] && b[..j][i..] == b[i..j];
  }

  lemma PaintedNext(head: string, rowsText: seq<string>, i: nat)
    requires i < |rowsText|
    ensures head + Painted(rowsText, i) + rowsText[i] + EL + (if i + 1 < |rowsText| then CNL else "")
         == head + Painted(rowsText, i + 1)
  {
  }

  /** `plan_reseed`: early returns over the two line lists. */
  method PlanReseed(oldCap: string, newCap: string, rows: nat, cursor: Cursor, canvasFed: bool)
    returns (plan: ReseedPlan)
    ensures plan.Rebuild? <==> !Extends(LinesOf(oldCap), LinesOf(newCap), rows)
    ensures plan.Skip? ==> canvasFed
    ensures plan.Tail? ==> !canvasFed
    ensures plan == Verdict(LinesOf(oldCap), LinesOf(newCap), rows, cursor, canvasFed)
  {
    if rows == 0 { return Rebuild; }
    var older, newer := LinesOf(oldCap), LinesOf(newCap);
    if |older| < rows || |newer| < rows { return Rebuild; }
    var histOld, histNew := |older| - rows, |newer| - rows;
    if histNew < histOld { return Rebuild; }
    var k := histNew - histOld;
    if k > rows { return Rebuild; }
    PrefixInTwo(older, newer, histOld, histNew);
    if older[..histOld] != newer[..histOld] || older[histOld..histOld + k] != newer[histOld..histOld + k] {
      return Rebuild;
    }
    if canvasFed { return Skip; }
    var out := AssembleTail(newer, rows, k, cursor);
    return Tail(out);
  }

  /** The loops at the end of `plan_reseed` that put the tail block together. */
  method AssembleTail(newer: seq<string>, rows: nat, k: nat, cursor: Cursor) returns (out: string)
    requires rows <= |newer|
    ensures out == TailText(newer, rows, k, cursor)
  {
    var screen := newer[|newer| - rows..];
    out := CupText(rows, 1);
    var i := 0;
    while i < k
      invariant i <= k
      invariant out == CupText(rows, 1) + LineFeeds(i)
    {
      out := out + "\n";
      i := i + 1;
    }
    out := out + CupText(1, 1);
    ghost var head := out;
    i := 0;
    while i < rows
      invariant i <= rows
      invariant out == head + Painted(screen, i)
    {
      PaintedNext(head, screen, i);
      out := out + screen[i];
      out := out + EL;
      if i + 1 < rows {
        out := out + CNL;
      }
      i := i + 1;
    }
    out := out + CupText(cursor.y + 1, cursor.x + 1);
    out := out + HIDE;
  }

  // ---- the tail block as operations on a terminal ----

  /** `Canvas::build`: a fresh terminal fed the capture, the cursor put back, and
      the cursor hidden. */
  function Built(cap: string, cols: nat, rows: nat, cursor: Cursor): (t: Term)
    requires 0 < cols && 0 < rows
    ensures t.Valid() && |t.screen| == rows && t.cols == cols
  {
    Feed(Feed(Feed(Fresh(cols, rows), cap), CupText(cursor.y + 1, cursor.x + 1)), HIDE)
  }

  function Jump(t: Term, line: nat, column: nat): (u: Term)
    requires t.Valid() && 1 <= line && 1 <= column
    ensures u.Valid() && |u.screen| == |t.screen| && u.cols == t.cols && u.parser == t.parser
  {
    CursorTo(t, Min(PARAM_MAX, line), Min(PARAM_MAX, column))
  }

  function Posed(t: Term, cursor: Cursor): (u: Term)
    requires t.Valid()
    ensures u.Valid() && |u.screen| == |t.screen| && u.cols == t.cols
  {
    Jump(t, cursor.y + 1, cursor.x + 1).(cursorShown := false)
  }

  function ScrollUp(t: Term, k: nat): (u: Term)
    requires t.Valid()
    ensures u.Valid() && |u.screen| == |t.screen| && u.cols == t.cols && u.parser == t.parser
  {
    if k == 0 then t else LineFeed(ScrollUp(t, k - 1))
  }

  function PaintRow(t: Term, line: string): (u: Term)
    requires t.Valid()
    ensures u.Valid() && |u.screen| == |t.screen| && u.cols == t.cols && u.parser == t.parser
  {
    EraseRight(PutAll(t, line))
  }

  function PaintTop(t: Term, rowsText: seq<string>, i: nat): (u: Term)
    requires t.Valid() && i <= |rowsText|
    ensures u.Valid() && |u.screen| == |t.screen| && u.cols == t.cols && u.parser == t.parser
  {
    if i == 0 then t
    else
      var u := PaintRow(PaintTop(t, rowsText, i - 1), rowsText[i - 1]);
      if i < |rowsText| then NextLine(u, 1) else u
  }

  function TailRun(t: Term, newer: seq<string>, rows: nat, k: nat, cursor: Cursor): (u: Term)
    requires t.Valid() && 1 <= rows <= |newer|
  {
    var bottom := Jump(t, rows, 1);
    var top := Jump(ScrollUp(bottom, k), 1, 1);
    Posed(PaintTop(top, newer[|newer| - rows..], rows), cursor)
  }

  // ---- the emitted bytes denote those operations ----

  lemma FeedPose(t: Term, cursor: Cursor)
    requires t.Valid() && t.parser.Ground?
    ensures Feed(Feed(t, CupText(cursor.y + 1, cursor.x + 1)), HIDE) == Posed(t, cursor)
  {
    FeedCup(t, cursor.y + 1, cursor.x + 1);
    assert HIDE == [ESC, '['] + "?25" + ['l'];
    FeedCsi(Jump(t, cursor.y + 1, cursor.x + 1), "?25", 'l');
  }

  lemma {:induction false} FeedLineFeeds(t: Term, k: nat)
    requires t.Valid() && t.parser.Ground?
    ensures Feed(t, LineFeeds(k)) == ScrollUp(t, k)
  {
    if k > 0 {
      FeedLineFeeds(t, k - 1);
      FeedAppend(t, LineFeeds(k - 1), "\n");
      FeedNewline(ScrollUp(t, k - 1));
    }
  }

  lemma FeedNewline(t: Term)
    requires t.Valid() && t.parser.Ground?
    ensures Feed(t, "\n") == LineFeed(t)
  {
    assert "\n"[1..] == "";
  }

  lemma FeedEl(t: Term)
    requires t.Valid() && t.parser.Ground?
    ensures Feed(t, EL) == EraseRight(t)
  {
    assert EL == [ESC, '['] + "" + ['K'];
    FeedCsi(t, "", 'K');
  }

  lemma FeedCnl(t: Term)
    requires t.Valid() && t.parser.Ground?
    ensures Feed(t, CNL) == NextLine(t, 1)
  {
    assert CNL == [ESC, '['] + "" + ['E'];
    FeedCsi(t, "", 'E');
    SplitNone("", ';');
  }

  lemma FeedPaintRow(t: Term, done: string, u: Term, line: string)
    requires t.Valid() && u.Valid() && u.parser.Ground? && Feed(t, done) == u
    requires CleanText(line)
    ensures Feed(t, done + line + EL) == PaintRow(u, line)
  {
    FeedAppend(t, done, line);
    FeedPrintable(u, line);
    FeedAppend(t, done + line, EL);
    FeedEl(PutAll(u, line));
  }

  lemma {:induction false} FeedPainted(t: Term, rowsText: seq<string>, i: nat)
    requires t.Valid() && t.parser.Ground? && i <= |rowsText|
    requires forall j :: 0 <= j < |rowsText| ==> CleanText(rowsText[j])
    ensures Feed(t, Painted(rowsText, i)) == PaintTop(t, rowsText, i)
  {
    if i > 0 {
      FeedPainted(t, rowsText, i - 1);
      var done, u := Painted(rowsText, i - 1), PaintTop(t, rowsText, i - 1);
      FeedPaintRow(t, done, u, rowsText[i - 1]);
      var body := done + rowsText[i - 1] + EL;
      if i < |rowsText| {
        FeedAppend(t, body, CNL);
        FeedCnl(PaintRow(u, rowsText[i - 1]));
      } else {
        assert body + "" == body;
      }
    }
  }

  lemma Chain(t: Term, a: string, u: Term, b: string, v: Term)
    requires t.Valid() && Feed(t, a) == u && Feed(u, b) == v
    ensures Feed(t, a + b) == v
  {
    FeedAppend(t, a, b);
  }

  lemma FeedScroll(t: Term, rows: nat, k: nat)
    requires t.Valid() && t.parser.Ground? && 1 <= rows
    ensures Feed(t, CupText(rows, 1) + LineFeeds(k) + CupText(1, 1)) == Jump(ScrollUp(Jump(t, rows, 1), k), 1, 1)
  {
    var bottom := Jump(t, rows, 1);
    var up := ScrollUp(bottom, k);
    FeedCup(t, rows, 1);
    FeedLineFeeds(bottom, k);
    Chain(t, CupText(rows, 1), bottom, LineFeeds(k), up);
    FeedCup(up, 1, 1);
    Chain(t, CupText(rows, 1) + LineFeeds(k), up, CupText(1, 1), Jump(up, 1, 1));
  }

  lemma FeedFinish(t: Term, text: seq<string>, cursor: Cursor)
    requires t.Valid() && t.parser.Ground? && forall j :: 0 <= j < |text| ==> CleanText(text[j])
    ensures Feed(t, Painted(text, |text|) + CupText(cursor.y + 1, cursor.x + 1) + HIDE)
         == Posed(PaintTop(t, text, |text|), cursor)
  {
    var painted := PaintTop(t, text, |text|);
    var cup := CupText(cursor.y + 1, cursor.x + 1);
    FeedPainted(t, text, |text|);
    FeedPose(painted, cursor);
    Chain(t, Painted(text, |text|), painted, cup, Feed(painted, cup));
    Chain(t, Painted(text, |text|) + cup, Feed(painted, cup), HIDE, Posed(painted, cursor));
  }

  /** Feeding the bytes of the block is running its operations. */
  lemma TailBytesDenote(t: Term, newer: seq<string>, rows: nat, k: nat, cursor: Cursor)
    requires t.Valid() && t.parser.Ground? && 1 <= rows <= |newer|
    requires forall j :: 0 <= j < |newer| ==> CleanText(newer[j])
    ensures Feed(t, TailText(newer, rows, k, cursor)) == TailRun(t, newer, rows, k, cursor)
  {
    hide Feed, Jump, ScrollUp, PaintTop, Posed, Painted, LineFeeds, CupText;
    var text := newer[|newer| - rows..];
    var scroll := CupText(rows, 1) + LineFeeds(k) + CupText(1, 1);
    var finish := Painted(text, rows) + CupText(cursor.y + 1, cursor.x + 1) + HIDE;
    assert TailText(newer, rows, k, cursor) == scroll + finish;
    var top := Jump(ScrollUp(Jump(t, rows, 1), k), 1, 1);
    assert Feed(t, scroll) == top by { FeedScroll(t, rows, k); }
    assert Feed(top, finish) == TailRun(t, newer, rows, k, cursor) by { FeedFinish(top, text, cursor); }
    FeedAppend(t, scroll, finish);
  }

  // ---- what the operations do ----

  lemma BuiltIsPosedPage(lines: seq<string>, cols: nat, rows: nat, cursor: Cursor)
    requires 0 < cols && 0 < rows && lines != [] && CleanLines(lines, cols)
    ensures Built(Capture(lines), cols, rows, cursor) == Posed(Shown(lines, cols, rows), cursor)
  {
    FeedLines(lines, cols, rows);
    FeedPose(Shown(lines, cols, rows), cursor);
  }

  ghost predicate Grid(cols: nat, screen: seq<Row>) {
    0 < cols && screen != [] && forall i :: 0 <= i < |screen| ==> |screen[i]| == cols
  }

  /** A terminal at rest at the start of a row. */
  function At(cols: nat, h: seq<Row>, screen: seq<Row>, row: nat): Term {
    Term(cols, h, screen, row, 0, false, false, Ground)
  }

  /** Rows pushed one by one into a bounded history. */
  function ScrollInto(h: seq<Row>, pushed: seq<Row>): seq<Row> {
    if pushed == [] then h
    else KeepLast(ScrollInto(h, pushed[..|pushed| - 1]) + [pushed[|pushed| - 1]])
  }

  lemma ScrollIntoSnoc(h: seq<Row>, pushed: seq<Row>, r: Row)
    ensures ScrollInto(h, pushed + [r]) == KeepLast(ScrollInto(h, pushed) + [r])
  {
    assert (pushed + [r])[..|pushed|] == pushed;
  }

  lemma ScrollScreen(cols: nat, screen: seq<Row>, k: nat)
    requires Grid(cols, screen) && k < |screen|
    ensures var mid := screen[k..] + BlankRows(k, cols);
            mid[0] == screen[k] && mid[1..] + [Blank(cols)] == screen[k + 1..] + BlankRows(k + 1, cols)
    ensures screen[..k + 1] == screen[..k] + [screen[k]]
  {
  }

  /** `k` line feeds on the bottom row move the top `k` rows into the history. */
  lemma {:induction false} ScrollUpFromBottom(cols: nat, h: seq<Row>, screen: seq<Row>, k: nat)
    requires Grid(cols, screen) && k <= |screen|
    ensures ScrollUp(At(cols, h, screen, |screen| - 1), k)
         == At(cols, ScrollInto(h, screen[..k]), screen[k..] + BlankRows(k, cols), |screen| - 1)
  {
    if k == 0 {
      assert screen[0..] + BlankRows(0, cols) == screen;
    } else {
      ScrollUpFromBottom(cols, h, screen, k - 1);
      ScrollScreen(cols, screen, k - 1);
      ScrollIntoSnoc(h, screen[..k - 1], screen[k - 1]);
    }
  }

  lemma {:induction false} ScrollIntoHistory(lines: seq<string>, cols: nat, n: nat, k: nat)
    ensures ScrollInto(HistoryOf(lines, cols, n), RowsOf(lines, cols, n, k)) == HistoryOf(lines, cols, n + k)
  {
    if k > 0 {
      var h, pushed, r := HistoryOf(lines, cols, n), RowsOf(lines, cols, n, k - 1), RowOf(lines, cols, n + k - 1);
      ScrollIntoHistory(lines, cols, n, k - 1);
      ScrollIntoSnoc(h, pushed, r);
      HistoryGrows(lines, cols, n + k - 1, ScrollInto(h, pushed), r);
    }
  }

  lemma SetTwice(screen: seq<Row>, row: nat, w: Row, v: Row)
    requires row < |screen|
    ensures screen[row := w][row := v] == screen[row := v]
  {
  }

  lemma OverwriteThenErase(was: Row, line: string)
    requires |line| <= |was|
    ensures Overwrite(was, 0, line)[..|line|] == line
    ensures |line| == |was| ==> Overwrite(was, 0, line) == line + Blank(0)
  {
  }

  lemma EraseRow(u: Term, line: string, screen: seq<Row>, row: nat, w: Row)
    requires u.Valid() && row < |screen| && u.row == row && u.screen == screen[row := w]
    requires |w| == u.cols && |line| <= u.cols && w[..|line|] == line
    requires |line| == u.cols ==> w == line + Blank(0)
    requires u.wrapPending <==> |line| == u.cols
    requires !u.wrapPending ==> u.col == |line|
    ensures EraseRight(u).screen == screen[row := line + Blank(u.cols - |line|)]
  {
    SetTwice(screen, row, w, line + Blank(u.cols - |line|));
  }

  /** Repainting one row replaces whatever it held. */
  lemma PaintRowReplaces(cols: nat, h: seq<Row>, screen: seq<Row>, row: nat, line: string)
    requires Grid(cols, screen) && row < |screen| && |line| <= cols
    ensures PaintRow(At(cols, h, screen, row), line).(col := 0, wrapPending := false)
         == At(cols, h, screen[row := line + Blank(cols - |line|)], row)
  {
    var t := At(cols, h, screen, row);
    var w := Overwrite(screen[row], 0, line);
    var u := PutAll(t, line);
    assert u == Typed(t, line) by { PutAllFits(t, line); }
    OverwriteThenErase(screen[row], line);
    assert u.screen == screen[row := w] by {
      if line == "" {
        assert w == screen[row];
      }
    }
    assert EraseRight(u).screen == screen[row := line + Blank(cols - |line|)] by {
      EraseRow(u, line, screen, row, w);
    }
  }

  /** The screen once its first `i` rows have been repainted from `from` on. */
  function ScreenAfter(screen: seq<Row>, lines: seq<string>, cols: nat, from: nat, i: nat): (r: seq<Row>)
    requires i <= |screen|
    ensures |r| == |screen|
    ensures forall j :: 0 <= j < i ==> r[j] == RowOf(lines, cols, from + j)
    ensures forall j :: i <= j < |screen| ==> r[j] == screen[j]
  {
    if i == 0 then screen
    else ScreenAfter(screen, lines, cols, from, i - 1)[i - 1 := RowOf(lines, cols, from + i - 1)]
  }

  /** After each repainted row but the last, the cursor starts the next one. */
  lemma {:induction false} PaintTopReplaces(cols: nat, h: seq<Row>, screen: seq<Row>, lines: seq<string>, from: nat,
                                            i: nat)
    requires Grid(cols, screen) && CleanLines(lines, cols)
    requires from + |screen| == |lines| && i <= |screen|
    ensures PaintTop(At(cols, h, screen, 0), lines[from..], i).(col := 0, wrapPending := false)
         == At(cols, h, ScreenAfter(screen, lines, cols, from, i), Min(i, |screen| - 1))
    ensures i < |screen| ==>
              PaintTop(At(cols, h, screen, 0), lines[from..], i)
              == At(cols, h, ScreenAfter(screen, lines, cols, from, i), i)
    decreases i
  {
    hide PaintRow, NextLine, CleanLine;
    if i > 0 {
      var t, text := At(cols, h, screen, 0), lines[from..];
      var mid, line := ScreenAfter(screen, lines, cols, from, i - 1), lines[from + i - 1];
      PaintTopReplaces(cols, h, screen, lines, from, i - 1);
      assert CleanLine(line, cols) && text[i - 1] == line;
      NextPainted(cols, h, screen, lines, from, i);
      assert PaintTop(t, text, i - 1) == At(cols, h, mid, i - 1);
      hide ScreenAfter;
    }
  }

  /** One more row is repainted. */
  lemma NextPainted(cols: nat, h: seq<Row>, screen: seq<Row>, lines: seq<string>, from: nat, i: nat)
    requires Grid(cols, screen) && from + |screen| == |lines| && 0 < i <= |screen|
    requires CleanLine(lines[from + i - 1], cols)
    ensures var mid, next := ScreenAfter(screen, lines, cols, from, i - 1), ScreenAfter(screen, lines, cols, from, i);
            && At(cols, h, mid, i - 1).Valid()
            && var u := PaintRow(At(cols, h, mid, i - 1), lines[from + i - 1]);
               u.(col := 0, wrapPending := false) == At(cols, h, next, i - 1)
               && (i < |screen| ==> NextLine(u, 1) == At(cols, h, next, i))
  {
    hide PaintRow;
    PaintRowReplaces(cols, h, ScreenAfter(screen, lines, cols, from, i - 1), i - 1, lines[from + i - 1]);
  }

  lemma {:induction false} SharedHistory(older: seq<string>, newer: seq<string>, cols: nat, n: nat)
    requires n <= |older| && n <= |newer| && older[..n] == newer[..n]
    ensures RowsOf(older, cols, 0, n) == RowsOf(newer, cols, 0, n)
  {
    if n > 0 {
      assert older[..n - 1] == older[..n][..n - 1] && newer[..n - 1] == newer[..n][..n - 1];
      assert older[n - 1] == older[..n][n - 1] && newer[n - 1] == newer[..n][n - 1];
      SharedHistory(older, newer, cols, n - 1);
    }
  }

  lemma RowsOfTake(lines: seq<string>, cols: nat, from: nat, n: nat, k: nat)
    requires k <= n
    ensures RowsOf(lines, cols, from, n)[..k] == RowsOf(lines, cols, from, k)
  {
    RowsOfAt(lines, cols, from, n);
    RowsOfAt(lines, cols, from, k);
  }

  /** The rows the line feeds push complete the history of the new capture. */
  lemma ScrolledHistory(older: seq<string>, newer: seq<string>, cols: nat, rows: nat, h: seq<Row>, screen: seq<Row>)
    requires Extends(older, newer, rows)
    requires h == HistoryOf(older, cols, |older| - rows)
    requires screen == RowsOf(older, cols, |older| - rows, rows)
    ensures ScrollInto(h, screen[..|newer| - |older|]) == HistoryOf(newer, cols, |newer| - rows)
  {
    hide RowsOf, ScrollInto, KeepLast;
    var k, top := |newer| - |older|, |older| - rows;
    RowsOfTake(older, cols, top, rows, k);
    ScrollIntoHistory(older, cols, top, k);
    SharedHistory(older, newer, cols, top + k);
  }

  /** The first half: `k` rows have moved into the history, the cursor is home. */
  lemma ScrollReaches(cols: nat, rows: nat, t: Term, k: nat, h: seq<Row>, screen: seq<Row>)
    requires rows <= PARAM_MAX && k <= rows == |t.screen|
    requires t.Valid() && t.parser.Ground? && !t.cursorShown && t.cols == cols
    requires h == ScrollInto(t.history, t.screen[..k])
    requires screen == t.screen[k..] + BlankRows(k, cols)
    ensures Jump(ScrollUp(Jump(t, rows, 1), k), 1, 1) == At(cols, h, screen, 0)
  {
    var bottom := Jump(t, rows, 1);
    var up := ScrollUp(bottom, k);
    assert up == At(cols, h, screen, rows - 1) by {
      assert bottom == At(cols, t.history, t.screen, rows - 1);
      ScrollUpFromBottom(cols, t.history, t.screen, k);
    }
    assert Jump(up, 1, 1) == At(cols, h, screen, 0);
  }

  /** The second half: every row is replaced. */
  lemma PaintReaches(newer: seq<string>, cols: nat, h: seq<Row>, screen: seq<Row>)
    requires Grid(cols, screen) && |screen| <= |newer| && CleanLines(newer, cols)
    ensures var from := |newer| - |screen|;
            var u := PaintTop(At(cols, h, screen, 0), newer[from..], |screen|);
            u.cols == cols && u.history == h && u.screen == RowsOf(newer, cols, from, |screen|) && u.parser.Ground?
  {
    var from := |newer| - |screen|;
    PaintTopReplaces(cols, h, screen, newer, from, |screen|);
    RowsOfAt(newer, cols, from, |screen|);
    assert ScreenAfter(screen, newer, cols, from, |screen|) == RowsOf(newer, cols, from, |screen|);
  }

  lemma PosedSame(t: Term, u: Term, cursor: Cursor)
    requires t.Valid() && u.Valid()
    requires t.cols == u.cols && t.history == u.history && t.screen == u.screen && t.parser == u.parser
    ensures Posed(t, cursor) == Posed(u, cursor)
  {
  }

  /** Wherever the cursor was, the operations show the end of the new capture above
      the history that the scrolling made. */
  lemma TailRunShows(newer: seq<string>, cols: nat, rows: nat, t: Term, k: nat, h: seq<Row>, cursor: Cursor)
    requires rows <= PARAM_MAX && k <= rows == |t.screen| && rows <= |newer| && CleanLines(newer, cols)
    requires t.Valid() && t.parser.Ground? && !t.cursorShown && t.cols == cols
    requires h == ScrollInto(t.history, t.screen[..k])
    ensures TailRun(t, newer, rows, k, cursor) == Posed(Page(newer, cols, rows, h), cursor)
  {
    hide Jump, ScrollUp, PaintTop, Posed, ScrollInto, RowsOf, CleanLine;
    var screen := t.screen[k..] + BlankRows(k, cols);
    var top := Jump(ScrollUp(Jump(t, rows, 1), k), 1, 1);
    assert top == At(cols, h, screen, 0) by { ScrollReaches(cols, rows, t, k, h, screen); }
    var painted, page := PaintTop(top, newer[|newer| - rows..], rows), Page(newer, cols, rows, h);
    assert painted.cols == cols && painted.history == h && painted.screen == page.screen && painted.parser.Ground? by {
      PaintReaches(newer, cols, h, screen);
    }
    PosedSame(painted, page, cursor);
  }

  /** Reconciliation is not merely close: on a canvas that shows the old capture the
      tail block leaves the very terminal that a rebuild from the new capture
      gives - history, screen, cursor and parser. */
  lemma TailEqualsRebuild(older: seq<string>, newer: seq<string>, cols: nat, rows: nat, c0: Cursor, c1: Cursor)
    requires 0 < cols && rows <= PARAM_MAX
    requires CleanLines(older, cols) && CleanLines(newer, cols)
    requires Extends(older, newer, rows)
    ensures Feed(Built(Capture(older), cols, rows, c0), TailText(newer, rows, |newer| - |older|, c1))
         == Built(Capture(newer), cols, rows, c1)
  {
    var k, page := |newer| - |older|, Shown(older, cols, rows);
    var t := Built(Capture(older), cols, rows, c0);
    assert t == Posed(page, c0) by { BuiltIsPosedPage(older, cols, rows, c0); }
    assert t.history == page.history && t.screen == page.screen && t.parser.Ground? && !t.cursorShown;
    assert Feed(t, TailText(newer, rows, k, c1)) == TailRun(t, newer, rows, k, c1) by {
      TailBytesDenote(t, newer, rows, k, c1);
    }
    assert TailRun(t, newer, rows, k, c1) == Posed(Shown(newer, cols, rows), c1) by {
      var h := ScrollInto(t.history, t.screen[..k]);
      TailRunShows(newer, cols, rows, t, k, h, c1);
      ScrolledHistory(older, newer, cols, rows, t.history, t.screen);
    }
    BuiltIsPosedPage(newer, cols, rows, c1);
  }

  // ---- a canvas over a whole run ----

  /** One delivered capture block. */
  datatype Seeding = Seeding(lines: seq<string>, cursor: Cursor)

  ghost predicate Clean(s: Seeding, cols: nat) { s.lines != [] && CleanLines(s.lines, cols) }

  function BuiltFrom(s: Seeding, cols: nat, rows: nat): (t: Term)
    requires 0 < cols && 0 < rows
    ensures t.Valid() && |t.screen| == rows && t.cols == cols
  {
    Built(Capture(s.lines), cols, rows, s.cursor)
  }

  /** Carries a verdict out on a canvas: rebuild, feed the tail, or leave it. */
  function Carry(t: Term, plan: ReseedPlan, s: Seeding): (u: Term)
    requires t.Valid()
    ensures u.Valid() && |u.screen| == |t.screen| && u.cols == t.cols
  {
    match plan
    case Rebuild => BuiltFrom(s, t.cols, |t.screen|)
    case Tail(bytes) => Feed(t, bytes)
    case Skip => t
  }

  /** On an unfed canvas every verdict comes to the same as a rebuild. */
  lemma CarryIsRebuild(t: Term, older: Seeding, s: Seeding, rows: nat)
    requires t.Valid() && |t.screen| == rows <= PARAM_MAX
    requires Clean(older, t.cols) && Clean(s, t.cols)
    requires t == BuiltFrom(older, t.cols, rows)
    ensures Carry(t, Verdict(older.lines, s.lines, rows, s.cursor, false), s) == BuiltFrom(s, t.cols, rows)
  {
    if Extends(older.lines, s.lines, rows) {
      TailEqualsRebuild(older.lines, s.lines, t.cols, rows, older.cursor, s.cursor);
    }
  }

  /** An unfed canvas after `seedings`, each reconciled with the one before. */
  function Reconciled(seedings: seq<Seeding>, cols: nat, rows: nat): (t: Term)
    requires seedings != [] && 0 < cols && 0 < rows
    ensures t.Valid() && |t.screen| == rows && t.cols == cols
  {
    var n := |seedings|;
    if n == 1 then BuiltFrom(seedings[0], cols, rows)
    else
      var older, s := seedings[n - 2].lines, seedings[n - 1];
      Carry(Reconciled(seedings[..n - 1], cols, rows), Verdict(older, s.lines, rows, s.cursor, false), s)
  }

  /** However many captures were merged by tail blocks and however many were
      rebuilt, the canvas is the one a rebuild from the latest capture gives. */
  lemma {:induction false} ReconciledIsRebuilt(seedings: seq<Seeding>, cols: nat, rows: nat)
    requires seedings != [] && 0 < cols && 0 < rows <= PARAM_MAX
    requires forall i :: 0 <= i < |seedings| ==> Clean(seedings[i], cols)
    ensures Reconciled(seedings, cols, rows) == BuiltFrom(seedings[|seedings| - 1], cols, rows)
  {
    hide Verdict, Carry, BuiltFrom, Clean;
    var n := |seedings|;
    if n > 1 {
      var earlier, last := seedings[n - 2], seedings[n - 1];
      ReconciledIsRebuilt(seedings[..n - 1], cols, rows);
      CarryIsRebuild(BuiltFrom(earlier, cols, rows), earlier, last, rows);
    }
  }

  // ---- why a fed canvas must not be painted ----

  lemma PosedAtBottom(older: seq<string>, cols: nat, rows: nat, cursor: Cursor)
    requires 0 < cols && 0 < rows <= PARAM_MAX && rows <= |older| && cursor.y + 1 >= rows
    ensures var t, u := Posed(Shown(older, cols, rows), cursor), Shown(older, cols, rows, false);
            t.parser.Ground? && t.(col := 0, wrapPending := false) == u.(col := 0, wrapPending := false)
  {
    hide RowsOf, HistoryOf;
  }

  lemma FirstLiveLine(older: seq<string>, line: string, cols: nat, rows: nat, cursor: Cursor)
    requires 0 < cols && 0 < rows <= PARAM_MAX && rows <= |older| && CleanLine(line, cols)
    requires cursor.y + 1 >= rows
    ensures Feed(Posed(Shown(older, cols, rows), cursor), "\r\n" + line)
         == Shown(older + [line], cols, rows, false)
  {
    hide Posed, Shown, Feed, CleanLine;
    var t, u := Posed(Shown(older, cols, rows), cursor), Shown(older, cols, rows, false);
    PosedAtBottom(older, cols, rows, cursor);
    FeedAppend(t, "\r\n", line);
    FeedAppend(u, "\r\n", line);
    BreakIgnoresColumn(t, u);
    FeedNextLine(older, line, cols, rows, false);
  }

  /** Live lines typed on a canvas whose cursor is on the bottom row. */
  lemma {:induction false} LiveLines(older: seq<string>, more: seq<string>, cols: nat, rows: nat, cursor: Cursor)
    requires 0 < cols && 0 < rows <= PARAM_MAX && rows <= |older| && more != []
    requires CleanLines(older, cols) && CleanLines(more, cols)
    requires cursor.y + 1 >= rows
    ensures Feed(Posed(Shown(older, cols, rows), cursor), "\r\n" + Capture(more))
         == Shown(older + more, cols, rows, false)
    decreases |more|
  {
    hide Posed, Shown, Feed, CleanLine;
    var t := Posed(Shown(older, cols, rows), cursor);
    var n := |more|;
    var init, last := more[..n - 1], more[n - 1];
    assert CleanLine(last, cols) && older + more == (older + init) + [last];
    if n == 1 {
      assert Capture(more) == last && older + init == older;
      FirstLiveLine(older, last, cols, rows, cursor);
    } else {
      LiveLines(older, init, cols, rows, cursor);
      JoinSnoc(init, last, "\r\n");
      assert init + [last] == more;
      assert "\r\n" + Capture(more) == ("\r\n" + Capture(init)) + ("\r\n" + last);
      FeedAppend(t, "\r\n" + Capture(init), "\r\n" + last);
      FeedNextLine(older + init, last, cols, rows, false);
    }
  }

  lemma BreakIgnoresColumn(t: Term, u: Term)
    requires t.Valid() && u.Valid() && t.parser.Ground? && u.parser.Ground?
    requires t.(col := 0, wrapPending := false) == u.(col := 0, wrapPending := false)
    ensures Feed(t, "\r\n") == Feed(u, "\r\n")
  {
    assert "\r\n"[1..] == "\n";
    FeedNewline(CarriageReturn(t));
  }

  /** A canvas that has followed the output is ahead of the snapshot: lines `race`
      arrived after the capture was taken.  The verdict is to leave it, and what
      it shows is exactly a rebuild of the capture with the late lines added. */
  lemma SkipKeepsLateLines(
      older: seq<string>, added: seq<string>, race: seq<string>, cols: nat, rows: nat, c0: Cursor, c1: Cursor)
    requires 0 < cols && 0 < rows <= PARAM_MAX && rows <= |older| && |added| <= rows
    requires added + race != [] && c0.y + 1 >= rows
    requires CleanLines(older, cols) && CleanLines(added, cols) && CleanLines(race, cols)
    ensures Verdict(older, older + added, rows, c1, true) == Skip
    ensures Feed(Built(Capture(older), cols, rows, c0), "\r\n" + Capture(added + race))
         == Shown((older + added) + race, cols, rows, false)
  {
    var newer := older + added;
    assert older[..|newer| - rows] == newer[..|newer| - rows];
    hide Built, Posed, Shown, Feed, Capture, TailText, CleanLine;
    assert CleanLines(added + race, cols);
    BuiltIsPosedPage(older, cols, rows, c0);
    LiveLines(older, added + race, cols, rows, c0);
    assert older + (added + race) == (older + added) + race;
  }
}
