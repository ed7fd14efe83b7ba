/** A pane and the canvas that follows it: the pane is a terminal of its own, its capture is
    the text of its rows, and a canvas is built from that (`Canvas::build` in
    `src/termview.rs`) and fed what the pane writes from then on. */
module Pane {
  import opened Text
  import T = Terminal
  import R = Reseed

  /** No wrap is pending and no escape sequence is open. */
  predicate AtRest(t: T.Term) { !t.wrapPending && t.parser.Ground? }

  /** One line for each row of history and screen; blanks at the end of a row may be left
      off. */
  ghost predicate Depicts(lines: seq<string>, t: T.Term) {
    && |lines| == |t.history| + |t.screen| && T.CleanLines(lines, t.cols)
    && (forall i :: 0 <= i < |t.history| ==> T.RowOf(lines, t.cols, i) == t.history[i])
    && forall i :: 0 <= i < |t.screen| ==> T.RowOf(lines, t.cols, |t.history| + i) == t.screen[i]
  }

  /** The cursor of the header; with a wrap pending it may stand behind the last column. */
  predicate PointsAt(cursor: R.Cursor, t: T.Term) {
    cursor.y == t.row && (cursor.x == t.col || (t.wrapPending && t.col < cursor.x))
  }

  /** What a capture of the pane gives. */
  ghost predicate Captured(lines: seq<string>, cursor: R.Cursor, t: T.Term) {
    t.Valid() && |t.screen| <= T.PARAM_MAX && t.col < T.PARAM_MAX && Depicts(lines, t) && PointsAt(cursor, t)
  }

  function Canvas(lines: seq<string>, cursor: R.Cursor, t: T.Term): (u: T.Term)
    requires t.Valid()
    ensures u.Valid() && |u.screen| == |t.screen| && u.cols == t.cols
  {
    R.Built(R.Capture(lines), t.cols, |t.screen|, cursor)
  }

  function TrimEnd(r: T.Row): string {
    if r != "" && r[|r| - 1] == ' ' then TrimEnd(r[..|r| - 1]) else r
  }

  /** What printing rows without the blanks at their ends gives. */
  function Printed(rows: seq<T.Row>): (lines: seq<string>)
    ensures |lines| == |rows|
  {
    if rows == [] then [] else Printed(rows[..|rows| - 1]) + [TrimEnd(rows[|rows| - 1])]
  }

  lemma {:induction false} TrimEndPads(r: T.Row)
    ensures |TrimEnd(r)| <= |r| && TrimEnd(r) + T.Blank(|r| - |TrimEnd(r)|) == r
    ensures T.CleanText(r) ==> T.CleanText(TrimEnd(r))
  {
    if r != "" && r[|r| - 1] == ' ' {
      TrimEndPads(r[..|r| - 1]);
    }
  }

  lemma {:induction false} PrintedAt(rows: seq<T.Row>, i: nat)
    requires i < |rows|
    ensures Printed(rows)[i] == TrimEnd(rows[i])
  {
    if i < |rows| - 1 { PrintedAt(rows[..|rows| - 1], i); }
  }

  /** Printing the rows of a pane gives a capture of it. */
  lemma PrintedDepicts(t: T.Term)
    requires t.Valid() && forall i :: 0 <= i < |t.history| ==> |t.history[i]| == t.cols && T.CleanText(t.history[i])
    requires forall i :: 0 <= i < |t.screen| ==> T.CleanText(t.screen[i])
    ensures Depicts(Printed(t.history + t.screen), t)
  {
    hide TrimEnd, Printed, T.CleanText, T.Blank;
    var all := t.history + t.screen;
    var lines := Printed(all);
    forall i | 0 <= i < |all| ensures T.RowOf(lines, t.cols, i) == all[i] && T.CleanLine(lines[i], t.cols) {
      PrintedAt(all, i);
      TrimEndPads(all[i]);
    }
  }

  /** The rows of a pane, printed, are a capture of it with the cursor where it stands, and,
      with a wrap pending, with one anywhere behind the last column - and with no other. */
  lemma CapturedIff(t: T.Term, cursor: R.Cursor)
    requires t.Valid() && forall i :: 0 <= i < |t.history| ==> |t.history[i]| == t.cols && T.CleanText(t.history[i])
    requires forall i :: 0 <= i < |t.screen| ==> T.CleanText(t.screen[i])
    requires |t.screen| <= T.PARAM_MAX && t.cols <= T.PARAM_MAX
    ensures Captured(Printed(t.history + t.screen), cursor, t)
       <==> cursor == R.Cursor(t.col, t.row) || (t.wrapPending && cursor.y == t.row && t.cols <= cursor.x)
  {
    hide Depicts, Printed, T.CleanText;
    PrintedDepicts(t);
  }

  /** The same screen, cursor and bounded history, and the same state of the parser. */
  predicate Alike(t: T.Term, u: T.Term) {
    && t.cols == u.cols && t.screen == u.screen && t.row == u.row && t.col == u.col
    && t.wrapPending == u.wrapPending && t.parser == u.parser && T.KeepLast(t.history) == T.KeepLast(u.history)
  }

  /** The same screen and cursor position. */
  predicate SameScreen(t: T.Term, u: T.Term) { t.screen == u.screen && t.row == u.row && t.col == u.col }

  lemma KeepTwice(h: seq<T.Row>)
    ensures T.KeepLast(T.KeepLast(h)) == T.KeepLast(h)
  {
    T.KeepLastAppend(h, []);
    assert T.KeepLast(h) + [] == T.KeepLast(h) && h + [] == h;
  }

  /** A history that was cut before grows to the same. */
  lemma GrowAlike(h: seq<T.Row>, k: seq<T.Row>, r: T.Row)
    requires T.KeepLast(h) == T.KeepLast(k)
    ensures T.KeepLast(h + [r]) == T.KeepLast(k + [r])
  {
    T.KeepLastAppend(h, [r]);
    T.KeepLastAppend(k, [r]);
  }

  lemma LineFeedAlike(t: T.Term, u: T.Term)
    requires t.Valid() && u.Valid() && Alike(t, u)
    ensures Alike(T.LineFeed(t), T.LineFeed(u))
  {
    hide T.KeepLast;
    GrowAlike(t.history, u.history, t.screen[0]);
    KeepTwice(t.history + [t.screen[0]]);
    KeepTwice(u.history + [u.screen[0]]);
  }

  lemma PutAlike(t: T.Term, u: T.Term, c: char)
    requires t.Valid() && u.Valid() && Alike(t, u)
    ensures Alike(T.Put(t, c), T.Put(u, c))
  {
    hide T.KeepLast, T.LineFeed;
    LineFeedAlike(T.CarriageReturn(t), T.CarriageReturn(u));
  }

  lemma DispatchAlike(t: T.Term, u: T.Term, text: string, final: char)
    requires t.Valid() && u.Valid() && Alike(t, u)
    ensures Alike(T.Dispatch(t, text, final), T.Dispatch(u, text, final))
  {
    hide T.KeepLast, T.Param;
  }

  lemma StepAlike(t: T.Term, u: T.Term, c: char)
    requires t.Valid() && u.Valid() && Alike(t, u)
    ensures Alike(T.Step(t, c), T.Step(u, c))
  {
    hide T.KeepLast, T.LineFeed, T.Put, T.Dispatch;
    if t.parser.Csi? {
      DispatchAlike(t.(parser := T.Ground), u.(parser := T.Ground), t.parser.text, c);
    } else if t.parser.Ground? {
      LineFeedAlike(t, u);
      PutAlike(t, u, c);
    }
  }

  /** Whatever bytes come, two terminals that are alike stay alike. */
  lemma {:induction false} FeedAlike(t: T.Term, u: T.Term, s: string)
    requires t.Valid() && u.Valid() && Alike(t, u)
    ensures Alike(T.Feed(t, s), T.Feed(u, s))
    decreases |s|
  {
    hide Alike, T.Step;
    if s != "" {
      StepAlike(t, u, s[0]);
      FeedAlike(T.Step(t, s[0]), T.Step(u, s[0]), s[1..]);
    }
  }

  lemma RowsAre(lines: seq<string>, cols: nat, from: nat, rows: seq<T.Row>)
    requires forall i :: 0 <= i < |rows| ==> T.RowOf(lines, cols, from + i) == rows[i]
    ensures T.RowsOf(lines, cols, from, |rows|) == rows
  {
    hide T.RowsOf, T.RowOf;
    forall i | 0 <= i < |rows| ensures T.RowsOf(lines, cols, from, |rows|)[i] == rows[i] {
      T.RowAt(lines, cols, from, |rows|, i);
    }
  }

  /** A canvas built from a pane's capture is the pane, but that no wrap is pending, no
      sequence is open and the cursor is hidden. */
  lemma CanvasIs(lines: seq<string>, cursor: R.Cursor, t: T.Term)
    requires Captured(lines, cursor, t)
    ensures Canvas(lines, cursor, t)
         == t.(history := T.KeepLast(t.history), wrapPending := false, cursorShown := false, parser := T.Ground)
  {
    hide T.RowsOf, T.RowOf, T.KeepLast, R.Built, R.Capture;
    var h := |t.history|;
    R.BuiltIsPosedPage(lines, t.cols, |t.screen|, cursor);
    RowsAre(lines, t.cols, h, t.screen);
    assert forall i :: 0 <= i < h ==> T.RowOf(lines, t.cols, 0 + i) == t.history[i];
    RowsAre(lines, t.cols, 0, t.history);
    assert T.Scrolled(|lines|, |t.screen|) == h;
  }

  /** The canvas and its pane: built from a capture of the pane at rest and fed what the pane
      writes from then on, it has the pane's screen, cursor and history at all times. */
  lemma CanvasFollowsPane(lines: seq<string>, cursor: R.Cursor, t: T.Term, out: string)
    requires Captured(lines, cursor, t) && AtRest(t)
    ensures Alike(T.Feed(Canvas(lines, cursor, t), out), T.Feed(t, out))
  {
    hide T.KeepLast, Canvas, Captured;
    CanvasIs(lines, cursor, t);
    KeepTwice(t.history);
    assert t.Valid() by { CapturedValid(lines, cursor, t); }
    FeedAlike(Canvas(lines, cursor, t), t, out);
  }

  lemma CapturedValid(lines: seq<string>, cursor: R.Cursor, t: T.Term)
    requires Captured(lines, cursor, t)
    ensures t.Valid()
  {
  }

  lemma FeedOne(t: T.Term, c: char)
    requires t.Valid()
    ensures T.Feed(t, [c]) == T.Step(t, c)
  {
    hide T.Step;
    assert [c][1..] == "";
  }

  /** A letter that is not on the cell under the cursor. */
  function Other(t: T.Term): (c: char)
    requires t.Valid()
    ensures c == 'x' || c == 'y'
    ensures c != t.screen[t.row][t.col]
  {
    if t.screen[t.row][t.col] == 'x' then 'y' else 'x'
  }

  /** A pane with a wrap pending goes on in the next row, and the canvas in this one. */
  lemma WrapParts(t: T.Term, u: T.Term, c: char)
    requires t.Valid() && u.Valid() && t.cols >= 2 && T.Printable(c) && c != ' '
    requires t.parser.Ground? && t.wrapPending && u.parser.Ground? && !u.wrapPending && u.cols == t.cols
    requires SameScreen(t, u)
    ensures !SameScreen(T.Step(t, c), T.Step(u, c))
  {
    hide T.KeepLast;
    var t', u' := T.Step(t, c), T.Step(u, c);
    assert u'.screen[u'.row][t.cols - 1] == c;
    assert t'.row == t.row ==> t'.screen[t'.row][t.cols - 1] == ' ' by {
      assert T.Blank(t.cols)[t.cols - 1] == ' ';
    }
  }

  /** A pane inside a sequence takes the letter into it, and the canvas prints it. */
  lemma SequenceParts(t: T.Term, u: T.Term)
    requires t.Valid() && u.Valid() && !t.parser.Ground? && u.parser.Ground? && !u.wrapPending && SameScreen(t, u)
    ensures !SameScreen(T.Step(t, Other(t)), T.Step(u, Other(t)))
  {
    hide T.KeepLast;
    var c := Other(t);
    assert SameScreen(T.Step(t, c), t);
    assert T.Step(u, c).screen[u.row][u.col] == c;
  }

  /** And only then: the canvas shows what the pane shows, whatever it writes, if and only if
      the pane was at rest when the capture was taken. */
  lemma FollowsIffAtRest(lines: seq<string>, cursor: R.Cursor, t: T.Term)
    requires Captured(lines, cursor, t) && t.cols >= 2
    ensures (forall out :: SameScreen(T.Feed(Canvas(lines, cursor, t), out), T.Feed(t, out))) <==> AtRest(t)
  {
    hide T.KeepLast, Canvas, T.Step, T.Feed;
    CanvasIs(lines, cursor, t);
    var u := Canvas(lines, cursor, t);
    if AtRest(t) {
      forall out ensures SameScreen(T.Feed(u, out), T.Feed(t, out)) {
        CanvasFollowsPane(lines, cursor, t, out);
      }
    } else {
      var c := Other(t);
      FeedOne(t, c);
      FeedOne(u, c);
      if t.parser.Ground? { WrapParts(t, u, c); } else { SequenceParts(t, u); }
      assert !SameScreen(T.Feed(u, [c]), T.Feed(t, [c]));
    }
  }

  /** Leaving a fed canvas alone: the canvas of the old capture, fed what was written between
      the captures and any bytes after the new one, is alike with a rebuild of the new
      capture fed those after it. */
  lemma SkipKeepsLateBytes(
      older: seq<string>, c0: R.Cursor, t: T.Term, between: string, newer: seq<string>, c1: R.Cursor, late: string)
    requires Captured(older, c0, t) && AtRest(t)
    requires Captured(newer, c1, T.Feed(t, between)) && AtRest(T.Feed(t, between))
    ensures R.Extends(older, newer, |t.screen|) ==> R.Verdict(older, newer, |t.screen|, c1, true) == R.Skip
    ensures Alike(T.Feed(Canvas(older, c0, t), between + late),
                  T.Feed(Canvas(newer, c1, T.Feed(t, between)), late))
  {
    hide T.KeepLast, Canvas, T.Feed, Depicts;
    var t' := T.Feed(t, between);
    CanvasFollowsPane(older, c0, t, between + late);
    CanvasFollowsPane(newer, c1, t', late);
    T.FeedAppend(t, between, late);
  }
}
