/** The canvas of a warm session and what the seeding machine's acts do to it (`ctrl_exec`
    and its callers in `src/android_app.rs`).  All acts of a stretch of input are worked
    out before the first of them is carried out; what that costs is stated here. */
module CanvasSlot {
  import opened Text
  import CF = CtrlFeed
  import R = Reseed
  import T = Terminal
  import P = Pane

  datatype Grid = Grid(cols: nat, rows: nat)

  /** The grid of the canvas; it stays the same over the life of a slot. */
  type Geometry = g: Grid | 0 < g.cols && 0 < g.rows <= T.PARAM_MAX witness Grid(80, 24)

  type Canvas = t: T.Term | t.Valid() witness T.Fresh(80, 24)

  /** A capture and the cursor position from its header. */
  datatype Snapshot = Snapshot(text: string, cursor: R.Cursor)

  /** The canvas that is built from a capture. */
  function Shown(g: Geometry, snap: Snapshot): Canvas { R.Built(snap.text, g.cols, g.rows, snap.cursor) }

  /** One entry of the pool.  The canvas lies in the pool or, while the user scrolls back,
      in the view.  `build` is the capture that a thread is building a canvas from.  The
      last two fields are bookkeeping: the capture that the canvas was last built or
      repainted from, and the bytes fed to it since. */
  datatype Slot = Slot(
    open: bool, feed: CF.State, buf: string, canvas: Option<Canvas>, inView: bool, pending: string,
    build: Option<Snapshot>, lastCap: Option<string>, fed: bool, stale: bool, base: Option<Snapshot>, log: string)

  function Empty(): Slot { Slot(false, CF.Initial(), "", None, false, "", None, None, false, false, None, "") }

  // ---- the acts ----

  function Fed(canvas: Option<Canvas>, bytes: string): Option<Canvas> {
    if canvas.None? then None else Some(T.Feed(canvas.value, bytes))
  }

  /** The verdict on a new capture; without an account of the old one it is to rebuild. */
  function Plan(s: Slot, snap: Snapshot, rows: nat): R.ReseedPlan {
    if s.stale || s.lastCap.None? then R.Rebuild
    else R.Verdict(R.LinesOf(s.lastCap.value), R.LinesOf(snap.text), rows, snap.cursor, s.fed)
  }

  /** The canvas is kept: left alone, or repainted in place. */
  predicate Merges(s: Slot, snap: Snapshot, rows: nat) {
    var plan := Plan(s, snap, rows);
    plan.Skip? || (plan.Tail? && s.canvas.Some?)
  }

  function Merged(s: Slot, snap: Snapshot, rows: nat): Slot {
    var plan := Plan(s, snap, rows);
    s.(canvas := Fed(if plan.Tail? then Fed(s.canvas, plan.bytes) else s.canvas, s.pending),
       base := if plan.Tail? then Some(snap) else s.base,
       log := (if plan.Tail? then "" else s.log) + (if s.canvas.Some? then s.pending else ""),
       pending := "", feed := s.feed.(phase := CF.Steady), lastCap := Some(snap.text),
       fed := plan.Skip? || (s.pending != "" && s.canvas.Some?), stale := false)
  }

  function Torn(s: Slot): Slot {
    s.(open := false, feed := CF.AfterReset(s.feed), pending := "", build := None)
  }

  /** `ctrl_exec`. */
  function Exec(s: Slot, act: CF.Act, rows: nat): Slot {
    match act
    case Feed(bytes) =>
      if s.canvas.None? then s.(stale := true)
      else s.(canvas := Fed(s.canvas, bytes), log := s.log + bytes, fed := true)
    case Pend(bytes) => s.(pending := s.pending + bytes)
    case Build(text, x, y) =>
      var snap := Snapshot(text, R.Cursor(x, y));
      if Merges(s, snap, rows) then Merged(s, snap, rows) else s.(pending := "", build := Some(snap))
    case SeedFail(_) => s.(feed := CF.AfterReset(s.feed))
    case Dead => Torn(s)
    case Reconcile => s
    case Nothing => s
  }

  function ExecAll(s: Slot, acts: seq<CF.Act>, rows: nat): Slot {
    if acts == [] then s else Exec(ExecAll(s, acts[..|acts| - 1], rows), acts[|acts| - 1], rows)
  }

  /** The slot when a stretch of input has been taken in and nothing carried out yet. */
  function Read(s: Slot, data: string): Slot {
    var r := CF.Consume(s.feed, s.buf + data);
    s.(feed := r.state, buf := r.left)
  }

  function ActsIn(s: Slot, data: string): seq<CF.Act> { CF.Consume(s.feed, s.buf + data).acts }

  /** `ctrl_on_event`: first all acts, then their execution. */
  function Took(s: Slot, data: string, rows: nat): Slot { ExecAll(Read(s, data), ActsIn(s, data), rows) }

  // ---- what else happens to a slot ----

  datatype Input =
    | Chunk(data: string)
    | Install(browsing: bool)  // the building thread delivers, to the view or to the pool
    | Broken                   // it dies
    | Seed(token: nat)         // a seed command on the open channel
    | Down                     // the channel exits or fails
    | Unheard(bytes: string)   // the pane writes while no channel is open
    | Reopen(token: nat)
    | Show                     // the view takes the canvas
    | Park                     // and gives it back, or drops it if no pane is claimed
    | Drop                     // the view drops it

  function Installed(s: Slot, g: Geometry, browsing: bool): Slot {
    if s.build.None? then s
    else s.(canvas := Fed(Some(Shown(g, s.build.value)), s.pending), inView := s.inView || browsing,
            base := s.build, log := s.pending, pending := "", build := None, lastCap := Some(s.build.value.text),
            fed := s.pending != "", stale := false, feed := s.feed.(phase := CF.Steady))
  }

  /** Only a canvas in the pool is distrusted. */
  function Reopened(s: Slot, token: nat): Slot {
    s.(open := true, feed := CF.AfterSeed(CF.AfterReset(s.feed), token),
       stale := s.stale || (s.canvas.Some? && !s.inView))
  }

  function Dropped(s: Slot): Slot {
    if s.inView then s.(canvas := None, inView := false, base := None, log := "") else s
  }

  function Next(s: Slot, input: Input, g: Geometry): Slot {
    match input
    case Chunk(data) => Took(s, data, g.rows)
    case Install(browsing) => Installed(s, g, browsing)
    case Broken => if s.build.None? then s else s.(build := None, feed := CF.AfterReset(s.feed))
    case Seed(token) =>
      if s.open && s.feed.phase == CF.Steady then s.(feed := CF.AfterSeed(s.feed, token)) else s
    case Down => Torn(s)
    case Unheard(_) => s
    case Reopen(token) => if s.open then s else Reopened(s, token)
    case Show => s.(inView := s.canvas.Some?)
    case Park => if s.feed.pane.Some? then s.(inView := false) else Dropped(s)
    case Drop => Dropped(s)
  }

  function Run(s: Slot, inputs: seq<Input>, g: Geometry): Slot {
    if inputs == [] then s else Next(Run(s, inputs[..|inputs| - 1], g), inputs[|inputs| - 1], g)
  }

  // ---- the canvas is what was fed to it ----

  /** A capture of plain lines that fit the grid. */
  ghost predicate Legible(text: string, cols: nat) {
    R.Capture(R.LinesOf(text)) == text && T.CleanLines(R.LinesOf(text), cols)
  }

  ghost predicate Sound(s: Slot, g: Geometry) {
    && s.canvas == (if s.base.None? then None else Some(T.Feed(Shown(g, s.base.value), s.log)))
    && (s.base.Some? ==> Legible(s.base.value.text, g.cols))
    && (s.build.Some? ==> Legible(s.build.value.text, g.cols))
    && (s.base.Some? && !s.fed ==> s.log == "" && s.lastCap == Some(s.base.value.text))
  }

  lemma FeedNothing(t: T.Term)
    requires t.Valid()
    ensures T.Feed(t, "") == t
  {
  }

  lemma FedMore(g: Geometry, snap: Snapshot, log: string, more: string)
    ensures Fed(Some(T.Feed(Shown(g, snap), log)), more) == Some(T.Feed(Shown(g, snap), log + more))
  {
    T.FeedAppend(Shown(g, snap), log, more);
  }

  /** A tail block on a canvas that shows the old capture alone makes it the canvas of
      the new one. */
  lemma TailMakesNew(g: Geometry, base: Snapshot, snap: Snapshot)
    requires Legible(base.text, g.cols) && Legible(snap.text, g.cols)
    requires R.Extends(R.LinesOf(base.text), R.LinesOf(snap.text), g.rows)
    ensures var older, newer := R.LinesOf(base.text), R.LinesOf(snap.text);
            T.Feed(Shown(g, base), R.TailText(newer, g.rows, |newer| - |older|, snap.cursor)) == Shown(g, snap)
  {
    R.TailEqualsRebuild(R.LinesOf(base.text), R.LinesOf(snap.text), g.cols, g.rows, base.cursor, snap.cursor);
  }

  lemma MergedIsSound(s: Slot, snap: Snapshot, g: Geometry)
    requires Sound(s, g) && Merges(s, snap, g.rows) && Legible(snap.text, g.cols)
    ensures Sound(Merged(s, snap, g.rows), g)
  {
    hide Legible, Shown;
    if s.canvas.None? { return; }
    var base := s.base.value;
    if s.fed {
      FedMore(g, base, s.log, s.pending);
    } else {
      FeedNothing(Shown(g, base));
      TailMakesNew(g, base, snap);
      FeedNothing(Shown(g, snap));
      FedMore(g, snap, "", s.pending);
      assert "" + s.pending == s.pending;
    }
  }

  lemma ExecIsSound(s: Slot, act: CF.Act, g: Geometry)
    requires Sound(s, g) && (act.Build? ==> Legible(act.text, g.cols))
    ensures Sound(Exec(s, act, g.rows), g)
  {
    hide Legible, Shown, Merged, Merges;
    if act.Build? {
      var snap := Snapshot(act.text, R.Cursor(act.x, act.y));
      if Merges(s, snap, g.rows) {
        MergedIsSound(s, snap, g);
      }
    } else if act.Feed? && s.canvas.Some? {
      FedMore(g, s.base.value, s.log, act.bytes);
    }
  }

  ghost predicate AllLegible(acts: seq<CF.Act>, cols: nat) {
    forall i :: 0 <= i < |acts| && acts[i].Build? ==> Legible(acts[i].text, cols)
  }

  lemma {:induction false} ExecAllIsSound(s: Slot, acts: seq<CF.Act>, g: Geometry)
    requires Sound(s, g) && AllLegible(acts, g.cols)
    ensures Sound(ExecAll(s, acts, g.rows), g)
  {
    hide Sound, Exec, Legible;
    if acts != [] {
      ExecAllIsSound(s, acts[..|acts| - 1], g);
      ExecIsSound(ExecAll(s, acts[..|acts| - 1], g.rows), acts[|acts| - 1], g);
    }
  }

  /** Every capture that a run delivers is legible. */
  ghost predicate LegibleRun(s: Slot, inputs: seq<Input>, g: Geometry) {
    inputs == [] ||
    var init, last := inputs[..|inputs| - 1], inputs[|inputs| - 1];
    LegibleRun(s, init, g) && (last.Chunk? ==> AllLegible(ActsIn(Run(s, init, g), last.data), g.cols))
  }

  lemma TookIsSound(s: Slot, data: string, g: Geometry)
    requires Sound(s, g) && AllLegible(ActsIn(s, data), g.cols)
    ensures Sound(Took(s, data, g.rows), g)
  {
    hide Legible, Shown, ExecAll, AllLegible;
    ExecAllIsSound(Read(s, data), ActsIn(s, data), g);
  }

  lemma InstalledIsSound(s: Slot, g: Geometry, browsing: bool)
    requires Sound(s, g)
    ensures Sound(Installed(s, g, browsing), g)
  {
    hide Legible, Shown;
    if s.build.None? { return; }
    FeedNothing(Shown(g, s.build.value));
    FedMore(g, s.build.value, "", s.pending);
    assert "" + s.pending == s.pending;
  }

  lemma NextIsSound(s: Slot, input: Input, g: Geometry)
    requires Sound(s, g) && (input.Chunk? ==> AllLegible(ActsIn(s, input.data), g.cols))
    ensures Sound(Next(s, input, g), g)
  {
    hide Legible, Shown, Took, AllLegible, Installed, T.Feed, CF.AfterSeed, CF.AfterReset, Fed;
    match input {
      case Chunk(data) =>
        TookIsSound(s, data, g);
      case Install(browsing) => InstalledIsSound(s, g, browsing);
      case _ =>
    }
  }

  /** Over any run - captures merged, skipped or rebuilt, seedings failed, threads and
      channels lost, whatever is late - the canvas is a rebuild of one capture followed
      by the bytes fed since. */
  lemma {:induction false} RunIsSound(s: Slot, inputs: seq<Input>, g: Geometry)
    requires Sound(s, g) && LegibleRun(s, inputs, g)
    ensures Sound(Run(s, inputs, g), g)
  {
    hide Sound, Next, AllLegible;
    if inputs != [] {
      RunIsSound(s, inputs[..|inputs| - 1], g);
      NextIsSound(Run(s, inputs[..|inputs| - 1], g), inputs[|inputs| - 1], g);
    }
  }

  // ---- the output as the pane wrote it ----

  /** What the canvas should show.  `pane` is the one claimed last; `base` is the capture of
      the canvas, taken of the pane `of`; `out` is all that the pane has written since,
      heard or not; `next` is the capture of a canvas that is being built, and `late` is
      what the pane has written since that. */
  datatype Book = Book(
    pane: Option<nat>, of: Option<nat>, base: Option<Snapshot>, out: string, next: Option<Snapshot>, late: string)

  const NO_BOOK: Book := Book(None, None, None, "", None, "")

  /** What a line says the pane wrote. */
  function Said(pane: Option<nat>, line: string): string {
    var ev := CF.ParseLine(line);
    if ev.Output? && pane == Some(ev.pane) then ev.bytes else ""
  }

  function Written(b: Book, bytes: string): Book {
    if b.next.Some? then b.(late := b.late + bytes)
    else if b.base.Some? then b.(out := b.out + bytes)
    else b
  }

  function Followed(b: Book, pane: Option<nat>): Book { if pane.Some? then b.(pane := pane) else b }

  /** No canvas is built any more: the one that is there should show it all. */
  function Settled(b: Book): Book {
    if b.next.None? then b
    else b.(out := if b.base.Some? then b.out + b.late else b.out, next := None, late := "")
  }

  /** A slot at `s` carries out an act. */
  function Noted(b: Book, s: Slot, act: CF.Act, rows: nat): Book {
    match act
    case Build(text, x, y) =>
      var snap := Snapshot(text, R.Cursor(x, y));
      if !Merges(s, snap, rows) then b.(next := Some(snap), late := "")
      else if Plan(s, snap, rows).Tail? then b.(base := Some(snap), of := b.pane, out := "")
      else b
    case Dead => Settled(b)
    case _ => b
  }

  /** The book after a line that met the machine at `f`. */
  function Entered(b: Book, s: Slot, f: CF.State, line: string, rows: nat): Book {
    var (f', act) := CF.OnLine(f, line);
    Noted(Followed(Written(b, Said(b.pane, line)), f'.pane), s, act, rows)
  }

  function Entries(b: Book, s: Slot, f: CF.State, lines: seq<string>, rows: nat): Book {
    if lines == [] then b
    else
      var init := lines[..|lines| - 1];
      Entered(Entries(b, s, f, init, rows), ExecAll(s, CF.ActsOf(f, init), rows), CF.StateAfter(f, init),
              lines[|lines| - 1], rows)
  }

  function LinesOf(s: Slot, data: string): seq<string> { CF.LinesIn(s.buf + data) }

  function BookAfter(b: Book, s: Slot, input: Input, g: Geometry): Book {
    match input
    case Chunk(data) => Entries(b, Read(s, data), s.feed, LinesOf(s, data), g.rows)
    case Install(_) => if b.next.None? then b else Book(b.pane, b.pane, b.next, b.late, None, "")
    case Broken => Settled(b)
    case Down => Settled(b)
    case Unheard(bytes) => if s.open then b else Written(b, bytes)
    case Park => if s.inView && s.feed.pane.None? then b.(base := None, out := "") else b
    case Drop => if s.inView then b.(base := None, out := "") else b
    case _ => b
  }

  function Books(b: Book, s: Slot, inputs: seq<Input>, g: Geometry): Book {
    if inputs == [] then b
    else
      var init := inputs[..|inputs| - 1];
      BookAfter(Books(b, s, init, g), Run(s, init, g), inputs[|inputs| - 1], g)
  }

  /** All that the pane has written is on its canvas, or in the queue of the canvas being
      built, in order; and nothing is queued that no canvas waits for. */
  predicate InStep(s: Slot, b: Book) {
    && s.base == b.base && s.log == b.out && s.build == b.next
    && (b.base.Some? ==> b.of == b.pane)
    && (if b.next.Some? then s.pending == b.late else b.base.Some? ==> s.pending == "")
  }

  /** Following a pane over a stretch as the machine claims no other: the book gains exactly
      what the pane writes there. */
  lemma {:induction false} BookIsWrote(b: Book, s: Slot, f: CF.State, lines: seq<string>, pane: nat, rows: nat)
    requires b.pane == Some(pane)
    requires forall i :: 0 <= i <= |lines| ==> CF.StateAfter(f, lines[..i]).pane in {None, Some(pane)}
    requires forall i :: 0 <= i < |lines| ==> !CF.ActsOf(f, lines)[i].Build? && !CF.ActsOf(f, lines)[i].Dead?
    ensures Entries(b, s, f, lines, rows) == Written(b, CF.Wrote(lines, pane))
    decreases |lines|
  {
    hide CF.OnLine, CF.StateAfter, CF.ActsOf, CF.Wrote, Said, CF.ParseLine, ExecAll;
    if lines == [] {
      NothingWrote(pane);
      NothingWritten(b);
    } else {
      var init, line := lines[..|lines| - 1], lines[|lines| - 1];
      assert lines == init + [line] && lines[..|lines|] == lines;
      CF.ActsOfSnoc(f, init, line);
      CF.AfterSnoc(f, init, line);
      forall i | 0 <= i <= |init| ensures CF.StateAfter(f, init[..i]).pane in {None, Some(pane)} {
        assert init[..i] == lines[..i];
      }
      forall i | 0 <= i < |init| ensures !CF.ActsOf(f, init)[i].Build? && !CF.ActsOf(f, init)[i].Dead? {
        assert CF.ActsOf(f, init)[i] == CF.ActsOf(f, lines)[i];
      }
      BookIsWrote(b, s, f, init, pane, rows);
      WroteSnoc(init, line, pane);
      assert !CF.ActsOf(f, lines)[|init|].Build?;
      WrittenTwice(b, CF.Wrote(init, pane), Said(Some(pane), line));
    }
  }

  lemma NothingWrote(pane: nat)
    ensures CF.Wrote([], pane) == ""
  {
  }

  lemma NothingWritten(b: Book)
    ensures Written(b, "") == b
  {
    assert b.late + "" == b.late && b.out + "" == b.out;
  }

  lemma WrittenTwice(b: Book, x: string, y: string)
    ensures Written(Written(b, x), y) == Written(b, x + y)
  {
    Regroup(b.late, x, y);
    Regroup(b.out, x, y);
  }

  lemma WroteSnoc(lines: seq<string>, line: string, pane: nat)
    ensures CF.Wrote(lines + [line], pane) == CF.Wrote(lines, pane) + Said(Some(pane), line)
  {
    hide CF.ParseLine;
    assert (lines + [line])[..|lines|] == lines;
    assert CF.Wrote(lines, pane) + "" == CF.Wrote(lines, pane);
  }

  // ---- the shape of a stretch of acts ----

  /** Nothing is claimed and no round is open; no line changes that. */
  predicate Idle(f: CF.State) { CF.AfterReset(f) == f }

  lemma IdleStaysIdle(f: CF.State, line: string)
    requires Idle(f)
    ensures var (f', act) := CF.OnLine(f, line); f' == f && (act.Nothing? || act.Dead?)
  {
    hide CF.ParseLine;
  }

  lemma ResetIsIdle(f: CF.State)
    ensures Idle(CF.AfterReset(f))
  {
  }

  /** Behind the header of a round a pane is claimed. */
  predicate Claims(f: CF.State) { f.phase in {CF.Steady, CF.AwaitHeader} || f.pane.Some? }

  /** What one line does, as far as the slot goes by it. */
  ghost predicate Moves(f: CF.State, f': CF.State, act: CF.Act) {
    && (act.Feed? ==> f' == f && f.phase != CF.Building && f.pane.Some?)
    && (act.Pend? ==> f' == f && f.phase == CF.Building)
    && (act.Build? ==> f.phase == CF.InCapture && f'.phase == CF.Building && f'.pane == f.pane)
    && (act.SeedFail? || act.Dead? ==> Idle(f'))
    && (!act.Build? && !act.Dead? ==> (f'.phase == CF.Building <==> f.phase == CF.Building))
    && (Claims(f) ==> Claims(f'))
  }

  lemma LineMoves(f: CF.State, line: string)
    ensures Moves(f, CF.OnLine(f, line).0, CF.OnLine(f, line).1)
  {
    hide CF.ParseLine, CF.ParseHeader, CF.Clipped, CF.Blanked;
  }

  function Bytes(act: CF.Act): string { if act.Feed? || act.Pend? then act.bytes else "" }

  /** What a line says is handed over if and only if it is said of the claimed pane. */
  lemma LineSays(f: CF.State, line: string)
    ensures var act := CF.OnLine(f, line).1;
            && Bytes(act) == (if f.pane.Some? then Said(f.pane, line) else "")
            && (act.Build? || act.Dead? ==> forall pane :: Said(pane, line) == "")
  {
    hide CF.ParseLine, CF.ParseHeader, CF.Clipped, CF.Blanked;
  }

  predicate MergesAt(s: Slot, act: CF.Act, rows: nat) {
    act.Build? && Merges(s, Snapshot(act.text, R.Cursor(act.x, act.y)), rows)
  }

  /** One of the acts keeps the canvas. */
  predicate MergedIn(s: Slot, acts: seq<CF.Act>, rows: nat) {
    acts != [] &&
    var init := acts[..|acts| - 1];
    MergedIn(s, init, rows) || MergesAt(ExecAll(s, init, rows), acts[|acts| - 1], rows)
  }

  // ---- what goes wrong in a stretch ----

  /** What a canvas lacks after a stretch: the bytes handed over behind a capture that kept
      it; the bytes that the pane wrote while it was not claimed, or that were queued when
      the channel ended; and whether the pane claimed last is another than its own. */
  datatype Lapse = Lapse(late: string, missed: string, turned: bool)

  const CLEAN: Lapse := Lapse("", "", false)

  /** The lapse after a line that met the machine at `f`, the slot at `s` and the book at `b`;
      `merged` if a capture has kept the canvas.  A repainted canvas lacks nothing. */
  function LapsedBy(l: Lapse, b: Book, s: Slot, f: CF.State, line: string, merged: bool, rows: nat): Lapse {
    var (f', act) := CF.OnLine(f, line);
    if b.base.None? then l
    else
      match act
      case Build(text, x, y) =>
        if MergesAt(s, act, rows) && Plan(s, Snapshot(text, R.Cursor(x, y)), rows).Tail? then CLEAN else l
      case Dead => if b.next.Some? then l.(missed := l.missed + b.late) else l
      case _ =>
        Lapse(l.late + if merged then Bytes(act) else "",
              l.missed + if f.pane.None? then Said(b.pane, line) else "",
              if f'.pane.Some? then f'.pane != b.of else l.turned)
  }

  function LapseIn(b: Book, s: Slot, f: CF.State, lines: seq<string>, rows: nat): Lapse {
    if lines == [] then CLEAN
    else
      var init := lines[..|lines| - 1];
      var acts := CF.ActsOf(f, init);
      LapsedBy(LapseIn(b, s, f, init, rows), Entries(b, s, f, init, rows), ExecAll(s, acts, rows),
               CF.StateAfter(f, init), lines[|lines| - 1], MergedIn(s, acts, rows), rows)
  }

  /** Slot and book in the middle of a stretch, where the machine was at `f` when it gave
      the last act. */
  ghost predicate Mid(s: Slot, b: Book, f: CF.State, merged: bool) {
    && s.base == b.base && s.build == b.next
    && (s.canvas.None? <==> s.base.None?) && (s.inView ==> s.canvas.Some?)
    && Claims(f) && (f.pane.Some? ==> f.pane == b.pane)
    && (b.next.Some? ==> s.pending == b.late)
    && (if merged then b.next.None? && (f.phase == CF.Building || Idle(f))
        else f.phase == CF.Building <==> b.next.Some?)
  }

  /** What the canvas lacks is what the book has more than the canvas was fed. */
  ghost predicate Balanced(s: Slot, b: Book, merged: bool, l: Lapse) {
    && |b.out| == |s.log| + |l.missed| + |l.late|
    && (l.missed == "" && l.late == "" ==> b.out == s.log)
    && (l.turned <==> b.base.Some? && b.of != b.pane)
    && (b.base.None? ==> l == CLEAN)
    && (b.base.Some? && b.next.None? && l.late == "" ==> s.pending == "")
    && (!merged ==> l.late == "")
  }

  lemma MidHanded(s: Slot, b: Book, f: CF.State, merged: bool, line: string, rows: nat)
    requires Mid(s, b, f, merged) && (CF.OnLine(f, line).1.Feed? || CF.OnLine(f, line).1.Pend?)
    ensures Mid(Exec(s, CF.OnLine(f, line).1, rows), Entered(b, s, f, line, rows), CF.OnLine(f, line).0, merged)
  {
    LineMoves(f, line);
    LineSays(f, line);
    hide CF.OnLine, Said, T.Feed, Merges, Merged, Torn, Plan;
    assert b.late + "" == b.late;
  }

  lemma MidQuiet(s: Slot, b: Book, f: CF.State, merged: bool, line: string, rows: nat)
    requires Mid(s, b, f, merged) && Bytes(CF.OnLine(f, line).1) == "" && !CF.OnLine(f, line).1.Feed?
    requires !CF.OnLine(f, line).1.Build? && !CF.OnLine(f, line).1.Dead?
    ensures Mid(Exec(s, CF.OnLine(f, line).1, rows), Entered(b, s, f, line, rows), CF.OnLine(f, line).0, merged)
  {
    LineMoves(f, line);
    LineSays(f, line);
    if Idle(f) { IdleStaysIdle(f, line); }
    QuietExec(s, CF.OnLine(f, line).1, rows);
    hide CF.OnLine, Said, Idle, Exec, Merges, Plan;
    assert b.late + "" == b.late;
  }

  lemma MidEnds(s: Slot, b: Book, f: CF.State, merged: bool, line: string, rows: nat)
    requires Mid(s, b, f, merged) && (CF.OnLine(f, line).1.Build? || CF.OnLine(f, line).1.Dead?)
    ensures var (f', act) := CF.OnLine(f, line);
            Mid(Exec(s, act, rows), Entered(b, s, f, line, rows), f', merged || MergesAt(s, act, rows))
  {
    LineMoves(f, line);
    LineSays(f, line);
    NothingWritten(b);
    hide CF.OnLine, Said, R.Verdict, Written;
  }

  lemma MidStep(s: Slot, b: Book, f: CF.State, merged: bool, line: string, rows: nat)
    requires Mid(s, b, f, merged)
    ensures var (f', act) := CF.OnLine(f, line);
            Mid(Exec(s, act, rows), Entered(b, s, f, line, rows), f', merged || MergesAt(s, act, rows))
  {
    hide CF.OnLine, Exec, Entered, Merges, Mid;
    if CF.OnLine(f, line).1.Build? || CF.OnLine(f, line).1.Dead? {
      MidEnds(s, b, f, merged, line, rows);
    } else if CF.OnLine(f, line).1.Feed? || CF.OnLine(f, line).1.Pend? {
      MidHanded(s, b, f, merged, line, rows);
    } else {
      MidQuiet(s, b, f, merged, line, rows);
    }
  }

  lemma QuietExec(s: Slot, act: CF.Act, rows: nat)
    requires Bytes(act) == "" && !act.Feed? && !act.Build? && !act.Dead?
    ensures var s' := Exec(s, act, rows); s' == s.(feed := s'.feed, pending := s'.pending) && s'.pending == s.pending
  {
    assert s.pending + "" == s.pending;
  }

  /** The machine has no pane claimed: what the pane writes is missed. */
  lemma BalanceMissed(s: Slot, b: Book, f: CF.State, merged: bool, l: Lapse, line: string, rows: nat)
    requires Mid(s, b, f, merged) && !CF.OnLine(f, line).1.Build? && !CF.OnLine(f, line).1.Dead?
    requires Balanced(s, b, merged, l) && f.pane.None?
    ensures Balanced(Exec(s, CF.OnLine(f, line).1, rows), Entered(b, s, f, line, rows), merged,
                     LapsedBy(l, b, s, f, line, merged, rows))
  {
    LineMoves(f, line);
    LineSays(f, line);
    QuietExec(s, CF.OnLine(f, line).1, rows);
    hide CF.OnLine, Said, Idle, Exec, Bytes;
    assert l.late + "" == l.late;
  }

  /** A lapse after the claimed pane wrote `x` and the machine claims `pane`. */
  function Grown(l: Lapse, b: Book, merged: bool, x: string, pane: Option<nat>): Lapse {
    if b.base.None? then l
    else Lapse(if merged then l.late + x else l.late, l.missed, if pane.Some? then pane != b.of else l.turned)
  }

  lemma BalanceFed(s: Slot, b: Book, f: CF.State, merged: bool, l: Lapse, x: string, rows: nat)
    requires Mid(s, b, f, merged) && f.phase != CF.Building && f.pane.Some?
    requires Balanced(s, b, merged, l)
    ensures Balanced(Exec(s, CF.Feed(x), rows), Followed(Written(b, x), f.pane), merged, Grown(l, b, merged, x, f.pane))
  {
    hide Claims, T.Feed;
    NothingJoined(b.out, x);
  }

  lemma BalancePended(s: Slot, b: Book, f: CF.State, merged: bool, l: Lapse, x: string, rows: nat)
    requires Mid(s, b, f, merged) && f.phase == CF.Building && f.pane.Some?
    requires Balanced(s, b, merged, l)
    ensures Balanced(Exec(s, CF.Pend(x), rows), Followed(Written(b, x), f.pane), merged, Grown(l, b, merged, x, f.pane))
  {
    hide Idle, Claims;
    NothingJoined(l.late, x);
    NothingJoined(b.out, x);
    NothingJoined(s.pending, x);
  }

  lemma BalanceQuiet(s: Slot, b: Book, f: CF.State, merged: bool, l: Lapse, act: CF.Act, pane: Option<nat>, rows: nat)
    requires Mid(s, b, f, merged) && Balanced(s, b, merged, l)
    requires !act.Feed? && !act.Pend? && !act.Build? && !act.Dead?
    ensures Balanced(Exec(s, act, rows), Followed(Written(b, ""), pane), merged, Grown(l, b, merged, "", pane))
  {
    NothingWritten(b);
    assert l.late + "" == l.late;
    QuietExec(s, act, rows);
    hide Idle, Claims, Exec, Written;
  }

  lemma HandedForms(s: Slot, b: Book, f: CF.State, merged: bool, l: Lapse, line: string, rows: nat)
    requires f.pane.Some? && f.pane == b.pane && !CF.OnLine(f, line).1.Build? && !CF.OnLine(f, line).1.Dead?
    ensures var (f', act) := CF.OnLine(f, line);
            && Entered(b, s, f, line, rows) == Followed(Written(b, Bytes(act)), f'.pane)
            && LapsedBy(l, b, s, f, line, merged, rows) == Grown(l, b, merged, Bytes(act), f'.pane)
  {
    LineSays(f, line);
    hide CF.OnLine, Said, Written, Followed, Bytes, MergesAt;
    assert l.late + "" == l.late && l.missed + "" == l.missed;
  }

  /** What the claimed pane writes is handed over. */
  lemma BalanceHanded(s: Slot, b: Book, f: CF.State, merged: bool, l: Lapse, line: string, rows: nat)
    requires Mid(s, b, f, merged) && !CF.OnLine(f, line).1.Build? && !CF.OnLine(f, line).1.Dead?
    requires Balanced(s, b, merged, l) && f.pane.Some?
    ensures Balanced(Exec(s, CF.OnLine(f, line).1, rows), Entered(b, s, f, line, rows), merged,
                     LapsedBy(l, b, s, f, line, merged, rows))
  {
    var (f', act) := CF.OnLine(f, line);
    LineMoves(f, line);
    HandedForms(s, b, f, merged, l, line, rows);
    if act.Feed? {
      BalanceFed(s, b, f, merged, l, act.bytes, rows);
    } else if act.Pend? {
      BalancePended(s, b, f, merged, l, act.bytes, rows);
    } else {
      BalanceQuiet(s, b, f, merged, l, act, f'.pane, rows);
    }
    hide CF.OnLine, Entered, LapsedBy, Balanced, Exec, Grown, Written, Followed, Idle, Claims;
  }

  lemma NothingJoined(a: string, b: string)
    ensures a + b == "" <==> a == "" && b == ""
    ensures b == "" ==> a + b == a
  {
    assert |a + b| == |a| + |b|;
  }

  lemma BalanceDead(s: Slot, b: Book, f: CF.State, merged: bool, l: Lapse, line: string, rows: nat)
    requires Mid(s, b, f, merged) && CF.OnLine(f, line).1.Dead?
    requires Balanced(s, b, merged, l)
    ensures Balanced(Exec(s, CF.Dead, rows), Entered(b, s, f, line, rows), merged,
                     LapsedBy(l, b, s, f, line, merged, rows))
  {
    LineMoves(f, line);
    LineSays(f, line);
    NothingWritten(b);
    hide CF.OnLine, Said, Written, T.Feed, Claims, Merges;
    NothingJoined(l.missed, b.late);
    NothingJoined(b.out, b.late);
  }

  lemma BalanceBuild(s: Slot, b: Book, f: CF.State, merged: bool, l: Lapse, line: string, rows: nat)
    requires Mid(s, b, f, merged) && CF.OnLine(f, line).1.Build?
    requires Balanced(s, b, merged, l)
    ensures var act := CF.OnLine(f, line).1;
            Balanced(Exec(s, act, rows), Entered(b, s, f, line, rows), merged || MergesAt(s, act, rows),
                     LapsedBy(l, b, s, f, line, merged, rows))
  {
    LineMoves(f, line);
    LineSays(f, line);
    NothingWritten(b);
    hide CF.OnLine, Said, R.Verdict, Written, T.Feed, Claims;
    NothingJoined(s.log, "");
  }

  lemma BalanceStep(s: Slot, b: Book, f: CF.State, merged: bool, l: Lapse, line: string, rows: nat)
    requires Mid(s, b, f, merged) && Balanced(s, b, merged, l)
    ensures var (f', act) := CF.OnLine(f, line);
            Balanced(Exec(s, act, rows), Entered(b, s, f, line, rows), merged || MergesAt(s, act, rows),
                     LapsedBy(l, b, s, f, line, merged, rows))
  {
    hide CF.OnLine, Exec, Entered, Merges, Mid, Balanced, LapsedBy;
    if CF.OnLine(f, line).1.Build? {
      BalanceBuild(s, b, f, merged, l, line, rows);
    } else if CF.OnLine(f, line).1.Dead? {
      BalanceDead(s, b, f, merged, l, line, rows);
    } else if f.pane.None? {
      BalanceMissed(s, b, f, merged, l, line, rows);
    } else {
      BalanceHanded(s, b, f, merged, l, line, rows);
    }
  }

  /** One act more, for what is computed over acts. */
  lemma OneMore(s: Slot, acts: seq<CF.Act>, act: CF.Act, rows: nat)
    ensures var at := ExecAll(s, acts, rows);
            && ExecAll(s, acts + [act], rows) == Exec(at, act, rows)
            && MergedIn(s, acts + [act], rows) == (MergedIn(s, acts, rows) || MergesAt(at, act, rows))
  {
    hide Exec, MergesAt;
    assert (acts + [act])[..|acts|] == acts;
  }

  lemma {:induction false} MidAfter(s: Slot, b: Book, f: CF.State, lines: seq<string>, rows: nat)
    requires Mid(s, b, f, false)
    ensures var acts := CF.ActsOf(f, lines);
            && Mid(ExecAll(s, acts, rows), Entries(b, s, f, lines, rows), CF.StateAfter(f, lines),
                   MergedIn(s, acts, rows))
    decreases |lines|
  {
    hide CF.OnLine, Exec, Entered, MergesAt, Mid;
    if lines != [] {
      var init, line := lines[..|lines| - 1], lines[|lines| - 1];
      assert lines == init + [line];
      MidAfter(s, b, f, init, rows);
      CF.ActsOfSnoc(f, init, line);
      CF.AfterSnoc(f, init, line);
      var acts, at := CF.ActsOf(f, init), CF.StateAfter(f, init);
      OneMore(s, acts, CF.OnLine(at, line).1, rows);
      MidStep(ExecAll(s, acts, rows), Entries(b, s, f, init, rows), at, MergedIn(s, acts, rows), line, rows);
    }
  }

  lemma {:induction false} BalanceAfter(s: Slot, b: Book, f: CF.State, lines: seq<string>, rows: nat)
    requires Mid(s, b, f, false) && Balanced(s, b, false, CLEAN)
    ensures var acts := CF.ActsOf(f, lines);
            && Balanced(ExecAll(s, acts, rows), Entries(b, s, f, lines, rows), MergedIn(s, acts, rows),
                        LapseIn(b, s, f, lines, rows))
    decreases |lines|
  {
    hide CF.OnLine, Exec, Entered, MergesAt, Mid, Balanced, LapsedBy;
    if lines != [] {
      var init, line := lines[..|lines| - 1], lines[|lines| - 1];
      assert lines == init + [line];
      MidAfter(s, b, f, init, rows);
      BalanceAfter(s, b, f, init, rows);
      CF.ActsOfSnoc(f, init, line);
      CF.AfterSnoc(f, init, line);
      var acts, at := CF.ActsOf(f, init), CF.StateAfter(f, init);
      OneMore(s, acts, CF.OnLine(at, line).1, rows);
      BalanceStep(ExecAll(s, acts, rows), Entries(b, s, f, init, rows), at, MergedIn(s, acts, rows),
                  LapseIn(b, s, f, init, rows), line, rows);
    }
  }

  // ---- the machine behind the acts ----

  lemma {:induction false} IdleRun(f: CF.State, lines: seq<string>)
    requires Idle(f)
    ensures CF.StateAfter(f, lines) == f
  {
    hide CF.OnLine, Idle;
    if lines != [] {
      IdleRun(f, lines[..|lines| - 1]);
      IdleStaysIdle(f, lines[|lines| - 1]);
    }
  }

  /** A stretch in which a seeding failed or the channel ended leaves the machine idle. */
  lemma {:induction false} ResetLasts(f: CF.State, lines: seq<string>, k: nat)
    requires k < |lines| && (CF.ActsOf(f, lines)[k].SeedFail? || CF.ActsOf(f, lines)[k].Dead?)
    ensures Idle(CF.StateAfter(f, lines))
    decreases |lines|
  {
    hide CF.OnLine, Idle, Moves;
    var init, line := lines[..|lines| - 1], lines[|lines| - 1];
    assert lines == init + [line];
    CF.ActsOfSnoc(f, init, line);
    CF.AfterSnoc(f, init, line);
    if k < |init| {
      ResetLasts(f, init, k);
      IdleStaysIdle(CF.StateAfter(f, init), line);
    } else {
      LineResets(CF.StateAfter(f, init), line);
    }
  }

  lemma LineResets(f: CF.State, line: string)
    requires CF.OnLine(f, line).1.SeedFail? || CF.OnLine(f, line).1.Dead?
    ensures Idle(CF.OnLine(f, line).0)
  {
    hide CF.OnLine, Idle;
    LineMoves(f, line);
  }

  /** While a stretch is carried out the machine stays where the last line left it, but
      for the word that a canvas has been installed; and the channel stays open unless
      it ended. */
  lemma {:induction false} FeedAfter(s: Slot, acts: seq<CF.Act>, rows: nat)
    requires forall k :: 0 <= k < |acts| && (acts[k].SeedFail? || acts[k].Dead?) ==> Idle(s.feed)
    ensures var s' := ExecAll(s, acts, rows);
            && s'.feed == (if MergedIn(s, acts, rows) then s.feed.(phase := CF.Steady) else s.feed)
            && (s.open && !s'.open ==> Idle(s.feed)) && (s'.open ==> s.open)
    decreases |acts|
  {
    hide Exec, MergesAt, Idle;
    if acts != [] {
      var init, act := acts[..|acts| - 1], acts[|acts| - 1];
      FeedAfter(s, init, rows);
      ExecFeed(ExecAll(s, init, rows), s.feed, MergedIn(s, init, rows), act, rows);
    }
  }

  lemma ExecFeed(s: Slot, f: CF.State, merged: bool, act: CF.Act, rows: nat)
    requires act.SeedFail? || act.Dead? ==> Idle(f)
    requires s.feed == if merged then f.(phase := CF.Steady) else f
    ensures var s' := Exec(s, act, rows);
            && s'.feed == (if merged || MergesAt(s, act, rows) then f.(phase := CF.Steady) else f)
            && (s.open && !s'.open ==> Idle(f)) && (s'.open ==> s.open)
  {
    hide Merges, Plan, Fed;
  }

  // ---- in step ----

  /** What holds of slot and book at all times, in step or not. */
  predicate Kept(s: Slot, b: Book) {
    && s.base == b.base && s.build == b.next
    && (s.canvas.None? <==> s.base.None?) && (s.inView ==> s.canvas.Some?)
    && (s.feed.phase == CF.Building <==> s.build.Some?)
    && Claims(s.feed) && (s.feed.pane.Some? ==> s.feed.pane == b.pane)
    && (!s.open ==> Idle(s.feed))
    && (b.next.Some? ==> s.pending == b.late)
  }

  lemma ReadActs(s: Slot, data: string)
    ensures ActsIn(s, data) == CF.ActsOf(s.feed, LinesOf(s, data))
    ensures Read(s, data).feed == CF.StateAfter(s.feed, LinesOf(s, data))
  {
    CF.ConsumeIsActs(s.feed, s.buf + data);
  }

  lemma TookKeeps(s: Slot, b: Book, data: string, rows: nat)
    requires Kept(s, b)
    ensures Kept(Took(s, data, rows), Entries(b, Read(s, data), s.feed, LinesOf(s, data), rows))
  {
    hide CF.OnLine, Exec, Entered, MergesAt, CF.Consume, ExecAll, Entries, MergedIn, CF.ActsOf, CF.StateAfter;
    var lines, s0 := LinesOf(s, data), Read(s, data);
    ReadActs(s, data);
    assert Mid(s0, b, s.feed, false);
    MidAfter(s0, b, s.feed, lines, rows);
    FeedOfRead(s, data, rows);
    if !s.open { IdleRun(s.feed, lines); }
  }

  lemma FeedOfRead(s: Slot, data: string, rows: nat)
    ensures var s0, s' := Read(s, data), Took(s, data, rows);
            && s'.feed == (if MergedIn(s0, ActsIn(s, data), rows) then s0.feed.(phase := CF.Steady) else s0.feed)
            && (s.open && !s'.open ==> Idle(s0.feed)) && (s'.open ==> s.open)
  {
    hide CF.OnLine, Exec, MergesAt, CF.Consume, ExecAll, MergedIn, Idle;
    var lines, acts := LinesOf(s, data), ActsIn(s, data);
    ReadActs(s, data);
    forall k | 0 <= k < |acts| && (acts[k].SeedFail? || acts[k].Dead?) ensures Idle(Read(s, data).feed) {
      ResetLasts(s.feed, lines, k);
    }
    FeedAfter(Read(s, data), acts, rows);
  }

  /** Once a stretch of input has been taken in, the slot is in step with all that the pane
      wrote if and only if the canvas lacks nothing after it: no output behind a capture
      that kept it, none of the pane while it was not claimed or lost with the channel,
      and no other pane claimed. */
  lemma TookInStepIff(s: Slot, b: Book, data: string, rows: nat)
    requires Kept(s, b) && InStep(s, b)
    ensures InStep(Took(s, data, rows), Entries(b, Read(s, data), s.feed, LinesOf(s, data), rows))
       <==> LapseIn(b, Read(s, data), s.feed, LinesOf(s, data), rows) == CLEAN
  {
    hide CF.OnLine, Exec, Entered, MergesAt, CF.Consume, ExecAll, Entries, MergedIn, LapseIn, CF.ActsOf, CF.StateAfter;
    var lines, s0 := LinesOf(s, data), Read(s, data);
    ReadActs(s, data);
    MidAfter(s0, b, s.feed, lines, rows);
    BalanceAfter(s0, b, s.feed, lines, rows);
  }

  /** The ways to get out of step. */
  predicate Lapses(s: Slot, b: Book, input: Input, rows: nat) {
    match input
    case Chunk(data) => LapseIn(b, Read(s, data), s.feed, LinesOf(s, data), rows) != CLEAN
    case Broken => s.build.Some? && s.base.Some? && s.pending != ""
    case Down => s.build.Some? && s.base.Some? && s.pending != ""
    case Unheard(bytes) => !s.open && s.base.Some? && bytes != ""
    case _ => false
  }

  lemma NextKeeps(s: Slot, b: Book, input: Input, g: Geometry)
    requires Kept(s, b)
    ensures Kept(Next(s, input, g), BookAfter(b, s, input, g))
  {
    hide Took, Entries, Shown, T.Feed;
    ResetIsIdle(s.feed);
    match input {
      case Chunk(data) => TookKeeps(s, b, data, g.rows);
      case _ =>
    }
  }

  lemma NextInStepIff(s: Slot, b: Book, input: Input, g: Geometry)
    requires Kept(s, b) && InStep(s, b)
    ensures InStep(Next(s, input, g), BookAfter(b, s, input, g)) <==> !Lapses(s, b, input, g.rows)
  {
    hide Took, Entries, LapseIn, Shown, Fed, Claims;
    ResetIsIdle(s.feed);
    match input {
      case Chunk(data) => TookInStepIff(s, b, data, g.rows);
      case _ =>
    }
  }

  /** Over any run, whatever goes wrong in it, the book knows the captures of the canvas and
      of the one being built, and the queue of that is all that the pane has written since. */
  lemma {:induction false} RunKeeps(s: Slot, b: Book, inputs: seq<Input>, g: Geometry)
    requires Kept(s, b)
    ensures Kept(Run(s, inputs, g), Books(b, s, inputs, g))
  {
    hide Next, BookAfter, Kept;
    if inputs != [] {
      var init := inputs[..|inputs| - 1];
      RunKeeps(s, b, init, g);
      NextKeeps(Run(s, init, g), Books(b, s, init, g), inputs[|inputs| - 1], g);
    }
  }

  ghost predicate AlwaysInStep(s: Slot, b: Book, inputs: seq<Input>, g: Geometry) {
    InStep(Run(s, inputs, g), Books(b, s, inputs, g))
    && (inputs == [] || AlwaysInStep(s, b, inputs[..|inputs| - 1], g))
  }

  predicate NeverLapses(s: Slot, b: Book, inputs: seq<Input>, g: Geometry) {
    inputs == [] ||
    var init := inputs[..|inputs| - 1];
    NeverLapses(s, b, init, g) && !Lapses(Run(s, init, g), Books(b, s, init, g), inputs[|inputs| - 1], g.rows)
  }

  /** Over any run from a slot in step: all that the pane has written since its capture is
      on the canvas, or in the queue of the canvas being built, in order and at all times,
      if and only if the run never lapses. */
  lemma {:induction false} RunInStepIff(s: Slot, b: Book, inputs: seq<Input>, g: Geometry)
    requires Kept(s, b) && InStep(s, b)
    ensures AlwaysInStep(s, b, inputs, g) <==> NeverLapses(s, b, inputs, g)
  {
    hide Next, BookAfter, Kept, InStep, Lapses;
    if inputs != [] {
      var init := inputs[..|inputs| - 1];
      RunInStepIff(s, b, init, g);
      if NeverLapses(s, b, init, g) {
        assert InStep(Run(s, init, g), Books(b, s, init, g)) by {
          assert AlwaysInStep(s, b, init, g);
        }
        RunKeeps(s, b, init, g);
        NextInStepIff(Run(s, init, g), Books(b, s, init, g), inputs[|inputs| - 1], g);
      }
    }
  }

  /** From an empty slot, over any run of legible captures that never lapses, the canvas is
      a rebuild of the book's capture followed by all that the pane has written since. */
  lemma NeverLapsingShows(inputs: seq<Input>, g: Geometry)
    requires NeverLapses(Empty(), NO_BOOK, inputs, g) && LegibleRun(Empty(), inputs, g)
    ensures var s, b := Run(Empty(), inputs, g), Books(NO_BOOK, Empty(), inputs, g);
            && s.canvas == (if b.base.None? then None else Some(T.Feed(Shown(g, b.base.value), b.out)))
            && (b.base.Some? ==> b.of == b.pane)
  {
    hide Shown;
    RunInStepIff(Empty(), NO_BOOK, inputs, g);
    hide NeverLapses, LegibleRun, Run, Books;
    RunIsSound(Empty(), inputs, g);
    assert AlwaysInStep(Empty(), NO_BOOK, inputs, g);
  }

  /** The pane stood like this when the capture was taken. */
  ghost predicate Taken(snap: Snapshot, pane: T.Term, g: Geometry) {
    P.Captured(R.LinesOf(snap.text), snap.cursor, pane) && pane.cols == g.cols && |pane.screen| == g.rows
  }

  /** A slot in step shows what the pane's own terminal shows: if the pane was at rest when
      the capture of the canvas was taken, the canvas has the screen, cursor and history
      that the pane has after all it has written since. */
  lemma InStepShowsPane(s: Slot, b: Book, g: Geometry, pane: T.Term)
    requires Sound(s, g) && InStep(s, b) && b.base.Some?
    requires Taken(b.base.value, pane, g) && P.AtRest(pane)
    ensures pane.Valid() && s.canvas.Some? && P.Alike(s.canvas.value, T.Feed(pane, b.out))
  {
    hide R.LinesOf, R.Capture, P.Alike, P.AtRest, P.Captured;
    var snap := b.base.value;
    P.CapturedValid(R.LinesOf(snap.text), snap.cursor, pane);
    P.CanvasFollowsPane(R.LinesOf(snap.text), snap.cursor, pane, b.out);
  }

  /** So over any run that never lapses, from an empty slot. */
  lemma NeverLapsingShowsPane(inputs: seq<Input>, base: Snapshot, g: Geometry, pane: T.Term)
    requires NeverLapses(Empty(), NO_BOOK, inputs, g) && LegibleRun(Empty(), inputs, g)
    requires Books(NO_BOOK, Empty(), inputs, g).base == Some(base) && Taken(base, pane, g) && P.AtRest(pane)
    ensures var s, b := Run(Empty(), inputs, g), Books(NO_BOOK, Empty(), inputs, g);
            pane.Valid() && s.canvas.Some? && P.Alike(s.canvas.value, T.Feed(pane, b.out))
  {
    hide NeverLapses, LegibleRun, Run, Books, Taken, P.Alike, P.AtRest, Shown;
    RunInStepIff(Empty(), NO_BOOK, inputs, g);
    RunIsSound(Empty(), inputs, g);
    assert AlwaysInStep(Empty(), NO_BOOK, inputs, g);
    InStepShowsPane(Run(Empty(), inputs, g), Books(NO_BOOK, Empty(), inputs, g), g, pane);
  }

  /** A canvas that is built and delivered puts an end to all lapses: after any run at all it
      shows its capture and everything the pane has written since. */
  lemma InstallHeals(s: Slot, b: Book, browsing: bool, g: Geometry)
    requires Kept(s, b) && s.build.Some?
    ensures InStep(Installed(s, g, browsing), BookAfter(b, s, Install(browsing), g))
    ensures Installed(s, g, browsing).canvas == Some(T.Feed(Shown(g, b.next.value), b.late))
  {
    hide Shown, Idle, Claims;
  }

  // ---- a capture and the output around it ----

  /** The pane is claimed before, between and after the lines. */
  ghost predicate Claimed(f: CF.State, lines: seq<string>, pane: nat) {
    forall i :: 0 <= i <= |lines| ==> CF.StateAfter(f, lines[..i]).pane == Some(pane)
  }

  lemma ClaimedInit(f: CF.State, lines: seq<string>, pane: nat)
    requires lines != [] && Claimed(f, lines, pane)
    ensures Claimed(f, lines[..|lines| - 1], pane) && CF.StateAfter(f, lines).pane == Some(pane)
  {
    var init := lines[..|lines| - 1];
    assert lines[..|lines|] == lines;
    forall i | 0 <= i <= |init| ensures CF.StateAfter(f, init[..i]).pane == Some(pane) {
      assert init[..i] == lines[..i];
    }
  }

  /** What a line does while the pane stays claimed. */
  lemma ClaimedLine(f: CF.State, line: string, pane: nat)
    requires f.pane == Some(pane) && CF.OnLine(f, line).0.pane == Some(pane)
    ensures var act := CF.OnLine(f, line).1; !act.SeedFail? && !act.Dead? && Bytes(act) == Said(Some(pane), line)
  {
    LineSays(f, line);
    hide CF.ParseLine, CF.ParseHeader;
  }

  /** While a canvas is being built, all the pane writes is queued. */
  lemma {:induction false} QueuedBehind(s: Slot, f: CF.State, lines: seq<string>, pane: nat, rows: nat)
    requires f.phase == CF.Building && Claimed(f, lines, pane)
    ensures ExecAll(s, CF.ActsOf(f, lines), rows) == s.(pending := s.pending + CF.Wrote(lines, pane))
    ensures CF.StateAfter(f, lines).phase == CF.Building
    decreases |lines|
  {
    hide CF.OnLine, Moves, Bytes, CF.ParseLine, Said;
    if lines == [] {
      assert s.pending + "" == s.pending;
    } else {
      var init, line := lines[..|lines| - 1], lines[|lines| - 1];
      assert lines == init + [line];
      ClaimedInit(f, lines, pane);
      QueuedBehind(s, f, init, pane, rows);
      CF.ActsOfSnoc(f, init, line);
      CF.AfterSnoc(f, init, line);
      WroteSnoc(init, line, pane);
      var acts, at := CF.ActsOf(f, init), CF.StateAfter(f, init);
      assert at.pane == Some(pane) by { assert init[..|init|] == init; }
      ClaimedLine(at, line, pane);
      QueueStep(at, line);
      OneMore(s, acts, CF.OnLine(at, line).1, rows);
      QueueExec(ExecAll(s, acts, rows), CF.OnLine(at, line).1, rows);
      Regroup(s.pending, CF.Wrote(init, pane), Bytes(CF.OnLine(at, line).1));
    }
  }

  lemma QueueStep(f: CF.State, line: string)
    requires f.phase == CF.Building && !CF.OnLine(f, line).1.Dead?
    ensures CF.OnLine(f, line).0.phase == CF.Building
    ensures !CF.OnLine(f, line).1.Feed? && !CF.OnLine(f, line).1.Build?
  {
    LineMoves(f, line);
  }

  lemma QueueExec(s: Slot, act: CF.Act, rows: nat)
    requires !act.Feed? && !act.Build? && !act.SeedFail? && !act.Dead?
    ensures Exec(s, act, rows) == s.(pending := s.pending + Bytes(act))
  {
    assert s.pending + "" == s.pending;
  }

  /** What a canvas is like after bytes were fed to it. */
  ghost predicate FedTo(s: Slot, s': Slot, bytes: string) {
    && s'.canvas == Fed(s.canvas, bytes) && s'.log == s.log + bytes
    && s' == s.(canvas := s'.canvas, log := s'.log, fed := s'.fed)
    && (s'.fed <== s.fed) && (!s'.fed ==> bytes == "")
  }

  lemma FedNothing(s: Slot)
    ensures FedTo(s, s, "")
  {
    assert s.log + "" == s.log;
    if s.canvas.Some? { FeedNothing(s.canvas.value); }
  }

  lemma FedFurther(s: Slot, s': Slot, bytes: string, act: CF.Act, rows: nat)
    requires s.canvas.Some? && FedTo(s, s', bytes)
    requires !act.Pend? && !act.Build? && !act.SeedFail? && !act.Dead?
    ensures FedTo(s, Exec(s', act, rows), bytes + Bytes(act))
  {
    assert bytes + "" == bytes;
    if act.Feed? {
      T.FeedAppend(s.canvas.value, bytes, act.bytes);
      Regroup(s.log, bytes, act.bytes);
    }
  }

  ghost predicate NeverBuilding(f: CF.State, lines: seq<string>) {
    forall i :: 0 <= i <= |lines| ==> CF.StateAfter(f, lines[..i]).phase != CF.Building
  }

  /** Once a capture is complete no other follows before the next seed command. */
  lemma {:induction false} NoWayBack(f: CF.State, lines: seq<string>, i: nat)
    requires i <= |lines| && CF.StateAfter(f, lines[..i]).phase == CF.Building
    ensures CF.StateAfter(f, lines).phase in {CF.Steady, CF.Building}
  {
    hide CF.OnLine;
    if i == |lines| {
      assert lines[..i] == lines;
    } else {
      var init, line := lines[..|lines| - 1], lines[|lines| - 1];
      assert init[..i] == lines[..i] && lines == init + [line];
      NoWayBack(f, init, i);
      CF.AfterSnoc(f, init, line);
      CF.IdleStays(CF.StateAfter(f, init), line);
    }
  }

  lemma NeverBuildingInit(f: CF.State, lines: seq<string>)
    requires lines != [] && NeverBuilding(f, lines)
    ensures NeverBuilding(f, lines[..|lines| - 1])
    ensures CF.StateAfter(f, lines).phase != CF.Building
  {
    hide CF.StateAfter;
    var init := lines[..|lines| - 1];
    assert lines[..|lines|] == lines;
    forall i | 0 <= i <= |init| ensures CF.StateAfter(f, init[..i]).phase != CF.Building {
      assert init[..i] == lines[..i];
    }
  }

  lemma FrontStep(f: CF.State, line: string)
    requires f.phase != CF.Building && CF.OnLine(f, line).0.phase != CF.Building
    ensures !CF.OnLine(f, line).1.Pend? && !CF.OnLine(f, line).1.Build?
  {
    LineMoves(f, line);
  }

  /** While no canvas is being built, all the pane writes goes to the canvas. */
  lemma {:induction false} FedInFront(s: Slot, f: CF.State, lines: seq<string>, pane: nat, rows: nat)
    requires s.canvas.Some? && NeverBuilding(f, lines) && Claimed(f, lines, pane)
    ensures FedTo(s, ExecAll(s, CF.ActsOf(f, lines), rows), CF.Wrote(lines, pane))
    decreases |lines|
  {
    hide CF.OnLine, Moves, Bytes, CF.ParseLine, Said, FedTo, NeverBuilding, Claimed;
    if lines == [] {
      FedNothing(s);
    } else {
      var init, line := lines[..|lines| - 1], lines[|lines| - 1];
      assert lines == init + [line];
      ClaimedInit(f, lines, pane);
      NeverBuildingInit(f, lines);
      FedInFront(s, f, init, pane, rows);
      CF.ActsOfSnoc(f, init, line);
      CF.AfterSnoc(f, init, line);
      WroteSnoc(init, line, pane);
      var acts, at := CF.ActsOf(f, init), CF.StateAfter(f, init);
      ClaimedLast(f, init, pane);
      NeverBuildingLast(f, init);
      ClaimedLine(at, line, pane);
      FrontStep(at, line);
      OneMore(s, acts, CF.OnLine(at, line).1, rows);
      FedFurther(s, ExecAll(s, acts, rows), CF.Wrote(init, pane), CF.OnLine(at, line).1, rows);
    }
  }

  lemma ClaimedLast(f: CF.State, lines: seq<string>, pane: nat)
    requires Claimed(f, lines, pane)
    ensures CF.StateAfter(f, lines).pane == Some(pane)
  {
    assert lines[..|lines|] == lines;
  }

  lemma NeverBuildingLast(f: CF.State, lines: seq<string>)
    requires NeverBuilding(f, lines)
    ensures CF.StateAfter(f, lines).phase != CF.Building
  {
    assert lines[..|lines|] == lines;
  }

  lemma {:induction false} ExecAppend(s: Slot, a: seq<CF.Act>, b: seq<CF.Act>, rows: nat)
    ensures ExecAll(s, a + b, rows) == ExecAll(ExecAll(s, a, rows), b, rows)
    decreases |b|
  {
    hide Exec;
    if b == [] {
      assert a + b == a;
    } else {
      assert (a + b)[..|a + b| - 1] == a + b[..|b| - 1];
      ExecAppend(s, a, b[..|b| - 1], rows);
    }
  }

  /** A stretch of input in which a capture is complete: lines before its end mark, the
      mark, and lines behind it. */
  datatype Stretch = Stretch(front: seq<string>, mark: string, behind: seq<string>) {
    function All(): seq<string> { front + [mark] + behind }
  }

  ghost predicate Brings(f: CF.State, st: Stretch, snap: Snapshot, pane: nat) {
    && Claimed(f, st.All(), pane)
    && CF.ActOn(f, st.front, st.mark) == CF.Build(snap.text, snap.cursor.x, snap.cursor.y)
  }

  lemma ClaimedParts(f: CF.State, a: seq<string>, b: seq<string>, pane: nat)
    requires Claimed(f, a + b, pane)
    ensures Claimed(f, a, pane) && Claimed(CF.StateAfter(f, a), b, pane)
  {
    hide CF.StateAfter;
    forall i | 0 <= i <= |a| ensures CF.StateAfter(f, a[..i]).pane == Some(pane) {
      assert (a + b)[..i] == a[..i];
    }
    forall i | 0 <= i <= |b| ensures CF.StateAfter(CF.StateAfter(f, a), b[..i]).pane == Some(pane) {
      assert (a + b)[..|a| + i] == a + b[..i];
      CF.AfterAppend(f, a, b[..i]);
    }
  }

  lemma BuildingSince(f: CF.State, front: seq<string>, mark: string)
    requires CF.ActOn(f, front, mark).Build?
    ensures NeverBuilding(f, front) && CF.StateAfter(f, front + [mark]).phase == CF.Building
  {
    hide CF.OnLine, CF.StateAfter;
    LineMoves(CF.StateAfter(f, front), mark);
    CF.AfterSnoc(f, front, mark);
    forall i | 0 <= i <= |front| ensures CF.StateAfter(f, front[..i]).phase != CF.Building {
      if CF.StateAfter(f, front[..i]).phase == CF.Building {
        NoWayBack(f, front, i);
      }
    }
  }

  /** Carried out act by act: the front is fed, then comes the capture, and what is behind
      it is queued. */
  lemma StretchRuns(s: Slot, f: CF.State, st: Stretch, snap: Snapshot, pane: nat, rows: nat)
    requires s.canvas.Some? && Brings(f, st, snap, pane)
    ensures var at := ExecAll(s, CF.ActsOf(f, st.front), rows);
            && FedTo(s, at, CF.Wrote(st.front, pane))
            && ExecAll(s, CF.ActsOf(f, st.All()), rows)
               == (var built := Exec(at, CF.Build(snap.text, snap.cursor.x, snap.cursor.y), rows);
                   built.(pending := built.pending + CF.Wrote(st.behind, pane)))
  {
    hide CF.OnLine, Exec, FedTo, ExecAll, CF.ActsOf, CF.StateAfter, Claimed, NeverBuilding, CF.Wrote;
    var head := st.front + [st.mark];
    ClaimedParts(f, head, st.behind, pane);
    ClaimedParts(f, st.front, [st.mark], pane);
    BuildingSince(f, st.front, st.mark);
    FedInFront(s, f, st.front, pane, rows);
    CF.ActsOfAppend(f, head, st.behind);
    CF.ActsOfSnoc(f, st.front, st.mark);
    ExecAppend(s, CF.ActsOf(f, head), CF.ActsOf(CF.StateAfter(f, head), st.behind), rows);
    OneMore(s, CF.ActsOf(f, st.front), CF.Build(snap.text, snap.cursor.x, snap.cursor.y), rows);
    var at := ExecAll(s, CF.ActsOf(f, st.front), rows);
    QueuedBehind(Exec(at, CF.Build(snap.text, snap.cursor.x, snap.cursor.y), rows), CF.StateAfter(f, head), st.behind,
                 pane, rows);
  }

  /** What has become of a canvas and of the bytes behind a capture. */
  datatype Outcome = Outcome(canvas: Option<Canvas>, queued: string, building: Option<Snapshot>)

  function OutcomeOf(s: Slot): Outcome { Outcome(s.canvas, s.pending, s.build) }

  /** The law of the seeding seam.  A slot in step with canvas `base` takes in a stretch
      that completes a capture; its pane wrote `w1` before the end mark and `w2` behind
      it, in the same stretch.  If the capture is rebuilt, `w2` waits for the new canvas
      and is fed to it first.  If the canvas is repainted or left alone it shows the
      capture, or all the pane wrote up to the mark - but `w2` stays in the queue. */
  lemma SeamIs(s: Slot, b: Book, data: string, st: Stretch, snap: Snapshot, pane: nat, browsing: bool,
              g: Geometry)
    requires Sound(s, g) && InStep(s, b) && b.base.Some? && b.next.None?
    requires CF.LinesIn(s.buf + data) == st.All() && Brings(s.feed, st, snap, pane) && Legible(snap.text, g.cols)
    ensures var w1, w2 := CF.Wrote(st.front, pane), CF.Wrote(st.behind, pane);
            var at, s' := ExecAll(Read(s, data), CF.ActsOf(s.feed, st.front), g.rows), Took(s, data, g.rows);
            && at.canvas == Some(T.Feed(Shown(g, b.base.value), b.out + w1))
            && OutcomeOf(s') == (match Plan(at, snap, g.rows)
                                 case Rebuild => Outcome(at.canvas, w2, Some(snap))
                                 case Tail(_) => Outcome(Some(Shown(g, snap)), w2, None)
                                 case Skip => Outcome(at.canvas, w2, None))
            && (Plan(at, snap, g.rows).Rebuild? ==>
                  OutcomeOf(Installed(s', g, browsing)) == Outcome(Some(T.Feed(Shown(g, snap), w2)), "", None))
  {
    hide Shown, Legible, CF.ActsOf, CF.OnLine, Brings, CF.Consume, ExecAll, FedTo, CF.Wrote;
    var s0 := Read(s, data);
    ReadActs(s, data);
    StretchRuns(s0, s.feed, st, snap, pane, g.rows);
    var at := ExecAll(s0, CF.ActsOf(s.feed, st.front), g.rows);
    AtMarkIs(s0, at, b, CF.Wrote(st.front, pane), g);
    CaptureIs(at, snap, CF.Wrote(st.behind, pane), browsing, g);
  }

  lemma AtMarkIs(s: Slot, at: Slot, b: Book, w: string, g: Geometry)
    requires b.base.Some? && s.base == b.base && s.log == b.out && s.pending == "" && s.build.None?
    requires Sound(s, g) && FedTo(s, at, w)
    ensures Sound(at, g) && at.canvas == Some(T.Feed(Shown(g, b.base.value), b.out + w))
    ensures at.pending == "" && at.build.None?
  {
    hide Shown, Legible;
    FedMore(g, b.base.value, b.out, w);
    assert w == "" ==> s.log + w == s.log;
  }

  lemma CaptureIs(at: Slot, snap: Snapshot, w: string, browsing: bool, g: Geometry)
    requires Sound(at, g) && Legible(snap.text, g.cols)
    requires at.canvas.Some? && at.pending == "" && at.build.None?
    ensures var built := Exec(at, CF.Build(snap.text, snap.cursor.x, snap.cursor.y), g.rows);
            var s' := built.(pending := built.pending + w);
            && OutcomeOf(s') == (match Plan(at, snap, g.rows)
                                 case Rebuild => Outcome(at.canvas, w, Some(snap))
                                 case Tail(_) => Outcome(Some(Shown(g, snap)), w, None)
                                 case Skip => Outcome(at.canvas, w, None))
            && (Plan(at, snap, g.rows).Rebuild? ==>
                  OutcomeOf(Installed(s', g, browsing)) == Outcome(Some(T.Feed(Shown(g, snap), w)), "", None))
  {
    hide R.Verdict, Sound, Shown, Legible, T.Feed;
    assert "" + w == w;
    var plan := Plan(at, snap, g.rows);
    if plan.Tail? {
      TailIs(at, snap, g);
    } else if plan.Skip? {
      FeedNothing(at.canvas.value);
    }
  }

  /** The repainted canvas. */
  lemma TailIs(at: Slot, snap: Snapshot, g: Geometry)
    requires Sound(at, g) && Legible(snap.text, g.cols) && Plan(at, snap, g.rows).Tail? && at.canvas.Some?
    ensures Fed(Fed(at.canvas, Plan(at, snap, g.rows).bytes), "") == Some(Shown(g, snap))
  {
    hide Shown, Legible, Sound, Plan;
    RepaintShows(at, snap, g);
    FeedNothing(Shown(g, snap));
  }

  // ---- the input that gets out of step ----

  /** What tmux prints when a pane writes. */
  function OutputLine(pane: nat, bytes: string): string
    requires forall i :: 0 <= i < |bytes| ==> bytes[i] as int < 256
  {
    "%output " + ("%" + Dec(pane) + " " + CF.Escape(bytes))
  }

  lemma OutputLineIsWhole(pane: nat, bytes: string)
    requires pane <= CF.U64_MAX && forall i :: 0 <= i < |bytes| ==> bytes[i] as int < 256
    ensures var line := OutputLine(pane, bytes);
            CF.IsLine(line) && CF.ParseLine(line) == CF.Output(pane, bytes)
  {
    hide CF.Escape, CF.ParseLine;
    CF.OutputLineReads(pane, bytes);
    CF.EscapeIsPrintable(bytes);
    var digits := Dec(pane);
    assert forall i :: 0 <= i < |digits| ==> digits[i] >= '0';
    var line := OutputLine(pane, bytes);
    assert line == "%output %" + digits + " " + CF.Escape(bytes);
    assert forall i :: 0 <= i < |line| ==> line[i] >= ' ';
  }

  lemma EndMarkIsWhole()
    ensures CF.IsLine("%end") && CF.ParseLine("%end") == CF.BlockEnd
  {
    assert "%end"[1..] == "end";
  }

  lemma NoLine(f: CF.State)
    ensures CF.Consume(f, "") == CF.Ran(f, [], "")
  {
  }

  /** The end mark of a capture and a line of output in one stretch. */
  lemma MarkThenOutput(s: Slot, pane: nat, x: string)
    requires s.buf == "" && s.feed.phase == CF.InCapture && s.feed.pane == Some(pane) && pane <= CF.U64_MAX
    requires forall i :: 0 <= i < |x| ==> x[i] as int < 256
    ensures var data := "%end\n" + (OutputLine(pane, x) + "\n");
            && ActsIn(s, data) == [CF.Build(Join(s.feed.cap, "\r\n"), s.feed.x, s.feed.y), CF.Pend(x)]
            && Read(s, data) == s.(feed := s.feed.(phase := CF.Building, cap := []))
  {
    hide CF.ParseLine, CF.Consume, CF.OnLine, OutputLine, CF.IsLine;
    EndMarkIsWhole();
    OutputLineIsWhole(pane, x);
    TwoLines(s.feed, "%end", OutputLine(pane, x));
    assert "" + ("%end\n" + (OutputLine(pane, x) + "\n")) == "%end" + "\n" + (OutputLine(pane, x) + "\n");
    EndThenOutput(s.feed, "%end", OutputLine(pane, x), pane, x);
  }

  lemma EndThenOutput(f: CF.State, mark: string, line: string, pane: nat, x: string)
    requires f.phase == CF.InCapture && f.pane == Some(pane)
    requires CF.ParseLine(mark) == CF.BlockEnd && CF.ParseLine(line) == CF.Output(pane, x)
    ensures var f' := f.(phase := CF.Building, cap := []);
            && CF.OnLine(f, mark) == (f', CF.Build(Join(f.cap, "\r\n"), f.x, f.y))
            && CF.OnLine(f', line) == (f', CF.Pend(x))
  {
    hide CF.ParseLine, Join;
  }

  lemma TwoLines(f: CF.State, a: string, b: string)
    requires CF.IsLine(a) && CF.IsLine(b)
    ensures var (f1, act1) := CF.OnLine(f, a);
            var (f2, act2) := CF.OnLine(f1, b);
            CF.Consume(f, a + "\n" + (b + "\n")) == CF.Ran(f2, [act1, act2], "")
  {
    hide CF.OnLine, CF.Consume, CF.IsLine;
    CF.WholeLine(f, a, "\n", b + "\n");
    assert b + "\n" == b + "\n" + "";
    CF.WholeLine(CF.OnLine(f, a).0, b, "\n", "");
    NoLine(CF.OnLine(CF.OnLine(f, a).0, b).0);
  }

  lemma OutputAlone(s: Slot, pane: nat, y: string)
    requires s.buf == "" && s.feed.phase == CF.Steady && s.feed.pane == Some(pane) && pane <= CF.U64_MAX
    requires forall i :: 0 <= i < |y| ==> y[i] as int < 256
    ensures ActsIn(s, OutputLine(pane, y) + "\n") == [CF.Feed(y)] && Read(s, OutputLine(pane, y) + "\n") == s
  {
    hide CF.ParseLine, CF.Consume;
    var line := OutputLine(pane, y);
    OutputLineIsWhole(pane, y);
    assert "" + (line + "\n") == line + "\n" + "";
    CF.WholeLine(s.feed, line, "\n", "");
    NoLine(s.feed);
  }

  lemma TwoActs(s: Slot, a: CF.Act, b: CF.Act, rows: nat)
    ensures ExecAll(s, [a], rows) == Exec(s, a, rows)
    ensures ExecAll(s, [a, b], rows) == Exec(Exec(s, a, rows), b, rows)
  {
    hide Exec;
    assert [a][..0] == [] && [a, b][..1] == [a];
  }

  /** When the capture is one that keeps the canvas, the output `x` of that stretch stays in
      the queue, and the output `y` of the next one is fed in front of it. */
  lemma LateIsOvertaken(s: Slot, pane: nat, x: string, y: string, rows: nat)
    requires s.canvas.Some? && s.build.None? && s.buf == "" && s.pending == ""
    requires s.feed.phase == CF.InCapture && s.feed.pane == Some(pane) && pane <= CF.U64_MAX
    requires forall i :: 0 <= i < |x| ==> x[i] as int < 256
    requires forall i :: 0 <= i < |y| ==> y[i] as int < 256
    requires Merges(s, Snapshot(Join(s.feed.cap, "\r\n"), R.Cursor(s.feed.x, s.feed.y)), rows)
    ensures var s1 := Took(s, "%end\n" + (OutputLine(pane, x) + "\n"), rows);
            var s2 := Took(s1, OutputLine(pane, y) + "\n", rows);
            && s1.pending == x && s1.build.None? && s1.log in {"", s.log}
            && s2.pending == x && s2.log == s1.log + y && s2.canvas == Fed(s1.canvas, y)
  {
    hide CF.ParseLine, CF.Consume, R.Verdict, OutputLine;
    MarkThenOutput(s, pane, x);
    var snap := Snapshot(Join(s.feed.cap, "\r\n"), R.Cursor(s.feed.x, s.feed.y));
    var data := "%end\n" + (OutputLine(pane, x) + "\n");
    TwoActs(Read(s, data), CF.Build(snap.text, snap.cursor.x, snap.cursor.y), CF.Pend(x), rows);
    var s1 := Took(s, data, rows);
    assert Merges(Read(s, data), snap, rows);
    assert s1 == (var m := Merged(Read(s, data), snap, rows); m.(pending := "" + x));
    assert s.log + "" == s.log && "" + x == x;
    OutputAlone(s1, pane, y);
    TwoActs(s1, CF.Feed(y), CF.Nothing, rows);
  }

  // ---- a pane that is not claimed ----

  lemma UnclaimedStep(f: CF.State, line: string)
    requires f.phase in {CF.Steady, CF.AwaitHeader} && f.pane.None?
    requires CF.OnLine(f, line).0.pane.None? && !CF.ParseLine(line).Exit?
    ensures CF.OnLine(f, line).0.phase in {CF.Steady, CF.AwaitHeader}
    ensures CF.OnLine(f, line).1.Nothing? || CF.OnLine(f, line).1.SeedFail?
  {
    hide CF.ParseLine, CF.ParseHeader, CF.Clipped, CF.Blanked;
  }

  /** No pane is claimed before, between and after the lines, and the channel stays. */
  ghost predicate Unclaimed(f: CF.State, lines: seq<string>) {
    && (forall i :: 0 <= i <= |lines| ==> CF.StateAfter(f, lines[..i]).pane.None?)
    && forall i :: 0 <= i < |lines| ==> !CF.ParseLine(lines[i]).Exit?
  }

  lemma UnclaimedInit(f: CF.State, lines: seq<string>)
    requires lines != [] && Unclaimed(f, lines)
    ensures var init := lines[..|lines| - 1];
            && Unclaimed(f, init) && !CF.ParseLine(lines[|lines| - 1]).Exit?
            && CF.StateAfter(f, init).pane.None? && CF.StateAfter(f, lines).pane.None?
  {
    hide CF.StateAfter, CF.ParseLine;
    var init := lines[..|lines| - 1];
    assert lines[..|lines|] == lines && lines[..|init|] == init;
    forall i | 0 <= i <= |init| ensures CF.StateAfter(f, init[..i]).pane.None? {
      assert init[..i] == lines[..i];
    }
  }

  lemma UnclaimedExec(s: Slot, act: CF.Act, rows: nat)
    requires act.Nothing? || act.SeedFail?
    ensures var s' := Exec(s, act, rows); s' == s.(feed := s'.feed)
  {
  }

  /** While no pane is claimed - from a failed seeding to the header of the next - whatever
      the pane writes is dropped, and the slot takes no note of it: the canvas is neither
      fed nor marked as behind, so that the next capture that extends the last one leaves
      a canvas that was fed before as it is. */
  lemma {:induction false} UnclaimedIsDropped(s: Slot, f: CF.State, lines: seq<string>, rows: nat)
    requires f.phase in {CF.Steady, CF.AwaitHeader} && Unclaimed(f, lines)
    ensures CF.StateAfter(f, lines).phase in {CF.Steady, CF.AwaitHeader}
    ensures var s' := ExecAll(s, CF.ActsOf(f, lines), rows); s' == s.(feed := s'.feed)
    decreases |lines|
  {
    if lines == [] {
      CF.NoActs(f);
      hide CF.StateAfter, CF.ActsOf, Unclaimed;
    } else {
      hide CF.OnLine, CF.ParseLine, CF.StateAfter, CF.ActsOf, ExecAll, Exec, MergedIn, Unclaimed;
      var init, line := lines[..|lines| - 1], lines[|lines| - 1];
      assert lines == init + [line];
      UnclaimedInit(f, lines);
      UnclaimedIsDropped(s, f, init, rows);
      CF.ActsOfSnoc(f, init, line);
      CF.AfterSnoc(f, init, line);
      UnclaimedStep(CF.StateAfter(f, init), line);
      OneMore(s, CF.ActsOf(f, init), CF.OnLine(CF.StateAfter(f, init), line).1, rows);
      UnclaimedExec(ExecAll(s, CF.ActsOf(f, init), rows), CF.OnLine(CF.StateAfter(f, init), line).1, rows);
    }
  }

  // ---- what a lapse comes to ----

  lemma QuietEntry(b: Book, s: Slot, f: CF.State, line: string, rows: nat)
    requires CF.OnLine(f, line).1 == CF.Nothing && !CF.ParseLine(line).Output?
    ensures var b' := Entered(b, s, f, line, rows); b' == b.(pane := b'.pane)
  {
    hide CF.OnLine, CF.ParseLine, Written;
    NothingWritten(b);
  }

  /** Lines of a round that are no output leave slot and book alone until the last. */
  lemma {:induction false} QuietRound(b: Book, s: Slot, f: CF.State, lines: seq<string>, rows: nat)
    requires f.phase !in {CF.Steady, CF.Building} && CF.StateAfter(f, lines).phase !in {CF.Steady, CF.Building}
    requires CF.NoOutput(lines)
    ensures ExecAll(s, CF.ActsOf(f, lines), rows) == s
    ensures var b' := Entries(b, s, f, lines, rows); b' == b.(pane := b'.pane)
    decreases |lines|
  {
    hide CF.OnLine, CF.ParseLine, Exec, Entered;
    if lines != [] {
      var init, line := lines[..|lines| - 1], lines[|lines| - 1];
      var at := CF.StateAfter(f, init);
      assert lines == init + [line];
      if at.phase in {CF.Steady, CF.Building} {
        CF.IdleStays(at, line);
      } else {
        QuietRound(b, s, f, init, rows);
        CF.QuietLine(at, line);
        CF.ActsOfSnoc(f, init, line);
        OneMore(s, CF.ActsOf(f, init), CF.Nothing, rows);
        NothingDone(s, rows);
        QuietEntry(Entries(b, s, f, init, rows), s, at, line, rows);
      }
    }
  }

  lemma NothingDone(s: Slot, rows: nat)
    ensures Exec(s, CF.Nothing, rows) == s
  {
  }

  /** A seed command with this token has just been sent. */
  predicate Seeded(f: CF.State, token: nat) { f == CF.AfterSeed(f, token) }

  /** A whole round of the command, in which no output comes. */
  ghost predicate Answers(s: Slot, token: nat, r: CF.Round, last: string, data: string) {
    && Seeded(s.feed, token) && r.Is(token) && CF.IsEnd(last)
    && LinesOf(s, data) == r.All() + [last] && CF.NoOutput(r.All())
  }

  function CaptureOf(r: CF.Round): Snapshot
    requires CF.ParseHeader(r.header).Some?
  {
    var h := CF.ParseHeader(r.header).value;
    Snapshot(Join(CF.Plains(r.body), "\r\n"), R.Cursor(h.x, h.y))
  }

  /** What the slot is like after a capture that leaves the canvas alone. */
  ghost predicate LeftAlone(s: Slot, s': Slot, text: string) {
    && s'.canvas == s.canvas && s'.base == s.base && s'.log == s.log && s'.build == s.build && s'.pending == ""
    && s'.lastCap == Some(text) && s'.fed && !s'.stale
  }

  lemma SkipLeavesAlone(s: Slot, snap: Snapshot, rows: nat)
    requires Plan(s, snap, rows).Skip? && s.pending == ""
    ensures LeftAlone(s, Exec(s, CF.Build(snap.text, snap.cursor.x, snap.cursor.y), rows), snap.text)
  {
    hide R.Verdict;
    if s.canvas.Some? { FeedNothing(s.canvas.value); }
    assert s.log + "" == s.log;
  }

  /** A round whose capture extends the account of a canvas that was fed: the account moves
      on, and the canvas and what it lacks stay as they are. */
  lemma RoundSkips(s: Slot, b: Book, token: nat, r: CF.Round, last: string, data: string, rows: nat)
    requires Answers(s, token, r, last, data) && s.pending == "" && Plan(s, CaptureOf(r), rows).Skip?
    ensures LeftAlone(s, Took(s, data, rows), CaptureOf(r).text)
    ensures var b' := Entries(b, Read(s, data), s.feed, LinesOf(s, data), rows); b' == b.(pane := b'.pane)
  {
    hide CF.ParseLine, CF.ParseHeader, CF.StateAfter, CF.Plains, Plan, Exec, CF.NoOutput, LeftAlone, CF.Consume;
    var s0, lines := Read(s, data), r.All();
    ReadActs(s, data);
    CF.RoundBuilds(s.feed, token, r, last);
    LineMoves(CF.StateAfter(s.feed, lines), last);
    QuietRound(b, s0, s.feed, lines, rows);
    CF.ActsOfSnoc(s.feed, lines, last);
    OneMore(s0, CF.ActsOf(s.feed, lines), r.Built(), rows);
    PlanIgnoresFeed(s, s0, CaptureOf(r), rows);
    SkipLeavesAlone(s0, CaptureOf(r), rows);
    AloneFrom(s, s0, Took(s, data, rows), CaptureOf(r).text);
    SkipEntry(Entries(b, s0, s.feed, lines, rows), s0, CF.StateAfter(s.feed, lines), last, CaptureOf(r), rows);
    assert (lines + [last])[..|lines|] == lines;
  }

  lemma PlanIgnoresFeed(s: Slot, s': Slot, snap: Snapshot, rows: nat)
    requires s' == s.(feed := s'.feed, buf := s'.buf)
    ensures Plan(s', snap, rows) == Plan(s, snap, rows)
  {
  }

  lemma AloneFrom(s: Slot, s0: Slot, s': Slot, text: string)
    requires s0 == s.(feed := s0.feed, buf := s0.buf) && LeftAlone(s0, s', text)
    ensures LeftAlone(s, s', text)
  {
  }

  lemma SkipEntry(b: Book, s: Slot, f: CF.State, line: string, snap: Snapshot, rows: nat)
    requires CF.OnLine(f, line).1 == CF.Build(snap.text, snap.cursor.x, snap.cursor.y) && Plan(s, snap, rows).Skip?
    ensures var b' := Entered(b, s, f, line, rows); b' == b.(pane := b'.pane)
  {
    LineSays(f, line);
    NothingWritten(b);
    hide CF.OnLine, Said, Written, R.Verdict;
  }

  lemma ErrorLineIsWhole()
    ensures CF.IsLine("%error") && CF.ParseLine("%error") == CF.BlockError
  {
    assert "%error"[1..] == "error" && "error"[1] == 'r' && "exit "[1] == 'x' && "end "[1] == 'n';
  }

  function ErrorThen(pane: nat, y: string): string
    requires forall i :: 0 <= i < |y| ==> y[i] as int < 256
  {
    "%error\n" + (OutputLine(pane, y) + "\n")
  }

  lemma ErrorLines(pane: nat, y: string)
    requires pane <= CF.U64_MAX && forall i :: 0 <= i < |y| ==> y[i] as int < 256
    ensures CF.LinesIn("" + ErrorThen(pane, y)) == ["%error", OutputLine(pane, y)]
  {
    hide CF.ParseLine, CF.LinesIn, OutputLine;
    var line := OutputLine(pane, y);
    ErrorLineIsWhole();
    OutputLineIsWhole(pane, y);
    assert "" + ErrorThen(pane, y) == "%error" + "\n" + (line + "\n") && line + "\n" == line + "\n" + "";
    CF.WholeLine(CF.Initial(), "%error", "\n", line + "\n");
    CF.WholeLine(CF.Initial(), line, "\n", "");
    NoLines();
    assert ["%error"] + ([line] + []) == ["%error", line];
  }

  lemma NoLines()
    ensures CF.LinesIn("") == []
  {
  }

  lemma ErrorTaken(s: Slot, pane: nat, y: string, rows: nat)
    requires s.buf == "" && s.feed.phase == CF.AwaitHeader && pane <= CF.U64_MAX
    requires forall i :: 0 <= i < |y| ==> y[i] as int < 256
    ensures Took(s, ErrorThen(pane, y), rows) == s.(feed := CF.AfterReset(s.feed))
  {
    hide CF.Consume, OutputLine, ExecAll, CF.AfterReset;
    ErrorStretch(s.feed, pane, y);
    assert s.buf + ErrorThen(pane, y) == "%error\n" + (OutputLine(pane, y) + "\n");
    TwoActs(Read(s, ErrorThen(pane, y)), CF.SeedFail(CF.ErrorBlock), CF.Nothing, rows);
    ResetTwice(s.feed);
  }

  lemma ResetTwice(f: CF.State)
    ensures CF.AfterReset(CF.AfterReset(f)) == CF.AfterReset(f)
  {
  }

  /** An error block and a line of output behind it, both inside a round. */
  lemma ErrorThenOutput(s: Slot, b: Book, pane: nat, y: string, rows: nat)
    requires s.buf == "" && s.feed.phase == CF.AwaitHeader && s.feed.pane == Some(pane) && pane <= CF.U64_MAX
    requires b.pane == Some(pane) && b.base.Some? && b.next.None?
    requires forall i :: 0 <= i < |y| ==> y[i] as int < 256
    ensures var data := ErrorThen(pane, y);
            && Took(s, data, rows) == s.(feed := CF.AfterReset(s.feed))
            && Entries(b, Read(s, data), s.feed, LinesOf(s, data), rows) == b.(out := b.out + y)
  {
    hide CF.Consume, OutputLine, Entries, Took, Read, ErrorThen;
    ErrorTaken(s, pane, y, rows);
    ErrorLines(pane, y);
    BookOfError(b, Read(s, ErrorThen(pane, y)), s.feed, pane, y, rows);
  }

  lemma ErrorStretch(f: CF.State, pane: nat, y: string)
    requires f.phase == CF.AwaitHeader && pane <= CF.U64_MAX && forall i :: 0 <= i < |y| ==> y[i] as int < 256
    ensures CF.Consume(f, "%error\n" + (OutputLine(pane, y) + "\n"))
         == CF.Ran(CF.AfterReset(f), [CF.SeedFail(CF.ErrorBlock), CF.Nothing], "")
  {
    hide CF.ParseLine, CF.Consume, CF.OnLine, OutputLine, CF.AfterReset;
    var line := OutputLine(pane, y);
    ErrorLineIsWhole();
    OutputLineIsWhole(pane, y);
    ErrorActs(f, pane, y);
    assert "%error\n" + (line + "\n") == "%error" + "\n" + (line + "\n") && line + "\n" == line + "\n" + "";
    CF.WholeLine(f, "%error", "\n", line + "\n");
    CF.WholeLine(CF.AfterReset(f), line, "\n", "");
    NoLine(CF.AfterReset(f));
  }

  lemma ErrorActs(f: CF.State, pane: nat, y: string)
    requires f.phase == CF.AwaitHeader && pane <= CF.U64_MAX && forall i :: 0 <= i < |y| ==> y[i] as int < 256
    ensures CF.OnLine(f, "%error") == (CF.AfterReset(f), CF.SeedFail(CF.ErrorBlock))
    ensures CF.OnLine(CF.AfterReset(f), OutputLine(pane, y)) == (CF.AfterReset(f), CF.Nothing)
  {
    hide CF.ParseLine, OutputLine;
    ErrorLineIsWhole();
    OutputLineIsWhole(pane, y);
  }

  lemma BookOfError(b: Book, s: Slot, f: CF.State, pane: nat, y: string, rows: nat)
    requires f.phase == CF.AwaitHeader && f.pane == Some(pane) && pane <= CF.U64_MAX
    requires b.pane == Some(pane) && b.base.Some? && b.next.None?
    requires forall i :: 0 <= i < |y| ==> y[i] as int < 256
    ensures Entries(b, s, f, ["%error", OutputLine(pane, y)], rows) == b.(out := b.out + y)
  {
    hide CF.ParseLine, CF.OnLine, OutputLine, Entries;
    var e, line := "%error", OutputLine(pane, y);
    var lines := [e, line];
    ErrorActs(f, pane, y);
    OutputLineIsWhole(pane, y);
    ErrorLineIsWhole();
    CF.NoActs(f);
    CF.AfterSnoc(f, [], e);
    CF.ActsOfSnoc(f, [], e);
    CF.AfterSnoc(f, [e], line);
    CF.ActsOfSnoc(f, [e], line);
    assert [] + [e] == [e] && [e] + [line] == lines;
    WroteSnoc([], e, pane);
    WroteSnoc([e], line, pane);
    NothingWrote(pane);
    forall i | 0 <= i <= 2 ensures CF.StateAfter(f, lines[..i]).pane in {None, Some(pane)} {
      assert lines[..0] == [] && lines[..1] == [e] && lines[..2] == lines;
    }
    BookIsWrote(b, s, f, lines, pane, rows);
  }

  /** The input that loses output for good.  A seeding fails, and the pane writes `y` before
      the next one claims it; then comes a capture that extends the last one.  The account
      moves on, nothing marks the canvas as behind, and `y` is not on it. */
  lemma DroppedForGood(s: Slot, b: Book, pane: nat, y: string, token: nat, r: CF.Round, last: string, data: string,
                       g: Geometry)
    requires Kept(s, b) && InStep(s, b) && s.base.Some? && s.open && s.buf == "" && y != ""
    requires s.feed.phase == CF.AwaitHeader && s.feed.pane == Some(pane) && pane <= CF.U64_MAX
    requires forall i :: 0 <= i < |y| ==> y[i] as int < 256
    requires Answers(s.(feed := CF.AfterSeed(CF.AfterReset(s.feed), token)), token, r, last, data)
    requires Plan(s, CaptureOf(r), g.rows).Skip?
    ensures var failed := Chunk(ErrorThen(pane, y));
            var s1, b1 := Next(s, failed, g), BookAfter(b, s, failed, g);
            var s2 := Next(s1, Seed(token), g);
            var s3, b3 := Next(s2, Chunk(data), g), BookAfter(b1, s2, Chunk(data), g);
            LeftAlone(s, s3, CaptureOf(r).text) && b3.base == b.base && b3.out == s3.log + y && !InStep(s3, b3)
  {
    hide CF.ParseLine, CF.ParseHeader, ErrorThen, Took, Entries, Plan, CF.Plains, CF.NoOutput;
    ErrorThenOutput(s, b, pane, y, g.rows);
    var s2 := s.(feed := CF.AfterSeed(CF.AfterReset(s.feed), token));
    PlanIgnoresFeed(s, s2, CaptureOf(r), g.rows);
    RoundSkips(s2, b.(out := b.out + y), token, r, last, data, g.rows);
    assert |s.log + y| > |s.log|;
  }

  /** The same happens to a canvas that lies in the view while the channel is lost and
      opened again. */
  lemma ViewedStaysShort(s: Slot, b: Book, y: string, token: nat, r: CF.Round, last: string, data: string, g: Geometry)
    requires Kept(s, b) && InStep(s, b) && s.inView && s.build.None? && y != ""
    requires Answers(Reopened(Torn(s), token), token, r, last, data)
    requires Plan(s, CaptureOf(r), g.rows).Skip?
    ensures var s1, b1 := Next(s, Down, g), BookAfter(b, s, Down, g);
            var s2, b2 := Next(s1, Unheard(y), g), BookAfter(b1, s1, Unheard(y), g);
            var s3 := Next(s2, Reopen(token), g);
            var s4, b4 := Next(s3, Chunk(data), g), BookAfter(b2, s3, Chunk(data), g);
            LeftAlone(s, s4, CaptureOf(r).text) && b4.base == b.base && b4.out == s4.log + y && !InStep(s4, b4)
  {
    hide CF.ParseLine, CF.ParseHeader, Took, Entries, R.Verdict, CF.Plains, CF.NoOutput;
    var s3 := Reopened(Torn(s), token);
    assert Plan(s3, CaptureOf(r), g.rows) == Plan(s, CaptureOf(r), g.rows);
    RoundSkips(s3, b.(out := b.out + y), token, r, last, data, g.rows);
    assert |s.log + y| > |s.log|;
  }

  /** After a reopening any first capture leads to a rebuild if and only if the canvas lies
      in the pool or there was no account that could be trusted before. */
  lemma ReopenRebuildsIff(s: Slot, token: nat, rows: nat)
    requires 0 < rows
    ensures (forall snap :: Plan(Reopened(s, token), snap, rows).Rebuild?)
       <==> (s.canvas.Some? && !s.inView) || s.stale || s.lastCap.None? || |R.LinesOf(s.lastCap.value)| < rows
  {
    hide R.LinesOf, R.TailText;
    if !s.stale && s.lastCap.Some? && !(s.canvas.Some? && !s.inView) && |R.LinesOf(s.lastCap.value)| >= rows {
      var snap := Snapshot(s.lastCap.value, R.Cursor(0, 0));
      assert R.Extends(R.LinesOf(snap.text), R.LinesOf(snap.text), rows);
      assert !Plan(Reopened(s, token), snap, rows).Rebuild?;
    }
  }

  /** A canvas that was fed and dropped by the view is not built anew by a capture that
      extends the account: there is none then, and the account moves on. */
  lemma DroppedIsNotRebuilt(s: Slot, snap: Snapshot, rows: nat)
    requires s.inView && s.build.None? && s.pending == "" && Plan(s, snap, rows).Skip?
    ensures var s' := Exec(Dropped(s), CF.Build(snap.text, snap.cursor.x, snap.cursor.y), rows);
            s'.canvas.None? && s'.build.None? && s'.lastCap == Some(snap.text) && !s'.stale
  {
    hide R.Verdict;
    assert Plan(Dropped(s), snap, rows).Skip?;
    SkipLeavesAlone(Dropped(s), snap, rows);
  }

  ghost predicate NoneDelivered(inputs: seq<Input>) { forall i :: 0 <= i < |inputs| ==> !inputs[i].Install? }

  lemma {:induction false} StaleActsStay(s: Slot, acts: seq<CF.Act>, rows: nat)
    requires s.stale && s.canvas.None?
    ensures var t := ExecAll(s, acts, rows); t.stale && t.canvas.None?
  {
    if acts != [] { StaleActsStay(s, acts[..|acts| - 1], rows); }
  }

  lemma {:induction false} StaleStays(s: Slot, inputs: seq<Input>, g: Geometry)
    requires s.stale && s.canvas.None? && NoneDelivered(inputs)
    ensures Run(s, inputs, g).stale && Run(s, inputs, g).canvas.None?
  {
    hide ExecAll, CF.Consume;
    if inputs != [] {
      var init, last := inputs[..|inputs| - 1], inputs[|inputs| - 1];
      StaleStays(s, init, g);
      var t := Run(s, init, g);
      if last.Chunk? { StaleActsStay(Read(t, last.data), ActsIn(t, last.data), g.rows); }
    }
  }

  /** Output of the claimed pane that meets no canvas: from then on, until a thread delivers
      one, every capture has one built, whatever comes in between. */
  lemma MissedIsRebuilt(s: Slot, bytes: string, inputs: seq<Input>, snap: Snapshot, g: Geometry)
    requires s.canvas.None? && NoneDelivered(inputs)
    ensures var t := Run(Exec(s, CF.Feed(bytes), g.rows), inputs, g);
            t.canvas.None? && Exec(t, CF.Build(snap.text, snap.cursor.x, snap.cursor.y), g.rows).build == Some(snap)
  {
    hide Run;
    StaleStays(Exec(s, CF.Feed(bytes), g.rows), inputs, g);
  }

  /** A building thread dies with `x` queued: `x` stays there, and the next capture that
      keeps the canvas puts it behind all that was fed since, or behind the capture itself. */
  lemma DeathIsOvertaken(s: Slot, dead: Slot, at: Slot, w: string, snap: Snapshot, g: Geometry)
    requires s.build.Some? && s.canvas.Some?
    requires dead == Next(s, Broken, g) && FedTo(dead, at.(feed := dead.feed, buf := dead.buf), w)
    requires Sound(at, g) && Legible(snap.text, g.cols) && Merges(at, snap, g.rows)
    ensures Exec(at, CF.Build(snap.text, snap.cursor.x, snap.cursor.y), g.rows).canvas
         == if Plan(at, snap, g.rows).Skip? then Fed(s.canvas, w + s.pending)
            else Some(T.Feed(Shown(g, snap), s.pending))
  {
    hide Shown, Legible, Sound, R.Verdict, T.Feed;
    if Plan(at, snap, g.rows).Skip? {
      T.FeedAppend(s.canvas.value, w, s.pending);
    } else {
      RepaintShows(at, snap, g);
    }
  }

  lemma RepaintShows(at: Slot, snap: Snapshot, g: Geometry)
    requires Sound(at, g) && Legible(snap.text, g.cols) && Plan(at, snap, g.rows).Tail? && at.canvas.Some?
    ensures Fed(at.canvas, Plan(at, snap, g.rows).bytes) == Some(Shown(g, snap))
  {
    hide Shown, Legible;
    FeedNothing(Shown(g, at.base.value));
    TailMakesNew(g, at.base.value, snap);
  }

  // ---- the half line of an old channel ----

  lemma ExitAlone(f: CF.State)
    ensures CF.Consume(f, "%exit\n").acts == [CF.Dead]
  {
    hide CF.Consume;
    assert "%exit"[1..] == "exit";
    assert "%exit\n" == "%exit" + "\n" + "";
    CF.WholeLine(f, "%exit", "\n", "");
    NoLine(CF.OnLine(f, "%exit").0);
  }

  lemma FirstAct(f: CF.State, half: string, end: string)
    requires '\n' !in half && '\n' !in end
    ensures CF.Consume(f, half + (end + "\n")).acts == [CF.OnLine(f, TrimCr(half + end)).1]
  {
    hide CF.OnLine;
    var buf := half + (end + "\n");
    FindIs(buf, '\n', |half + end|);
    assert buf[..|half + end|] == half + end && buf[|half + end| + 1..] == "";
    NoLine(CF.OnLine(f, TrimCr(half + end)).0);
    assert [CF.OnLine(f, TrimCr(half + end)).1] + [] == [CF.OnLine(f, TrimCr(half + end)).1];
  }

  lemma DeadIsExit(f: CF.State, line: string)
    requires f.phase == CF.AwaitHeader
    ensures CF.OnLine(f, line).1.Dead? <==> CF.ParseLine(line).Exit?
  {
    hide CF.ParseLine;
  }

  lemma ExitBehind(half: string)
    requires half != "" && CF.ParseLine(half + "%exit").Exit?
    ensures "%exit " <= half
  {
    var line := half + "%exit";
    assert line[|line| - 1] == 't' && line[|half|] == '%';
    var rest := line[1..];
    assert rest[|half| - 1] == '%';
    assert "exit " <= rest;
    assert half == line[..|half|] && |half| >= 6;
  }

  lemma {:induction false} TrimKeepsFront(front: string, s: string)
    requires front <= s && front != "" && front[|front| - 1] != '\r'
    ensures front <= TrimCr(s) && TrimCr(s)[|TrimCr(s)| - 1] != '\r'
  {
    if s[|s| - 1] == '\r' {
      TrimKeepsFront(front, s[..|s| - 1]);
    }
  }

  lemma ExitFront(half: string)
    requires "%exit " <= half
    ensures CF.ParseLine(TrimCr(half)).Exit?
  {
    hide TrimCr;
    TrimKeepsFront("%exit ", half);
    var line := TrimCr(half);
    assert "exit " <= line[1..];
  }

  lemma NewChannelSame(s: Slot, token: nat)
    requires s.buf == ""
    ensures Reopened(s, token).(buf := "") == Reopened(s, token)
  {
  }

  /** A reopened channel behaves as a new one, whatever it brings, if and only if the old
      one did not end inside a line: the half line is joined to the first line of the new. */
  lemma ReopenedAsNewIff(s: Slot, token: nat)
    requires '\n' !in s.buf
    ensures (forall data :: ActsIn(Reopened(s, token), data) == ActsIn(Reopened(s, token).(buf := ""), data))
       <==> s.buf == ""
  {
    hide CF.Consume, CF.OnLine, CF.ParseLine, TrimCr;
    var s' := Reopened(s, token);
    var f := s'.feed;
    if s.buf == "" {
      NewChannelSame(s, token);
    } else if "%exit " <= s.buf {
      FirstAct(f, s.buf, "");
      FirstAct(f, "", "");
      assert s.buf + "" == s.buf && "" + "\n" == "\n" && "" + ("" + "\n") == "\n" && "" + "" == "";
      ExitFront(s.buf);
      DeadIsExit(f, TrimCr(s.buf));
      EmptyIsPlain();
      DeadIsExit(f, TrimCr(""));
      assert ActsIn(s', "\n") != ActsIn(s'.(buf := ""), "\n");
    } else {
      FirstAct(f, s.buf, "%exit");
      FirstAct(f, "", "%exit");
      if CF.ParseLine(s.buf + "%exit").Exit? { ExitBehind(s.buf); }
      NoCr(s.buf + "%exit");
      DeadIsExit(f, s.buf + "%exit");
      ExitAlone(f);
      assert "%exit" + "\n" == "%exit\n" && "" + "%exit\n" == "%exit\n";
      assert ActsIn(s', "%exit\n") != ActsIn(s'.(buf := ""), "%exit\n");
    }
  }

  lemma EmptyIsPlain()
    ensures CF.ParseLine(TrimCr("")).Plain?
  {
  }

  lemma NoCr(line: string)
    requires line != "" && line[|line| - 1] != '\r'
    ensures TrimCr(line) == line
  {
  }

  // ---- the entry as the program keeps it ----

  /** A canvas is in place for a capture, and is given what was queued. */
  function Supplied(s: Slot, text: string, ahead: bool): Slot {
    s.(canvas := Fed(s.canvas, s.pending), log := s.log + (if s.canvas.Some? then s.pending else ""), pending := "",
       feed := s.feed.(phase := CF.Steady), lastCap := Some(text), stale := false,
       fed := ahead || (s.pending != "" && s.canvas.Some?))
  }

  function Repainted(s: Slot, bytes: string, snap: Snapshot): Slot {
    s.(canvas := Fed(s.canvas, bytes), base := Some(snap), log := "")
  }

  function Grew(s: Slot, bytes: string): Slot { s.(canvas := Fed(s.canvas, bytes), log := s.log + bytes) }

  /** The three arms of a verdict. */
  function CarriedOut(s: Slot, plan: R.ReseedPlan, snap: Snapshot): Slot {
    if plan.Skip? then Supplied(s, snap.text, true)
    else if plan.Tail? && s.canvas.Some? then Supplied(Repainted(s, plan.bytes, snap), snap.text, false)
    else s.(pending := "", build := Some(snap))
  }

  lemma CaptureExec(s: Slot, snap: Snapshot, rows: nat)
    ensures Exec(s, CF.Build(snap.text, snap.cursor.x, snap.cursor.y), rows)
         == CarriedOut(s, Plan(s, snap, rows), snap)
  {
    hide R.Verdict, T.Feed, Plan;
  }

  lemma NothingFed(s: Slot)
    ensures Grew(s, "") == s
  {
    assert s.log + "" == s.log;
    if s.canvas.Some? { FeedNothing(s.canvas.value); }
  }

  lemma InstalledIs(s: Slot, g: Geometry, browsing: bool)
    requires s.build.Some?
    ensures Installed(s, g, browsing)
         == Supplied(s.(canvas := Some(Shown(g, s.build.value)), inView := s.inView || browsing, base := s.build,
                        log := "", build := None),
                     s.build.value.text, false)
  {
    hide Shown;
    assert "" + s.pending == s.pending;
  }

  /** An entry of the warm pool, with its seeding machine and its place in the view. */
  class WarmSession {
    const feed: CF.Machine
    var open: bool
    var canvas: Option<Canvas>
    var shown: Option<Canvas>
    var pending: string
    var build: Option<Snapshot>
    var lastCap: Option<string>
    var fed: bool
    var stale: bool
    ghost var base: Option<Snapshot>
    ghost var log: string

    /** The canvas lies in one place. */
    ghost predicate Valid()
      reads this
    {
      shown.None? || canvas.None?
    }

    ghost function View(): Slot
      reads this, feed
    {
      Slot(open, feed.Abstract(), feed.lineBuf, if shown.Some? then shown else canvas, shown.Some?, pending, build,
           lastCap, fed, stale, base, log)
    }

    constructor ()
      ensures Valid() && View() == Empty() && fresh(feed)
      ensures !open && canvas.None? && shown.None? && !fed && !stale && pending == "" && feed.lineBuf == ""
    {
      feed := new CF.Machine();
      open, canvas, shown, pending, build := false, None, None, "", None;
      lastCap, fed, stale, base, log := None, false, false, None, "";
    }

    /** `ctrl_on_event` for output of the control channel. */
    method OnOutput(data: string, rows: nat)
      requires Valid()
      modifies this, feed
      ensures Valid() && View() == Took(old(View()), data, rows)
    {
      hide Exec, CF.Consume;
      ghost var before := View();
      var acts := feed.FeedBytes(data);
      var i := 0;
      while i < |acts|
        invariant i <= |acts| && Valid() && View() == ExecAll(Read(before, data), acts[..i], rows)
      {
        Execute(acts[i], rows);
        assert acts[..i + 1][..i] == acts[..i];
        i := i + 1;
      }
      assert acts[..|acts|] == acts;
    }

    /** `ctrl_exec`. */
    method Execute(act: CF.Act, rows: nat)
      requires Valid()
      modifies this, feed
      ensures Valid() && View() == Exec(old(View()), act, rows)
    {
      hide CF.Machine.Abstract, T.Feed, Merges, Merged;
      match act {
        case Feed(bytes) =>
          var delivered := Deliver(bytes);
          if delivered { fed := true; } else { stale := true; }
        case Pend(bytes) => pending := pending + bytes;
        case Build(text, x, y) => OnCapture(Snapshot(text, R.Cursor(x, y)), rows);
        case SeedFail(_) => feed.Reset();
        case Dead => TearDown();
        case Reconcile =>
        case Nothing =>
      }
    }

    /** Bytes go to the canvas in the view, or else to the one in the pool. */
    method Deliver(bytes: string) returns (delivered: bool)
      requires Valid()
      modifies this`canvas, this`shown, this`log
      ensures Valid() && delivered == old(View()).canvas.Some?
      ensures View() == if delivered then Grew(old(View()), bytes) else old(View())
    {
      hide CF.Machine.Abstract, T.Feed;
      delivered := true;
      if shown.Some? {
        shown, log := Some(T.Feed(shown.value, bytes)), log + bytes;
      } else if canvas.Some? {
        canvas, log := Some(T.Feed(canvas.value, bytes)), log + bytes;
      } else {
        delivered := false;
      }
    }

    /** A capture is complete: the canvas is kept if the capture continues the last one,
        and a new one is built if not. */
    method OnCapture(snap: Snapshot, rows: nat)
      requires Valid()
      modifies this, feed
      ensures Valid() && View() == Exec(old(View()), CF.Build(snap.text, snap.cursor.x, snap.cursor.y), rows)
    {
      hide CF.Machine.Abstract, Exec, Plan, CarriedOut;
      CaptureExec(View(), snap, rows);
      var plan := Consult(snap, rows);
      CarryOut(plan, snap);
    }

    /** The verdict; without an account, or with one that is not trusted, it is to rebuild. */
    method Consult(snap: Snapshot, rows: nat) returns (plan: R.ReseedPlan)
      ensures plan == Plan(View(), snap, rows)
    {
      hide CF.Machine.Abstract, R.Verdict;
      if stale || lastCap.None? { return R.Rebuild; }
      plan := R.PlanReseed(lastCap.value, snap.text, rows, snap.cursor, fed);
    }

    method CarryOut(plan: R.ReseedPlan, snap: Snapshot)
      requires Valid()
      modifies this, feed
      ensures Valid() && View() == CarriedOut(old(View()), plan, snap)
    {
      hide CF.Machine.Abstract, Supplied, Repainted;
      var hit := plan.Skip?;
      if plan.Tail? {
        hit := Repaint(plan.bytes, snap);
      }
      if hit {
        SupplyPending(snap.text, plan.Skip?);
      } else {
        pending, build := "", Some(snap);
      }
    }

    /** The tail block goes to the canvas if there is one. */
    method Repaint(bytes: string, ghost snap: Snapshot) returns (hit: bool)
      requires Valid()
      modifies this`canvas, this`shown, this`base, this`log
      ensures Valid() && hit == old(View()).canvas.Some?
      ensures View() == if hit then Repainted(old(View()), bytes, snap) else old(View())
    {
      hide CF.Machine.Abstract, T.Feed;
      hit := Deliver(bytes);
      if hit {
        base, log := Some(snap), "";
      }
    }

    /** The canvas stands for the capture `text`, and what was queued is fed to it. */
    method SupplyPending(text: string, ahead: bool)
      requires Valid()
      modifies this`canvas, this`shown, this`pending, this`lastCap, this`fed, this`stale, this`log, feed
      ensures Valid() && View() == Supplied(old(View()), text, ahead)
    {
      hide CF.Machine.Abstract, T.Feed;
      var pend := pending;
      pending := "";
      feed.Built();
      lastCap, fed, stale := Some(text), ahead, false;
      NothingFed(View());
      if pend != "" {
        var delivered := Deliver(pend);
        fed := ahead || delivered;
      }
    }

    /** The building thread has delivered: the queue is fed to the new canvas first, and it
        takes the place of the old one. */
    method Install(g: Geometry, browsing: bool)
      requires Valid() && (shown.Some? ==> browsing) && (browsing ==> canvas.None?)
      modifies this, feed
      ensures Valid() && View() == Installed(old(View()), g, browsing)
    {
      if build.None? { return; }
      InstalledIs(View(), g, browsing);
      hide Shown, Installed, Supplied, CF.Machine.Abstract;
      var snap := build.value;
      Place(Shown(g, snap), browsing);
      build, base, log := None, Some(snap), "";
      SupplyPending(snap.text, false);
    }

    method Place(c: Canvas, browsing: bool)
      requires Valid() && (shown.Some? ==> browsing) && (browsing ==> canvas.None?)
      modifies this`canvas, this`shown
      ensures Valid() && View() == old(View()).(canvas := Some(c), inView := browsing)
    {
      if browsing {
        shown := Some(c);
      } else {
        canvas := Some(c);
      }
    }

    /** The building thread has died. */
    method GiveUp()
      requires Valid()
      modifies this, feed
      ensures Valid() && forall g: Geometry :: View() == Next(old(View()), Broken, g)
    {
      if build.Some? {
        build := None;
        feed.Reset();
      }
    }

    /** `ctrl_teardown`. */
    method TearDown()
      requires Valid()
      modifies this, feed
      ensures Valid() && View() == Torn(old(View()))
    {
      feed.Reset();
      open, pending, build := false, "", None;
    }

    /** The seed command of the keep-alive arm, sent only between rounds. */
    method Reseed(token: nat)
      requires Valid()
      modifies this, feed
      ensures Valid() && forall g: Geometry :: View() == Next(old(View()), Seed(token), g)
    {
      if open && feed.phase == CF.Steady { feed.SeedSent(token); }
    }

    /** A new channel: what the old one said of a canvas in the pool is no longer trusted. */
    method Reopen(token: nat)
      requires Valid()
      modifies this, feed
      ensures Valid() && forall g: Geometry :: View() == Next(old(View()), Input.Reopen(token), g)
    {
      if open { return; }
      open := true;
      feed.Reset();
      feed.SeedSent(token);
      if canvas.Some? { stale := true; }
    }

    /** The view takes the canvas out of the pool. */
    method ToView()
      requires Valid()
      modifies this`canvas, this`shown
      ensures Valid() && forall g: Geometry :: View() == Next(old(View()), Show, g)
    {
      if canvas.Some? {
        shown, canvas := canvas, None;
      }
    }

    /** `browse_exit_or_park`. */
    method ExitOrPark()
      requires Valid()
      modifies this`canvas, this`shown, this`base, this`log
      ensures Valid() && forall g: Geometry :: View() == Next(old(View()), Park, g)
    {
      if shown.None? { return; }
      if feed.pane.Some? {
        canvas, shown := shown, None;
      } else {
        ExitView();
      }
    }

    /** `exit_browse`. */
    method ExitView()
      requires Valid()
      modifies this`shown, this`base, this`log
      ensures Valid() && View() == Dropped(old(View()))
    {
      if shown.Some? {
        shown, base, log := None, None, "";
      }
    }
  }
}
