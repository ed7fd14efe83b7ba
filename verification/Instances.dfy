/** From grid cells to drawing instances (`src/glyph_atlas.rs`), set against the drawing
    pixel by pixel on the processor (`src/termview.rs`).  Texture coordinates are texels
    of the page, not yet divided by its size. */
module Instances {
  import opened Text
  import opened GlyphAtlas

  datatype Cell = Cell(px: nat, py: int, fg: nat, bg: nat, c: char, wide: bool, spacer: bool)

  datatype Block = Block(x: nat, y: int, w: nat, h: nat, color: nat)

  datatype Quad = Quad(x: int, y: int, w: nat, h: nat, u0: nat, v0: nat, fg: nat, page: nat)

  /** Control characters: C0, DEL and C1. */
  predicate IsControl(c: char) { c < ' ' || 0x7F <= c as int <= 0x9F }

  /** `paintable`. */
  predicate Paintable(c: char) { c != ' ' && !IsControl(c) }

  predicate Inked(cell: Cell) { !cell.spacer && Paintable(cell.c) }

  function ClipRight(cell: Cell, cellW: nat): int { cell.px + if cell.wide then cellW * 2 else cellW }

  /** The quad of a cell, cut at the right edge of its cell; none when nothing is left. */
  function QuadOf(cell: Cell, s: Slot, cellW: nat): Option<Quad> {
    var left := cell.px + s.offX;
    var room := ClipRight(cell, cellW) - left;
    var drawn := if room < s.w then room else s.w;
    if drawn <= 0 then None else Some(Quad(left, cell.py + s.offY, drawn, s.h, s.u0, s.v0, cell.fg, s.page))
  }

  // ---- the ink on the screen ----

  /** What `draw_glyph` lays on a pixel: the bitmap, left of the clip edge. */
  function CpuInk(cell: Cell, g: Glyph, cellW: nat, x: int, y: int): nat
    requires Sound(g)
  {
    var gx, gy := x - (cell.px + g.offX), y - (cell.py + g.offY);
    if 0 <= gx < g.w && 0 <= gy < g.h && x < ClipRight(cell, cellW) then
      IndexInside(g.w, g.h, gx, gy, 1);
      g.bitmap[Index(g.w, gx, gy)]
    else 0
  }

  /** What a quad lays on a pixel: the texel it samples one to one. */
  function GpuInk(q: Quad, p: Page, x: int, y: int): nat
    requires |p.coverage| == p.w * p.h && q.u0 + q.w <= p.w && q.v0 + q.h <= p.h
  {
    if q.x <= x < q.x + q.w && q.y <= y < q.y + q.h then
      IndexInside(p.w, p.h, q.u0 + (x - q.x), q.v0 + (y - q.y), 1);
      p.coverage[Index(p.w, q.u0 + (x - q.x), q.v0 + (y - q.y))]
    else 0
  }

  /** Drawing a cell's quad out of the atlas is drawing its glyph pixel by pixel. */
  lemma QuadDrawsGlyph(a: Atlas, k: Key, cell: Cell, cellW: nat, x: int, y: int)
    requires SlotOk(a, k)
    ensures var s, g := a.slots[k], a.given[k];
            match QuadOf(cell, s, cellW)
            case None => CpuInk(cell, g, cellW, x, y) == 0
            case Some(q) =>
              var p := a.pages[s.page];
              && q.u0 + q.w <= p.w && q.v0 + q.h <= p.h && |p.coverage| == p.w * p.h
              && GpuInk(q, p, x, y) == CpuInk(cell, g, cellW, x, y)
  {
    hide Index, Behind;
    var s, g := a.slots[k], a.given[k];
    var gx, gy := x - (cell.px + g.offX), y - (cell.py + g.offY);
    if 0 <= gx < g.w && 0 <= gy < g.h {
      assert PixelShown(a.pages[s.page], s, g, gx, gy);
    }
  }

  // ---- the two passes ----

  function Blocks(cells: seq<Cell>, cellW: nat, cellH: nat, defaultBg: nat): seq<Block> {
    if cells == [] then []
    else
      var r, c := Blocks(cells[..|cells| - 1], cellW, cellH, defaultBg), cells[|cells| - 1];
      if c.bg == defaultBg then r else r + [Block(c.px, c.py, cellW, cellH, c.bg)]
  }

  /** What looking a character up comes to: a key, and its slot if there is one. */
  datatype Found = Found(key: Key, slot: Option<Slot>)

  type Lookup = char -> Found

  function Quads(cells: seq<Cell>, slotOf: Lookup, cellW: nat): seq<Quad> {
    if cells == [] then []
    else
      var r, c := Quads(cells[..|cells| - 1], slotOf, cellW), cells[|cells| - 1];
      if !Inked(c) || slotOf(c.c).slot.None? then r
      else
        var q := QuadOf(c, slotOf(c.c).slot.value, cellW);
        if q.None? then r else r + [q.value]
  }

  function Misses(cells: seq<Cell>, slotOf: Lookup): seq<Key> {
    if cells == [] then []
    else
      var r, c := Misses(cells[..|cells| - 1], slotOf), cells[|cells| - 1];
      if Inked(c) && slotOf(c.c).slot.None? then r + [slotOf(c.c).key] else r
  }

  /** `grid_to_instances`: all backgrounds first, then the glyphs, and the keys the atlas
      does not have. */
  method GridToInstances(cells: seq<Cell>, slotOf: Lookup, cellW: nat, cellH: nat, defaultBg: nat)
    returns (bg: seq<Block>, glyph: seq<Quad>, misses: seq<Key>)
    ensures bg == Blocks(cells, cellW, cellH, defaultBg)
    ensures glyph == Quads(cells, slotOf, cellW)
    ensures misses == Misses(cells, slotOf)
  {
    hide QuadOf, Inked;
    bg, glyph, misses := [], [], [];
    for i := 0 to |cells|
      invariant bg == Blocks(cells[..i], cellW, cellH, defaultBg)
    {
      assert cells[..i + 1][..i] == cells[..i];
      if cells[i].bg != defaultBg { bg := bg + [Block(cells[i].px, cells[i].py, cellW, cellH, cells[i].bg)]; }
    }
    assert cells[..|cells|] == cells;
    for i := 0 to |cells|
      invariant glyph == Quads(cells[..i], slotOf, cellW)
      invariant misses == Misses(cells[..i], slotOf)
    {
      assert cells[..i + 1][..i] == cells[..i];
      if !Inked(cells[i]) { continue; }
      var found := slotOf(cells[i].c);
      if found.slot.None? {
        misses := misses + [found.key];
        continue;
      }
      var q := QuadOf(cells[i], found.slot.value, cellW);
      if q.Some? { glyph := glyph + [q.value]; }
    }
    assert cells[..|cells|] == cells;
  }

  // ---- which cells give an instance ----

  /** Places in a list of `n`, in their order. */
  ghost predicate Ascending(at: seq<nat>, n: nat) {
    (forall m :: 0 <= m < |at| ==> at[m] < n) && forall l, m :: 0 <= l < m < |at| ==> at[l] < at[m]
  }

  lemma OneMore(at: seq<nat>, n: nat)
    requires Ascending(at, n)
    ensures Ascending(at, n + 1) && Ascending(at + [n], n + 1) && n !in at
    ensures forall i :: i in at + [n] <==> i in at || i == n
  {
  }

  /** A cell that starts a character with a shape: above the space, and neither DEL nor C1. */
  ghost predicate Shaped(c: Cell) { !c.spacer && c.c > ' ' && !(0x7F <= c.c as int <= 0x9F) }

  /** How much of a glyph's width lies inside its cell, or inside two for a wide character. */
  ghost function Shown(c: Cell, s: Slot, cellW: nat): int {
    var room := (if c.wide then 2 else 1) * cellW - s.offX;
    if s.w <= room then s.w else room
  }

  lemma ShapedIff(c: Cell, s: Slot, cellW: nat)
    ensures Inked(c) <==> Shaped(c)
    ensures QuadOf(c, s, cellW) == if Shown(c, s, cellW) <= 0 then None else Some(Quad(c.px + s.offX, c.py + s.offY,
                                   Shown(c, s, cellW), s.h, s.u0, s.v0, c.fg, s.page))
  {
  }

  /** One background for every cell that differs from the default, in their order. */
  lemma {:induction false} BlocksAre(cells: seq<Cell>, cellW: nat, cellH: nat, defaultBg: nat) returns (at: seq<nat>)
    ensures Ascending(at, |cells|)
    ensures forall i :: 0 <= i < |cells| ==> (i in at <==> cells[i].bg != defaultBg)
    ensures var blocks := Blocks(cells, cellW, cellH, defaultBg);
            |blocks| == |at| && forall m :: 0 <= m < |at| ==>
              at[m] < |cells| &&
              var c := cells[at[m]];
              blocks[m] == Block(c.px, c.py, cellW, cellH, c.bg)
  {
    at := [];
    if cells != [] {
      hide Ascending;
      var n := |cells| - 1;
      at := BlocksAre(cells[..n], cellW, cellH, defaultBg);
      OneMore(at, n);
      if cells[n].bg != defaultBg { at := at + [n]; }
    }
  }

  /** One key is missed for every shaped cell without a slot, in their order. */
  lemma {:induction false} MissesAre(cells: seq<Cell>, slotOf: Lookup) returns (at: seq<nat>)
    ensures Ascending(at, |cells|)
    ensures forall i :: 0 <= i < |cells| ==> (i in at <==> Shaped(cells[i]) && slotOf(cells[i].c).slot.None?)
    ensures var misses := Misses(cells, slotOf);
            |misses| == |at| && forall m :: 0 <= m < |at| ==> at[m] < |cells| && misses[m] == slotOf(cells[at[m]].c).key
  {
    hide Inked, Shaped;
    at := [];
    if cells != [] {
      hide Ascending;
      var n := |cells| - 1;
      at := MissesAre(cells[..n], slotOf);
      OneMore(at, n);
      ShapedIff(cells[n], Slot(0, 0, 0, 0, 0, 0, 0), 0);
      if Inked(cells[n]) && slotOf(cells[n].c).slot.None? { at := at + [n]; }
    }
  }

  ghost predicate HasQuad(c: Cell, slotOf: Lookup, cellW: nat) {
    Shaped(c) && slotOf(c.c).slot.Some? && Shown(c, slotOf(c.c).slot.value, cellW) > 0
  }

  /** The part of a cell's slot that lies inside it, at the slot's offset. */
  ghost predicate IsQuadOf(q: Quad, c: Cell, slotOf: Lookup, cellW: nat) {
    HasQuad(c, slotOf, cellW) &&
    var s := slotOf(c.c).slot.value;
    q == Quad(c.px + s.offX, c.py + s.offY, Shown(c, s, cellW), s.h, s.u0, s.v0, c.fg, s.page)
  }

  lemma LastQuad(cells: seq<Cell>, slotOf: Lookup, cellW: nat)
    requires cells != []
    ensures var c, quads := cells[|cells| - 1], Quads(cells[..|cells| - 1], slotOf, cellW);
            if HasQuad(c, slotOf, cellW) then
              |Quads(cells, slotOf, cellW)| == |quads| + 1 && Quads(cells, slotOf, cellW)[..|quads|] == quads
              && IsQuadOf(Quads(cells, slotOf, cellW)[|quads|], c, slotOf, cellW)
            else Quads(cells, slotOf, cellW) == quads
  {
    var c := cells[|cells| - 1];
    var slot := slotOf(c.c).slot;
    ShapedIff(c, if slot.Some? then slot.value else Slot(0, 0, 0, 0, 0, 0, 0), cellW);
    hide Inked, Shaped, QuadOf, Shown;
  }

  ghost predicate QuadPlaces(at: seq<nat>, cells: seq<Cell>, slotOf: Lookup, cellW: nat) {
    Ascending(at, |cells|) && forall i :: 0 <= i < |cells| ==> (i in at <==> HasQuad(cells[i], slotOf, cellW))
  }

  ghost predicate QuadsAt(at: seq<nat>, quads: seq<Quad>, cells: seq<Cell>, slotOf: Lookup, cellW: nat) {
    |quads| == |at| && forall m :: 0 <= m < |at| ==>
      at[m] < |cells| && IsQuadOf(quads[m], cells[at[m]], slotOf, cellW)
  }

  lemma NextPlace(at: seq<nat>, cells: seq<Cell>, c: Cell, slotOf: Lookup, cellW: nat)
    requires QuadPlaces(at, cells, slotOf, cellW)
    ensures QuadPlaces(if HasQuad(c, slotOf, cellW) then at + [|cells|] else at, cells + [c], slotOf, cellW)
  {
    hide HasQuad;
    OneMore(at, |cells|);
    var more := if HasQuad(c, slotOf, cellW) then at + [|cells|] else at;
    forall i | 0 <= i < |cells + [c]| ensures i in more <==> HasQuad((cells + [c])[i], slotOf, cellW) {
      assert i < |cells| ==> (cells + [c])[i] == cells[i];
    }
  }

  /** One quad for every shaped cell whose slot has a part inside the cell, in their order:
      that part of the slot, at its offset. */
  lemma {:induction false} QuadsAre(cells: seq<Cell>, slotOf: Lookup, cellW: nat) returns (at: seq<nat>)
    ensures QuadPlaces(at, cells, slotOf, cellW) && QuadsAt(at, Quads(cells, slotOf, cellW), cells, slotOf, cellW)
  {
    at := [];
    if cells != [] {
      hide QuadPlaces, HasQuad, IsQuadOf, Quads;
      var n := |cells| - 1;
      at := QuadsAre(cells[..n], slotOf, cellW);
      assert cells[..n] + [cells[n]] == cells;
      NextPlace(at, cells[..n], cells[n], slotOf, cellW);
      LastQuad(cells, slotOf, cellW);
      if HasQuad(cells[n], slotOf, cellW) { at := at + [n]; }
    }
  }

  // ---- the frame ----

  /** How a colour with some ink is laid over another; no ink changes nothing. */
  type Mix = (nat, nat, nat) -> nat

  ghost predicate InklessIsIdle(mix: Mix) { forall fg, under :: mix(fg, under, 0) == under }

  /** The processor's first pass at a pixel: the background of every cell that has one. */
  function CpuFill(cells: seq<Cell>, cellW: nat, cellH: nat, defaultBg: nat, base: nat, x: int, y: int): nat {
    if cells == [] then base
    else
      var c := cells[|cells| - 1];
      if c.bg != defaultBg && c.px <= x < c.px + cellW && c.py <= y < c.py + cellH then c.bg
      else CpuFill(cells[..|cells| - 1], cellW, cellH, defaultBg, base, x, y)
  }

  /** Its second pass: the bitmap of every inked character that has one. */
  function CpuGlyphs(cells: seq<Cell>, raster: char -> Option<Glyph>, cellW: nat, mix: Mix, under: nat, x: int, y: int)
      : nat
    requires forall c :: raster(c).Some? ==> Sound(raster(c).value)
  {
    if cells == [] then under
    else
      var below := CpuGlyphs(cells[..|cells| - 1], raster, cellW, mix, under, x, y);
      var c := cells[|cells| - 1];
      if !Inked(c) || raster(c.c).None? then below
      else
        var ink := CpuInk(c, raster(c.c).value, cellW, x, y);
        if ink == 0 then below else mix(c.fg, below, ink)
  }

  function GpuFill(blocks: seq<Block>, base: nat, x: int, y: int): nat {
    if blocks == [] then base
    else
      var b := blocks[|blocks| - 1];
      if b.x <= x < b.x + b.w && b.y <= y < b.y + b.h then b.color
      else GpuFill(blocks[..|blocks| - 1], base, x, y)
  }

  predicate QuadOk(q: Quad, pages: seq<Page>) {
    q.page < |pages| &&
    var p := pages[q.page];
    |p.coverage| == p.w * p.h && q.u0 + q.w <= p.w && q.v0 + q.h <= p.h
  }

  predicate QuadsOk(quads: seq<Quad>, pages: seq<Page>) {
    forall i :: 0 <= i < |quads| ==> QuadOk(quads[i], pages)
  }

  function GpuGlyphs(quads: seq<Quad>, pages: seq<Page>, mix: Mix, under: nat, x: int, y: int): nat
    requires QuadsOk(quads, pages)
  {
    if quads == [] then under
    else
      var q := quads[|quads| - 1];
      mix(q.fg, GpuGlyphs(quads[..|quads| - 1], pages, mix, under, x, y), GpuInk(q, pages[q.page], x, y))
  }

  /** Every inked character has been loaded, if there is a bitmap for it at all. */
  ghost predicate Loaded(a: Atlas, cells: seq<Cell>, raster: char -> Option<Glyph>, slotOf: Lookup) {
    forall i :: 0 <= i < |cells| && Inked(cells[i]) ==>
      var f := slotOf(cells[i].c);
      if raster(cells[i].c).None? then f.slot.None?
      else SlotOk(a, f.key) && f.slot == Some(a.slots[f.key]) && a.given[f.key] == raster(cells[i].c).value
  }

  lemma NextFill(blocks: seq<Block>, b: Block, base: nat, x: int, y: int)
    ensures GpuFill(blocks + [b], base, x, y)
         == if b.x <= x < b.x + b.w && b.y <= y < b.y + b.h then b.color else GpuFill(blocks, base, x, y)
  {
    assert (blocks + [b])[..|blocks|] == blocks;
  }

  lemma {:induction false} FillIsFill(cells: seq<Cell>, cellW: nat, cellH: nat, defaultBg: nat, base: nat,
                                      x: int, y: int)
    ensures GpuFill(Blocks(cells, cellW, cellH, defaultBg), base, x, y)
         == CpuFill(cells, cellW, cellH, defaultBg, base, x, y)
  {
    if cells != [] {
      var init, c := cells[..|cells| - 1], cells[|cells| - 1];
      FillIsFill(init, cellW, cellH, defaultBg, base, x, y);
      NextFill(Blocks(init, cellW, cellH, defaultBg), Block(c.px, c.py, cellW, cellH, c.bg), base, x, y);
      hide GpuFill;
    }
  }

  /** One more cell: its quad, if it has one, is in order and lays down its glyph. */
  lemma NextQuad(a: Atlas, c: Cell, g: Glyph, k: Key, cellW: nat, x: int, y: int)
    requires SlotOk(a, k) && a.given[k] == g
    ensures match QuadOf(c, a.slots[k], cellW)
            case None => CpuInk(c, g, cellW, x, y) == 0
            case Some(q) =>
              q.fg == c.fg && QuadOk(q, a.pages)
              && GpuInk(q, a.pages[q.page], x, y) == CpuInk(c, g, cellW, x, y)
  {
    QuadDrawsGlyph(a, k, c, cellW, x, y);
  }

  /** In the order of the cells the quads lay down what the second pass does. */
  lemma {:induction false} GlyphsAreGlyphs(a: Atlas, cells: seq<Cell>, raster: char -> Option<Glyph>,
                                           slotOf: Lookup, cellW: nat, mix: Mix, under: nat, x: int, y: int)
    requires Loaded(a, cells, raster, slotOf) && InklessIsIdle(mix)
    requires forall c :: raster(c).Some? ==> Sound(raster(c).value)
    ensures var quads := Quads(cells, slotOf, cellW);
            QuadsOk(quads, a.pages)
            && GpuGlyphs(quads, a.pages, mix, under, x, y) == CpuGlyphs(cells, raster, cellW, mix, under, x, y)
  {
    hide QuadOf, CpuInk, GpuInk, QuadOk, SlotOk, Inked;
    if cells != [] {
      var init, c := cells[..|cells| - 1], cells[|cells| - 1];
      GlyphsAreGlyphs(a, init, raster, slotOf, cellW, mix, under, x, y);
      if Inked(c) && raster(c.c).Some? {
        InkedSlot(a, cells, raster, slotOf, |cells| - 1);
        NextQuad(a, c, raster(c.c).value, slotOf(c.c).key, cellW, x, y);
      }
    }
  }

  lemma InkedSlot(a: Atlas, cells: seq<Cell>, raster: char -> Option<Glyph>, slotOf: Lookup, i: nat)
    requires Loaded(a, cells, raster, slotOf) && i < |cells| && Inked(cells[i]) && raster(cells[i].c).Some?
    ensures var f := slotOf(cells[i].c);
            && SlotOk(a, f.key) && f.key in a.slots && f.slot == Some(a.slots[f.key])
            && f.key in a.given && a.given[f.key] == raster(cells[i].c).value
  {
  }

  // ---- page by page ----

  function OnPage(quads: seq<Quad>, page: nat): seq<Quad> {
    if quads == [] then []
    else
      var before, q := OnPage(quads[..|quads| - 1], page), quads[|quads| - 1];
      if q.page == page then before + [q] else before
  }

  /** The order of drawing: page after page, and on each page as the cells come. */
  function ByPage(quads: seq<Quad>, pages: nat): seq<Quad> {
    if pages == 0 then [] else ByPage(quads, pages - 1) + OnPage(quads, pages - 1)
  }

  /** The quads that lay ink on a pixel. */
  function Hits(quads: seq<Quad>, pages: seq<Page>, x: int, y: int): (r: seq<Quad>)
    requires QuadsOk(quads, pages)
    ensures QuadsOk(r, pages)
  {
    if quads == [] then []
    else
      var before, q := Hits(quads[..|quads| - 1], pages, x, y), quads[|quads| - 1];
      if GpuInk(q, pages[q.page], x, y) == 0 then before else before + [q]
  }

  lemma {:induction false} OnPageOk(quads: seq<Quad>, pages: seq<Page>, page: nat)
    requires QuadsOk(quads, pages)
    ensures QuadsOk(OnPage(quads, page), pages)
  {
    hide QuadOk;
    if quads != [] {
      OnPageOk(quads[..|quads| - 1], pages, page);
    }
  }

  lemma {:induction false} ByPageOk(quads: seq<Quad>, pages: seq<Page>, n: nat)
    requires QuadsOk(quads, pages)
    ensures QuadsOk(ByPage(quads, n), pages)
  {
    hide QuadOk;
    if n > 0 {
      ByPageOk(quads, pages, n - 1);
      OnPageOk(quads, pages, n - 1);
    }
  }

  predicate PagesAscend(quads: seq<Quad>) {
    forall i, j :: 0 <= i < j < |quads| ==> quads[i].page <= quads[j].page
  }

  /** Only the quads that hit a pixel matter to it. */
  lemma {:induction false} OnlyHitsShow(quads: seq<Quad>, pages: seq<Page>, mix: Mix, under: nat, x: int, y: int)
    requires QuadsOk(quads, pages) && InklessIsIdle(mix)
    ensures GpuGlyphs(quads, pages, mix, under, x, y) == GpuGlyphs(Hits(quads, pages, x, y), pages, mix, under, x, y)
  {
    hide GpuInk, QuadOk;
    if quads != [] {
      var init, q := quads[..|quads| - 1], quads[|quads| - 1];
      OnlyHitsShow(init, pages, mix, under, x, y);
      var hits := Hits(init, pages, x, y);
      assert (hits + [q])[..|hits|] == hits;
    }
  }

  lemma {:induction false} HitsAppend(a: seq<Quad>, b: seq<Quad>, pages: seq<Page>, x: int, y: int)
    requires QuadsOk(a, pages) && QuadsOk(b, pages)
    ensures QuadsOk(a + b, pages) && Hits(a + b, pages, x, y) == Hits(a, pages, x, y) + Hits(b, pages, x, y)
    decreases |b|
  {
    hide GpuInk, QuadOk;
    if b == [] {
      assert a + b == a;
    } else {
      assert (a + b)[..|a + b| - 1] == a + b[..|b| - 1];
      HitsAppend(a, b[..|b| - 1], pages, x, y);
    }
  }

  lemma HitsSnoc(quads: seq<Quad>, q: Quad, pages: seq<Page>, x: int, y: int)
    requires QuadsOk(quads + [q], pages) && QuadsOk(quads, pages) && QuadOk(q, pages)
    ensures var before := Hits(quads, pages, x, y);
            Hits(quads + [q], pages, x, y) == if GpuInk(q, pages[q.page], x, y) == 0 then before else before + [q]
  {
    hide GpuInk, QuadOk;
    assert (quads + [q])[..|quads|] == quads;
  }

  lemma OnPageSnoc(quads: seq<Quad>, q: Quad, page: nat)
    ensures OnPage(quads + [q], page) == if q.page == page then OnPage(quads, page) + [q] else OnPage(quads, page)
  {
    assert (quads + [q])[..|quads|] == quads;
  }

  lemma {:induction false} HitsOnPage(quads: seq<Quad>, pages: seq<Page>, page: nat, x: int, y: int)
    requires QuadsOk(quads, pages)
    ensures QuadsOk(OnPage(quads, page), pages)
    ensures Hits(OnPage(quads, page), pages, x, y) == OnPage(Hits(quads, pages, x, y), page)
  {
    hide GpuInk, QuadOk;
    OnPageOk(quads, pages, page);
    if quads != [] {
      var init, q := quads[..|quads| - 1], quads[|quads| - 1];
      HitsOnPage(init, pages, page, x, y);
      OnPageSnoc(Hits(init, pages, x, y), q, page);
      if q.page == page {
        HitsSnoc(OnPage(init, page), q, pages, x, y);
      }
    }
  }

  lemma {:induction false} HitsByPage(quads: seq<Quad>, pages: seq<Page>, n: nat, x: int, y: int)
    requires QuadsOk(quads, pages)
    ensures QuadsOk(ByPage(quads, n), pages)
    ensures Hits(ByPage(quads, n), pages, x, y) == ByPage(Hits(quads, pages, x, y), n)
  {
    hide GpuInk, QuadOk, QuadsOk, OnPage;
    ByPageOk(quads, pages, n);
    if n == 0 {
      assert ByPage(quads, n) == [];
    } else {
      hide Hits;
      HitsByPage(quads, pages, n - 1, x, y);
      HitsOnPage(quads, pages, n - 1, x, y);
      HitsAppend(ByPage(quads, n - 1), OnPage(quads, n - 1), pages, x, y);
    }
  }

  lemma {:induction false} OnPageIs(quads: seq<Quad>, page: nat, i: nat)
    requires i < |OnPage(quads, page)|
    ensures OnPage(quads, page)[i].page == page
  {
    if i < |OnPage(quads[..|quads| - 1], page)| {
      OnPageIs(quads[..|quads| - 1], page, i);
    }
  }

  lemma {:induction false} ByPageAscends(quads: seq<Quad>, n: nat)
    ensures PagesAscend(ByPage(quads, n))
    ensures forall i :: 0 <= i < |ByPage(quads, n)| ==> ByPage(quads, n)[i].page < n
  {
    if n > 0 {
      var a, b := ByPage(quads, n - 1), OnPage(quads, n - 1);
      ByPageAscends(quads, n - 1);
      forall i | 0 <= i < |b| ensures b[i].page == n - 1 {
        OnPageIs(quads, n - 1, i);
      }
      assert ByPage(quads, n) == a + b;
      hide ByPage, OnPage;
    }
  }

  /** Behind quads of earlier pages one more of a page comes last. */
  predicate NoneBehind(quads: seq<Quad>, page: nat) {
    forall i :: 0 <= i < |quads| ==> quads[i].page <= page
  }

  lemma NextPage(quads: seq<Quad>, n: nat)
    ensures ByPage(quads, 0) == []
    ensures n > 0 ==> ByPage(quads, n) == ByPage(quads, n - 1) + OnPage(quads, n - 1)
  {
    hide OnPage;
  }

  lemma {:induction false} ByPageSnoc(quads: seq<Quad>, q: Quad, n: nat)
    requires NoneBehind(quads, q.page)
    ensures ByPage(quads + [q], n) == if q.page < n then ByPage(quads, n) + [q] else ByPage(quads, n)
    decreases n
  {
    hide ByPage, OnPage, NoneBehind;
    NextPage(quads + [q], n);
    NextPage(quads, n);
    if n > 0 {
      ByPageSnoc(quads, q, n - 1);
      OnPageSnoc(quads, q, n - 1);
      var a, b := ByPage(quads, n - 1), OnPage(quads, n - 1);
      if q.page < n - 1 {
        NoneOnPage(quads, q.page, n - 1);
        Padded(a);
        Padded(a + [q]);
      } else if q.page == n - 1 {
        Regroup(a, b, [q]);
      }
    }
  }

  lemma Padded(quads: seq<Quad>)
    ensures quads + [] == quads
  {
  }

  lemma {:induction false} NoneOnPage(quads: seq<Quad>, last: nat, page: nat)
    requires NoneBehind(quads, last) && last < page
    ensures OnPage(quads, page) == []
  {
    if quads != [] {
      NoneOnPage(quads[..|quads| - 1], last, page);
    }
  }

  lemma {:induction false} AscendingStays(quads: seq<Quad>, n: nat)
    requires PagesAscend(quads) && forall i :: 0 <= i < |quads| ==> quads[i].page < n
    ensures ByPage(quads, n) == quads
  {
    if quads == [] {
      NothingByPage(n);
    } else {
      var init, q := quads[..|quads| - 1], quads[|quads| - 1];
      AscendingStays(init, n);
      assert quads == init + [q];
      ByPageSnoc(init, q, n);
      hide ByPage, OnPage;
    }
  }

  lemma {:induction false} NothingByPage(n: nat)
    ensures ByPage([], n) == []
  {
    if n > 0 {
      NothingByPage(n - 1);
    }
  }

  /** Drawing page by page keeps the order of the quads that meet at a pixel if and only
      if their pages ascend in the order of the cells. */
  lemma PageOrderIff(quads: seq<Quad>, pages: seq<Page>, x: int, y: int)
    requires QuadsOk(quads, pages)
    ensures QuadsOk(ByPage(quads, |pages|), pages)
    ensures Hits(ByPage(quads, |pages|), pages, x, y) == Hits(quads, pages, x, y)
       <==> PagesAscend(Hits(quads, pages, x, y))
  {
    var hits := Hits(quads, pages, x, y);
    HitsByPage(quads, pages, |pages|, x, y);
    ByPageAscends(hits, |pages|);
    if PagesAscend(hits) {
      AscendingStays(hits, |pages|);
    }
  }

  /** The colour of a pixel: the processor's two passes. */
  function CpuFrame(cells: seq<Cell>, raster: char -> Option<Glyph>, cellW: nat, cellH: nat, defaultBg: nat,
                    mix: Mix, base: nat, x: int, y: int): nat
    requires forall c :: raster(c).Some? ==> Sound(raster(c).value)
  {
    CpuGlyphs(cells, raster, cellW, mix, CpuFill(cells, cellW, cellH, defaultBg, base, x, y), x, y)
  }

  /** The same pixel on the other back end: all blocks, then the quads page by page. */
  function GpuFrame(blocks: seq<Block>, quads: seq<Quad>, pages: seq<Page>, mix: Mix, base: nat, x: int, y: int): nat
    requires QuadsOk(quads, pages)
  {
    ByPageOk(quads, pages, |pages|);
    GpuGlyphs(ByPage(quads, |pages|), pages, mix, GpuFill(blocks, base, x, y), x, y)
  }

  // ---- the two frames ----

  /** A colour and some ink of it. */
  datatype Dab = Dab(fg: nat, ink: nat)

  /** What some quads lay on a pixel, one after the other. */
  function Dabs(quads: seq<Quad>, pages: seq<Page>, x: int, y: int): (r: seq<Dab>)
    requires QuadsOk(quads, pages)
    ensures |r| == |quads|
  {
    if quads == [] then []
    else
      var q := quads[|quads| - 1];
      Dabs(quads[..|quads| - 1], pages, x, y) + [Dab(q.fg, GpuInk(q, pages[q.page], x, y))]
  }

  function Mixed(dabs: seq<Dab>, mix: Mix, under: nat): nat {
    if dabs == [] then under
    else
      var d := dabs[|dabs| - 1];
      mix(d.fg, Mixed(dabs[..|dabs| - 1], mix, under), d.ink)
  }

  lemma {:induction false} GlyphsAreMixed(quads: seq<Quad>, pages: seq<Page>, mix: Mix, under: nat, x: int, y: int)
    requires QuadsOk(quads, pages)
    ensures GpuGlyphs(quads, pages, mix, under, x, y) == Mixed(Dabs(quads, pages, x, y), mix, under)
  {
    hide GpuInk, QuadOk;
    if quads != [] {
      var init := quads[..|quads| - 1];
      GlyphsAreMixed(init, pages, mix, under, x, y);
      var d := Dabs(quads, pages, x, y);
      assert d[..|d| - 1] == Dabs(init, pages, x, y);
    }
  }

  /** What meets at a pixel, in the order of drawing: of the cells, and page after page. */
  function CellDabs(quads: seq<Quad>, pages: seq<Page>, x: int, y: int): seq<Dab>
    requires QuadsOk(quads, pages)
  {
    Dabs(Hits(quads, pages, x, y), pages, x, y)
  }

  function PageDabs(quads: seq<Quad>, pages: seq<Page>, x: int, y: int): seq<Dab>
    requires QuadsOk(quads, pages)
  {
    ByPageOk(Hits(quads, pages, x, y), pages, |pages|);
    Dabs(ByPage(Hits(quads, pages, x, y), |pages|), pages, x, y)
  }

  lemma InOrderOfCells(quads: seq<Quad>, pages: seq<Page>, mix: Mix, under: nat, x: int, y: int)
    requires QuadsOk(quads, pages) && InklessIsIdle(mix)
    ensures GpuGlyphs(quads, pages, mix, under, x, y) == Mixed(CellDabs(quads, pages, x, y), mix, under)
  {
    hide GpuInk, QuadOk, QuadsOk, Hits, GpuGlyphs, Mixed, Dabs;
    OnlyHitsShow(quads, pages, mix, under, x, y);
    GlyphsAreMixed(Hits(quads, pages, x, y), pages, mix, under, x, y);
  }

  lemma InOrderOfPages(quads: seq<Quad>, pages: seq<Page>, mix: Mix, under: nat, x: int, y: int)
    requires QuadsOk(quads, pages) && InklessIsIdle(mix)
    ensures QuadsOk(ByPage(quads, |pages|), pages)
    ensures GpuGlyphs(ByPage(quads, |pages|), pages, mix, under, x, y)
         == Mixed(PageDabs(quads, pages, x, y), mix, under)
  {
    hide GpuInk, QuadOk, QuadsOk, Hits, GpuGlyphs, Mixed, Dabs, ByPage;
    HitsByPage(quads, pages, |pages|, x, y);
    InOrderOfCells(ByPage(quads, |pages|), pages, mix, under, x, y);
  }

  /** A mix that reads a list of dabs: it counts up as long as they come in that order. */
  function Reader(dabs: seq<Dab>, from: nat): Mix {
    (fg, under, ink) =>
      if ink == 0 then under
      else if from <= under < from + |dabs| && dabs[under - from] == Dab(fg, ink) then under + 1
      else from + |dabs| + 1
  }

  predicate AllInked(dabs: seq<Dab>) { forall i :: 0 <= i < |dabs| ==> dabs[i].ink != 0 }

  lemma {:induction false} ReaderReads(dabs: seq<Dab>, other: seq<Dab>, from: nat)
    requires AllInked(other)
    ensures Mixed(other, Reader(dabs, from), from) == if other <= dabs then from + |other| else from + |dabs| + 1
    decreases |other|
  {
    if other != [] {
      ReaderReads(dabs, other[..|other| - 1], from);
      assert other == other[..|other| - 1] + [other[|other| - 1]];
    }
  }

  lemma ReaderIsIdle(dabs: seq<Dab>, from: nat)
    ensures InklessIsIdle(Reader(dabs, from))
  {
  }

  /** Two lists of dabs look the same under every mix if and only if they are the same. */
  lemma SameForAllIff(a: seq<Dab>, b: seq<Dab>, under: nat)
    requires AllInked(a) && AllInked(b)
    ensures (forall mix: Mix :: InklessIsIdle(mix) ==> Mixed(a, mix, under) == Mixed(b, mix, under)) <==> a == b
  {
    hide Mixed, InklessIsIdle, Reader;
    ReaderIsIdle(a, under);
    ReaderReads(a, a, under);
    ReaderReads(a, b, under);
    if a != b {
      assert Mixed(a, Reader(a, under), under) != Mixed(b, Reader(a, under), under);
    }
  }

  lemma {:induction false} HitsAreInked(quads: seq<Quad>, pages: seq<Page>, x: int, y: int)
    requires QuadsOk(quads, pages)
    ensures forall i :: 0 <= i < |Hits(quads, pages, x, y)| ==>
              var q := Hits(quads, pages, x, y)[i]; QuadOk(q, pages) && GpuInk(q, pages[q.page], x, y) != 0
  {
    hide GpuInk, QuadOk;
    if quads != [] { HitsAreInked(quads[..|quads| - 1], pages, x, y); }
  }

  lemma {:induction false} DabsAre(quads: seq<Quad>, pages: seq<Page>, x: int, y: int, i: nat)
    requires QuadsOk(quads, pages) && i < |quads|
    ensures var q := quads[i];
            QuadOk(q, pages) && Dabs(quads, pages, x, y)[i] == Dab(q.fg, GpuInk(q, pages[q.page], x, y))
  {
    hide GpuInk, QuadOk;
    if i < |quads| - 1 { DabsAre(quads[..|quads| - 1], pages, x, y, i); }
  }

  lemma InkedDabs(quads: seq<Quad>, pages: seq<Page>, x: int, y: int)
    requires QuadsOk(quads, pages)
    ensures AllInked(Dabs(Hits(quads, pages, x, y), pages, x, y))
  {
    hide GpuInk, QuadOk, Hits, Dabs;
    HitsAreInked(quads, pages, x, y);
    var hits := Hits(quads, pages, x, y);
    forall i | 0 <= i < |hits| ensures Dabs(hits, pages, x, y)[i].ink != 0 {
      DabsAre(hits, pages, x, y, i);
    }
  }

  lemma MeetingDabs(quads: seq<Quad>, pages: seq<Page>, x: int, y: int)
    requires QuadsOk(quads, pages)
    ensures AllInked(CellDabs(quads, pages, x, y)) && AllInked(PageDabs(quads, pages, x, y))
  {
    hide GpuInk, QuadOk, QuadsOk, Hits, Dabs, ByPage, AllInked;
    InkedDabs(quads, pages, x, y);
    HitsByPage(quads, pages, |pages|, x, y);
    InkedDabs(ByPage(quads, |pages|), pages, x, y);
  }

  /** The frame of each back end at a pixel, as what is mixed there. */
  lemma FramesAreMixed(a: Atlas, cells: seq<Cell>, raster: char -> Option<Glyph>, slotOf: Lookup,
                       cellW: nat, cellH: nat, defaultBg: nat, mix: Mix, base: nat, x: int, y: int)
    requires Loaded(a, cells, raster, slotOf) && InklessIsIdle(mix)
    requires forall c :: raster(c).Some? ==> Sound(raster(c).value)
    ensures var quads, blocks := Quads(cells, slotOf, cellW), Blocks(cells, cellW, cellH, defaultBg);
            var under := CpuFill(cells, cellW, cellH, defaultBg, base, x, y);
            && QuadsOk(quads, a.pages)
            && GpuFrame(blocks, quads, a.pages, mix, base, x, y) == Mixed(PageDabs(quads, a.pages, x, y), mix, under)
            && CpuFrame(cells, raster, cellW, cellH, defaultBg, mix, base, x, y)
               == Mixed(CellDabs(quads, a.pages, x, y), mix, under)
  {
    var quads := Quads(cells, slotOf, cellW);
    var under := CpuFill(cells, cellW, cellH, defaultBg, base, x, y);
    hide InklessIsIdle, QuadsOk, CellDabs, PageDabs, CpuGlyphs, CpuFill, Mixed;
    hide GpuFill, GpuGlyphs, Quads, Blocks, Loaded, ByPage;
    FillIsFill(cells, cellW, cellH, defaultBg, base, x, y);
    GlyphsAreGlyphs(a, cells, raster, slotOf, cellW, mix, under, x, y);
    InOrderOfCells(quads, a.pages, mix, under, x, y);
    InOrderOfPages(quads, a.pages, mix, under, x, y);
  }

  /** The law of the two back ends: with every character loaded, the frame that is put
      together from the blocks and then, page by page, the quads has at a pixel the colour
      that the processor's two passes give it, however colours are mixed, if and only if
      what meets there is the same in the order of the pages as in that of the cells. */
  lemma FramesAgreeIff(a: Atlas, cells: seq<Cell>, raster: char -> Option<Glyph>, slotOf: Lookup,
                       cellW: nat, cellH: nat, defaultBg: nat, base: nat, x: int, y: int)
    requires Loaded(a, cells, raster, slotOf)
    requires forall c :: raster(c).Some? ==> Sound(raster(c).value)
    ensures var quads, blocks := Quads(cells, slotOf, cellW), Blocks(cells, cellW, cellH, defaultBg);
            && QuadsOk(quads, a.pages)
            && ((forall mix: Mix :: InklessIsIdle(mix) ==>
                   GpuFrame(blocks, quads, a.pages, mix, base, x, y)
                   == CpuFrame(cells, raster, cellW, cellH, defaultBg, mix, base, x, y))
                <==> PageDabs(quads, a.pages, x, y) == CellDabs(quads, a.pages, x, y))
  {
    var quads, blocks := Quads(cells, slotOf, cellW), Blocks(cells, cellW, cellH, defaultBg);
    var under := CpuFill(cells, cellW, cellH, defaultBg, base, x, y);
    hide InklessIsIdle, QuadsOk, CellDabs, PageDabs, CpuFrame, GpuFrame, CpuFill, Mixed, Quads, Blocks, Loaded;
    hide AllInked;
    ReaderIsIdle([], 0);
    FramesAreMixed(a, cells, raster, slotOf, cellW, cellH, defaultBg, Reader([], 0), base, x, y);
    forall mix: Mix | InklessIsIdle(mix)
      ensures GpuFrame(blocks, quads, a.pages, mix, base, x, y) == Mixed(PageDabs(quads, a.pages, x, y), mix, under)
      ensures CpuFrame(cells, raster, cellW, cellH, defaultBg, mix, base, x, y)
           == Mixed(CellDabs(quads, a.pages, x, y), mix, under)
    {
      FramesAreMixed(a, cells, raster, slotOf, cellW, cellH, defaultBg, mix, base, x, y);
    }
    MeetingDabs(quads, a.pages, x, y);
    SameForAllIff(PageDabs(quads, a.pages, x, y), CellDabs(quads, a.pages, x, y), under);
  }

  /** So wherever the quads that meet lie on ascending pages - in particular with one page. */
  lemma FrameIsCpuFrame(a: Atlas, cells: seq<Cell>, raster: char -> Option<Glyph>, slotOf: Lookup,
                        cellW: nat, cellH: nat, defaultBg: nat, mix: Mix, base: nat, x: int, y: int)
    requires Loaded(a, cells, raster, slotOf) && InklessIsIdle(mix)
    requires forall c :: raster(c).Some? ==> Sound(raster(c).value)
    ensures var quads, blocks := Quads(cells, slotOf, cellW), Blocks(cells, cellW, cellH, defaultBg);
            && QuadsOk(quads, a.pages)
            && (PagesAscend(Hits(quads, a.pages, x, y)) ==>
                  GpuFrame(blocks, quads, a.pages, mix, base, x, y)
                  == CpuFrame(cells, raster, cellW, cellH, defaultBg, mix, base, x, y))
  {
    var quads := Quads(cells, slotOf, cellW);
    FramesAreMixed(a, cells, raster, slotOf, cellW, cellH, defaultBg, mix, base, x, y);
    hide InklessIsIdle, CpuFrame, GpuFrame, CpuFill, Mixed, Quads, Blocks, Loaded, Dabs, ByPage, Hits, GpuInk, QuadOk;
    PageOrderIff(quads, a.pages, x, y);
    HitsByPage(quads, a.pages, |a.pages|, x, y);
  }

  // ---- looking up and loading ----

  /** `GLYPH_SIZE_TERM`. */
  const TERM_SIZE: nat := 0

  /** The look-up of the terminal: the glyph of the first font, or of the second; a miss is
      named by the first. */
  function TermSlot(slots: map<Key, Slot>, c: char): Found {
    var k0, k1 := Key(0, c, TERM_SIZE), Key(1, c, TERM_SIZE);
    if k0 in slots then Found(k0, Some(slots[k0]))
    else if k1 in slots then Found(k1, Some(slots[k1]))
    else Found(k0, None)
  }

  function InAtlas(slots: map<Key, Slot>): Lookup { c => TermSlot(slots, c) }

  /** What `rasterize_for_atlas` gives for a character: the font that has it, and a glyph. */
  datatype Drawing = Drawing(font: nat, glyph: Glyph)

  type Raster = char -> Option<Drawing>

  function Bitmaps(draw: Raster): char -> Option<Glyph> {
    c => if draw(c).None? then None else Some(draw(c).value.glyph)
  }

  ghost predicate Draws(draw: Raster, w: nat, h: nat) {
    forall c :: draw(c).Some? ==> draw(c).value.font <= 1 && GlyphFits(draw(c).value.glyph, w, h)
  }

  /** The missed keys are loaded, each under the font that has the character. */
  function Load(a: Atlas, misses: seq<Key>, draw: Raster, w: nat, h: nat): (b: Atlas)
    requires AtlasOk(a, w, h) && Draws(draw, w, h)
    ensures AtlasOk(b, w, h)
  {
    if misses == [] then a
    else
      var b, c := Load(a, misses[..|misses| - 1], draw, w, h), misses[|misses| - 1].c;
      if draw(c).None? then b
      else
        var k, g := Key(draw(c).value.font, c, TERM_SIZE), draw(c).value.glyph;
        InsertKeeps(b, k, g, w, h);
        Inserted(b, k, g, w, h)
  }

  ghost predicate Agrees(a: Atlas, draw: Raster, k: Key) {
    k in a.slots && k.font <= 1 && k.size == TERM_SIZE ==>
      k in a.given && draw(k.c) == Some(Drawing(k.font, a.given[k]))
  }

  /** The terminal's glyphs of the atlas are what the rasterizer gives. */
  ghost predicate Faithful(a: Atlas, draw: Raster) { forall k: Key :: Agrees(a, draw, k) }

  lemma {:induction false} LoadKeeps(a: Atlas, misses: seq<Key>, draw: Raster, w: nat, h: nat)
    requires AtlasOk(a, w, h) && Draws(draw, w, h) && Faithful(a, draw)
    ensures var b := Load(a, misses, draw, w, h); Faithful(b, draw) && a.slots.Keys <= b.slots.Keys
  {
    hide AtlasOk, Draws, SpotFor, Written, GlyphFits;
    if misses != [] {
      var init, c := misses[..|misses| - 1], misses[|misses| - 1].c;
      LoadKeeps(a, init, draw, w, h);
      var b := Load(a, init, draw, w, h);
      if draw(c).Some? {
        var l := Load(a, misses, draw, w, h);
        forall k: Key ensures Agrees(l, draw, k) {
          assert Agrees(b, draw, k);
        }
      }
    }
  }

  lemma {:induction false} LoadHas(a: Atlas, misses: seq<Key>, draw: Raster, w: nat, h: nat, i: nat)
    requires AtlasOk(a, w, h) && Draws(draw, w, h)
    requires i < |misses| && draw(misses[i].c).Some?
    ensures Key(draw(misses[i].c).value.font, misses[i].c, TERM_SIZE) in Load(a, misses, draw, w, h).slots
  {
    hide AtlasOk, Draws, SpotFor, Written, GlyphFits;
    if i < |misses| - 1 {
      LoadHas(a, misses[..|misses| - 1], draw, w, h, i);
    }
  }

  lemma {:induction false} MissIsNamed(cells: seq<Cell>, slotOf: Lookup, i: nat) returns (m: nat)
    requires i < |cells| && Inked(cells[i]) && slotOf(cells[i].c).slot.None?
    ensures m < |Misses(cells, slotOf)| && Misses(cells, slotOf)[m] == slotOf(cells[i].c).key
  {
    if i < |cells| - 1 {
      m := MissIsNamed(cells[..|cells| - 1], slotOf, i);
    } else {
      m := |Misses(cells[..i], slotOf)|;
    }
  }

  lemma {:induction false} MissIsOfCell(cells: seq<Cell>, slotOf: Lookup, m: nat) returns (i: nat)
    requires m < |Misses(cells, slotOf)|
    ensures i < |cells| && Inked(cells[i]) && slotOf(cells[i].c).slot.None?
    ensures Misses(cells, slotOf)[m] == slotOf(cells[i].c).key
  {
    var init := cells[..|cells| - 1];
    if m < |Misses(init, slotOf)| {
      i := MissIsOfCell(init, slotOf, m);
    } else {
      i := |cells| - 1;
    }
  }

  /** A character is found with the glyph that the rasterizer gives, or has none. */
  ghost predicate AtHand(b: Atlas, draw: Raster, c: char) {
    var f := TermSlot(b.slots, c);
    if draw(c).None? then f == Found(Key(0, c, TERM_SIZE), None)
    else SlotOk(b, f.key) && f.slot == Some(b.slots[f.key]) && b.given[f.key] == draw(c).value.glyph
  }

  lemma CharacterIsLoaded(a: Atlas, cells: seq<Cell>, draw: Raster, w: nat, h: nat, i: nat)
    requires AtlasOk(a, w, h) && Draws(draw, w, h) && Faithful(a, draw)
    requires i < |cells| && Inked(cells[i])
    ensures AtHand(Load(a, Misses(cells, InAtlas(a.slots)), draw, w, h), draw, cells[i].c)
  {
    hide SlotOk, Draws, Inked, Load, Misses;
    var misses, c := Misses(cells, InAtlas(a.slots)), cells[i].c;
    var b := Load(a, misses, draw, w, h);
    LoadKeeps(a, misses, draw, w, h);
    var k0, k1 := Key(0, c, TERM_SIZE), Key(1, c, TERM_SIZE);
    assert Agrees(a, draw, k0) && Agrees(a, draw, k1) && Agrees(b, draw, k0) && Agrees(b, draw, k1);
    if draw(c).Some? && TermSlot(a.slots, c).slot.None? {
      var m := MissIsNamed(cells, InAtlas(a.slots), i);
      LoadHas(a, misses, draw, w, h, m);
    }
    assert k0 in b.slots ==> SlotOk(b, k0);
    assert k1 in b.slots ==> SlotOk(b, k1);
    FontIsKnown(draw, c, w, h);
  }

  lemma FontIsKnown(draw: Raster, c: char, w: nat, h: nat)
    requires Draws(draw, w, h)
    ensures draw(c).Some? ==> draw(c).value.font <= 1
  {
  }

  /** The missed keys are loaded and the instances generated anew: every character that
      has a glyph is found then, under its own font, and the misses that remain are the
      characters that have none. */
  lemma LoadedThenNoMiss(a: Atlas, cells: seq<Cell>, draw: Raster, w: nat, h: nat)
    requires AtlasOk(a, w, h) && Draws(draw, w, h) && Faithful(a, draw)
    ensures var b := Load(a, Misses(cells, InAtlas(a.slots)), draw, w, h);
            && Loaded(b, cells, Bitmaps(draw), InAtlas(b.slots))
            && forall i :: 0 <= i < |Misses(cells, InAtlas(b.slots))| ==>
                 draw(Misses(cells, InAtlas(b.slots))[i].c).None?
  {
    hide SlotOk, AtlasOk, Draws, Faithful, Inked, Load, Misses, TermSlot;
    var b := Load(a, Misses(cells, InAtlas(a.slots)), draw, w, h);
    forall i | 0 <= i < |cells| && Inked(cells[i])
      ensures AtHand(b, draw, cells[i].c)
    {
      CharacterIsLoaded(a, cells, draw, w, h, i);
    }
    forall m | 0 <= m < |Misses(cells, InAtlas(b.slots))|
      ensures draw(Misses(cells, InAtlas(b.slots))[m].c).None?
    {
      var i := MissIsOfCell(cells, InAtlas(b.slots), m);
    }
  }

  // ---- two frames that differ ----

  function Dot(offX: int): Glyph { Glyph(1, 1, [255], offX, 0) }

  function Dots(c: char): Option<Glyph> {
    if c == 'a' then Some(Dot(0)) else if c == 'b' then Some(Dot(-1)) else None
  }

  function Overwrite(): Mix { (fg, under, ink) => if ink == 0 then under else fg }

  const KEY_A: Key := Key(0, 'a', TERM_SIZE)
  const KEY_B: Key := Key(0, 'b', TERM_SIZE)

  /** Loaded into pages of one pixel: first `b`, which leans to the left, then `a`. */
  const TWO_PAGES: seq<Op> := [Insert(KEY_B, Dot(-1)), Insert(KEY_A, Dot(0))]

  const AB: seq<Cell> := [Cell(0, 0, 1, 0, 'a', false, false), Cell(1, 0, 2, 0, 'b', false, false)]

  lemma TwoPages()
    ensures Allowed(TWO_PAGES, 1, 1)
    ensures var a := Run(TWO_PAGES, 1, 1);
            && |a.pages| == 2 && a.slots == map[KEY_B := Slot(0, 0, 0, 1, 1, -1, 0), KEY_A := Slot(1, 0, 0, 1, 1, 0, 0)]
            && a.given == map[KEY_B := Dot(-1), KEY_A := Dot(0)]
            && SlotOk(a, KEY_A) && SlotOk(a, KEY_B)
  {
    hide AtlasOk, FirstSince, Rows, Filled;
    var one := [TWO_PAGES[0]];
    assert TWO_PAGES[..1] == one && one[..0] == [];
    FirstOfNone();
    assert Allowed([], 1, 1);
    assert Allowed(one, 1, 1);
    var a := Run(TWO_PAGES, 1, 1);
    assert Run([], 1, 1) == Fresh(1, 1);
    var b := Run(one, 1, 1);
    assert b == Inserted(Fresh(1, 1), KEY_B, Dot(-1), 1, 1);
    assert a == Inserted(b, KEY_A, Dot(0), 1, 1);
    SlotsAreOk(a, 1, 1);
  }

  lemma FirstOfNone()
    ensures FirstSince([], KEY_B) == None && FirstSince([TWO_PAGES[0]], KEY_A) == None
  {
    assert [TWO_PAGES[0]][..0] == [];
  }

  lemma SlotsAreOk(a: Atlas, w: nat, h: nat)
    requires AtlasOk(a, w, h)
    ensures forall k: Key :: k in a.slots ==> SlotOk(a, k)
  {
  }

  const QUAD_A: Quad := Quad(0, 0, 1, 1, 0, 0, 1, 1)
  const QUAD_B: Quad := Quad(0, 0, 1, 1, 0, 0, 2, 0)

  lemma QuadsOfAb(slots: map<Key, Slot>)
    requires slots == map[KEY_B := Slot(0, 0, 0, 1, 1, -1, 0), KEY_A := Slot(1, 0, 0, 1, 1, 0, 0)]
    ensures Quads(AB, InAtlas(slots), 1) == [QUAD_A, QUAD_B]
    ensures TermSlot(slots, 'a').key == KEY_A && TermSlot(slots, 'b').key == KEY_B
    ensures QuadOf(AB[0], slots[KEY_A], 1) == Some(QUAD_A) && QuadOf(AB[1], slots[KEY_B], 1) == Some(QUAD_B)
  {
    var one := [AB[0]];
    assert AB[..1] == one && one[..0] == [];
    assert Quads(one, InAtlas(slots), 1) == [QUAD_A];
  }

  lemma InkOfDot(cell: Cell, g: Glyph, x: int)
    requires Sound(g) && g.w == 1 && g.h == 1 && g.offY == 0 && x == cell.px + g.offX < ClipRight(cell, 1)
    ensures |g.bitmap| == 1 && CpuInk(cell, g, 1, x, cell.py) == g.bitmap[0]
  {
    hide ClipRight;
    FirstPixel();
    hide Index;
  }

  lemma FirstPixel()
    ensures Index(1, 0, 0) == 0
  {
  }

  lemma InkOfAb()
    ensures CpuInk(AB[0], Dot(0), 1, 0, 0) == 255 && CpuInk(AB[1], Dot(-1), 1, 0, 0) == 255
  {
    hide CpuInk;
    InkOfDot(AB[0], Dot(0), 0);
    InkOfDot(AB[1], Dot(-1), 0);
  }

  lemma CpuSide()
    ensures CpuFrame(AB, Dots, 1, 1, 0, Overwrite(), 0, 0, 0) == 2
  {
    hide CpuInk, CpuFill;
    InkOfAb();
    var one := [AB[0]];
    assert AB[..1] == one && one[..0] == [];
  }

  lemma PagesOfAb()
    ensures ByPage([QUAD_A, QUAD_B], 2) == [QUAD_B, QUAD_A]
  {
    var quads, one := [QUAD_A, QUAD_B], [QUAD_A];
    assert [] + one == one && one + [QUAD_B] == quads;
    OnPageSnoc([], QUAD_A, 0);
    OnPageSnoc([], QUAD_A, 1);
    OnPageSnoc(one, QUAD_B, 0);
    OnPageSnoc(one, QUAD_B, 1);
    assert OnPage([], 0) == [] && OnPage([], 1) == [];
    hide OnPage;
    assert ByPage(quads, 1) == [QUAD_B];
  }

  lemma GpuSide(blocks: seq<Block>, pages: seq<Page>)
    requires QuadOk(QUAD_A, pages) && QuadOk(QUAD_B, pages) && |pages| == 2
    requires GpuInk(QUAD_A, pages[1], 0, 0) == 255
    ensures QuadsOk([QUAD_A, QUAD_B], pages)
    ensures GpuFrame(blocks, [QUAD_A, QUAD_B], pages, Overwrite(), 0, 0, 0) == 1
  {
    hide GpuInk, QuadOk, GpuFill, ByPage;
    PagesOfAb();
  }

  /** The two back ends can differ: `a`, drawn first by the processor, is laid over the part
      of `b` that leans into its cell, because it lies on a later page. */
  lemma FramesDiffer()
    ensures Allowed(TWO_PAGES, 1, 1)
    ensures var a := Run(TWO_PAGES, 1, 1);
            var quads := Quads(AB, InAtlas(a.slots), 1);
            && Loaded(a, AB, Dots, InAtlas(a.slots)) && InklessIsIdle(Overwrite()) && QuadsOk(quads, a.pages)
            && CpuFrame(AB, Dots, 1, 1, 0, Overwrite(), 0, 0, 0) == 2
            && GpuFrame(Blocks(AB, 1, 1, 0), quads, a.pages, Overwrite(), 0, 0, 0) == 1
  {
    TwoPages();
    hide Run, SlotOk, AtlasOk, GpuFrame, CpuFrame, QuadOf, Quads, GpuInk, CpuInk, QuadOk, QuadsOk, FirstSince, Allowed;
    var a := Run(TWO_PAGES, 1, 1);
    QuadsOfAb(a.slots);
    InkOfAb();
    CpuSide();
    NextQuad(a, AB[0], Dot(0), KEY_A, 1, 0, 0);
    NextQuad(a, AB[1], Dot(-1), KEY_B, 1, 0, 0);
    GpuSide(Blocks(AB, 1, 1, 0), a.pages);
    hide Blocks;
  }
}
