/** The glyph atlas (`src/glyph_atlas.rs`): bitmaps packed on shelves into shared pages,
    with an index by key. */
module GlyphAtlas {
  import opened Text

  type byte = b: int | 0 <= b < 256

  const U16_MAX: nat := 0xFFFF

  datatype Key = Key(font: nat, c: char, size: nat)

  datatype Slot = Slot(page: nat, u0: nat, v0: nat, w: nat, h: nat, offX: int, offY: int)

  /** A rasterised glyph, row by row. */
  datatype Glyph = Glyph(w: nat, h: nat, bitmap: seq<byte>, offX: int, offY: int)

  datatype Page = Page(w: nat, h: nat, coverage: seq<byte>, shelfY: nat, shelfH: nat, cursorX: nat)

  // ---- pixels in a flat buffer ----

  /** Where a pixel lies in a buffer of rows of width `w`. */
  function Index(w: nat, x: nat, y: nat): nat { y * w + x }

  lemma {:induction false} RowsBelow(w: nat, y: nat, row: nat)
    requires y < row
    ensures y * w + w <= row * w
    decreases row
  {
    assert row * w == (row - 1) * w + w;
    if y < row - 1 {
      RowsBelow(w, y, row - 1);
    }
  }

  lemma IndexInside(w: nat, h: nat, x: nat, y: nat, n: nat)
    requires y < h && x + n <= w
    ensures Index(w, x, y) + n <= w * h
  {
    RowsBelow(w, y, h);
  }

  /** A pixel lies in a stretch of a row only if it is of that row. */
  lemma IndexInRow(w: nat, x: nat, y: nat, x0: nat, n: nat, row: nat)
    requires x < w && x0 + n <= w
    ensures Index(w, x0, row) <= Index(w, x, y) < Index(w, x0, row) + n <==> y == row && x0 <= x < x0 + n
    ensures y == row ==> Index(w, x, y) - Index(w, x0, row) == x - x0
  {
    if y < row {
      RowsBelow(w, y, row);
    } else if row < y {
      RowsBelow(w, row, y);
    }
  }

  function Filled(n: nat): (r: seq<byte>)
    ensures |r| == n && forall i :: 0 <= i < n ==> r[i] == 0
  {
    if n == 0 then [] else Filled(n - 1) + [0]
  }

  /** A bitmap of its size, at least one pixel. */
  predicate Sound(g: Glyph) { 1 <= g.w && 1 <= g.h && |g.bitmap| == g.w * g.h }

  function RowOf(g: Glyph, j: nat): (r: seq<byte>)
    requires Sound(g) && j < g.h
    ensures |r| == g.w
  {
    IndexInside(g.w, g.h, 0, j, g.w);
    g.bitmap[Index(g.w, 0, j)..Index(g.w, 0, j) + g.w]
  }

  lemma RowOfAt(g: Glyph, i: nat, j: nat)
    requires Sound(g) && i < g.w && j < g.h
    ensures Index(g.w, i, j) < |g.bitmap| && RowOf(g, j)[i] == g.bitmap[Index(g.w, i, j)]
  {
    IndexInside(g.w, g.h, 0, j, g.w);
    assert Index(g.w, i, j) == Index(g.w, 0, j) + i;
  }

  /** A row of pixels laid over a buffer. */
  function Overlaid(cov: seq<byte>, at: nat, row: seq<byte>): (r: seq<byte>)
    requires at + |row| <= |cov|
    ensures |r| == |cov|
  {
    cov[..at] + row + cov[at + |row|..]
  }

  lemma OverlaidAt(cov: seq<byte>, at: nat, row: seq<byte>, i: nat)
    requires at + |row| <= |cov| && i < |cov|
    ensures Overlaid(cov, at, row)[i] == if at <= i < at + |row| then row[i - at] else cov[i]
  {
  }

  /** A buffer after the first `k` rows of a glyph were copied to `(x, y)`. */
  function Rows(cov: seq<byte>, w: nat, h: nat, x: nat, y: nat, g: Glyph, k: nat): (r: seq<byte>)
    requires Sound(g) && k <= g.h && |cov| == w * h && x + g.w <= w && y + g.h <= h
    ensures |r| == |cov|
    decreases k
  {
    if k == 0 then cov
    else
      IndexInside(w, h, x, y + k - 1, g.w);
      Overlaid(Rows(cov, w, h, x, y, g, k - 1), Index(w, x, y + k - 1), RowOf(g, k - 1))
  }

  /** The copied rows show the glyph; every other pixel is as it was. */
  lemma {:induction false} RowsAt(cov: seq<byte>, w: nat, h: nat, x: nat, y: nat, g: Glyph, k: nat, px: nat, py: nat)
    requires Sound(g) && k <= g.h && |cov| == w * h && x + g.w <= w && y + g.h <= h && px < w && py < h
    ensures Index(w, px, py) < |cov|
    ensures y <= py < y + k && x <= px < x + g.w ==> Index(g.w, px - x, py - y) < |g.bitmap|
    ensures Rows(cov, w, h, x, y, g, k)[Index(w, px, py)]
         == if y <= py < y + k && x <= px < x + g.w then g.bitmap[Index(g.w, px - x, py - y)] else cov[Index(w, px, py)]
    decreases k
  {
    hide Overlaid, RowOf, Index;
    IndexInside(w, h, px, py, 1);
    if k > 0 {
      RowsAt(cov, w, h, x, y, g, k - 1, px, py);
      var row := y + k - 1;
      IndexInside(w, h, x, row, g.w);
      IndexInRow(w, px, py, x, g.w, row);
      OverlaidAt(Rows(cov, w, h, x, y, g, k - 1), Index(w, x, row), RowOf(g, k - 1), Index(w, px, py));
      if py == row && x <= px < x + g.w {
        RowOfAt(g, px - x, k - 1);
      }
    }
  }

  // ---- pages ----

  predicate PageOk(p: Page, w: nat, h: nat) {
    && p.w == w >= 1 && p.h == h >= 1
    && |p.coverage| == w * h
    && p.cursorX <= w
    && p.shelfY + p.shelfH <= h
  }

  function BlankPage(w: nat, h: nat): (p: Page)
    requires w >= 1 && h >= 1
    ensures PageOk(p, w, h)
  {
    Page(w, h, Filled(w * h), 0, 0, 0)
  }

  predicate GlyphFits(g: Glyph, w: nat, h: nat) { Sound(g) && g.w <= w && g.h <= h }

  /** Where a glyph goes: a page, a corner, and the height of the shelf so far. */
  datatype Spot = Spot(page: nat, x: nat, y: nat, shelfH: nat)

  /** On the shelf, on the next shelf, or on a new page. */
  function SpotFor(pages: seq<Page>, g: Glyph): (s: Spot)
    requires pages != []
    ensures s.page == |pages| - 1 || s.page == |pages|
  {
    var p := pages[|pages| - 1];
    var full := p.cursorX + g.w > p.w;
    var x, y := if full then 0 else p.cursorX, if full then p.shelfY + p.shelfH else p.shelfY;
    var sh := if full then 0 else p.shelfH;
    if y + g.h > p.h then Spot(|pages|, 0, 0, 0) else Spot(|pages| - 1, x, y, sh)
  }

  function Max(a: nat, b: nat): nat { if a < b then b else a }

  /** A page after a glyph was written to a spot on it. */
  function Written(p: Page, s: Spot, g: Glyph): Page
    requires Sound(g) && |p.coverage| == p.w * p.h && s.x + g.w <= p.w && s.y + g.h <= p.h
  {
    p.(coverage := Rows(p.coverage, p.w, p.h, s.x, s.y, g, g.h),
       cursorX := s.x + g.w, shelfY := s.y, shelfH := Max(s.shelfH, g.h))
  }

  /** The pixels of a slot are the glyph's bitmap. */
  ghost predicate Shows(p: Page, s: Slot, g: Glyph) {
    && Sound(g) && s.w == g.w && s.h == g.h
    && s.u0 + s.w <= p.w && s.v0 + s.h <= p.h && |p.coverage| == p.w * p.h
    && forall x: nat, y: nat :: x < s.w && y < s.h ==> PixelShown(p, s, g, x, y)
  }

  ghost predicate PixelShown(p: Page, s: Slot, g: Glyph, x: nat, y: nat) {
    && Index(p.w, s.u0 + x, s.v0 + y) < |p.coverage|
    && Index(g.w, x, y) < |g.bitmap|
    && p.coverage[Index(p.w, s.u0 + x, s.v0 + y)] == g.bitmap[Index(g.w, x, y)]
  }

  /** Two slots have no pixel in common. */
  predicate Apart(s: Slot, t: Slot) {
    s.page != t.page || s.u0 + s.w <= t.u0 || t.u0 + t.w <= s.u0 || s.v0 + s.h <= t.v0 || t.v0 + t.h <= s.v0
  }

  /** A slot lies above the shelf, or on it and left of the cursor. */
  predicate Behind(p: Page, s: Slot) {
    s.v0 + s.h <= p.shelfY || (s.u0 + s.w <= p.cursorX && s.v0 + s.h <= p.shelfY + p.shelfH)
  }

  function SlotAt(s: Spot, g: Glyph): Slot { Slot(s.page, s.x, s.y, g.w, g.h, g.offX, g.offY) }

  lemma SpotFits(pages: seq<Page>, g: Glyph, w: nat, h: nat)
    requires pages != [] && PageOk(pages[|pages| - 1], w, h) && GlyphFits(g, w, h)
    ensures var s := SpotFor(pages, g); s.x + g.w <= w && s.y + g.h <= h
  {
  }

  lemma WrittenShows(p: Page, s: Spot, g: Glyph, w: nat, h: nat)
    requires PageOk(p, w, h) && GlyphFits(g, w, h) && s.x + g.w <= w && s.y + g.h <= h
    ensures Shows(Written(p, s, g), SlotAt(s, g), g)
  {
    hide Rows, Index;
    var q, t := Written(p, s, g), SlotAt(s, g);
    forall x: nat, y: nat | x < t.w && y < t.h ensures PixelShown(q, t, g, x, y) {
      RowsAt(p.coverage, w, h, s.x, s.y, g, g.h, s.x + x, s.y + y);
    }
  }

  lemma WrittenKeeps(p: Page, s: Spot, g: Glyph, w: nat, h: nat, was: Slot, shown: Glyph)
    requires PageOk(p, w, h) && GlyphFits(g, w, h) && s.x + g.w <= w && s.y + g.h <= h
    requires Shows(p, was, shown) && was.page == s.page && Apart(was, SlotAt(s, g))
    ensures Shows(Written(p, s, g), was, shown)
  {
    hide Rows, Index;
    var q := Written(p, s, g);
    forall x: nat, y: nat | x < was.w && y < was.h ensures PixelShown(q, was, shown, x, y) {
      assert PixelShown(p, was, shown, x, y);
      RowsAt(p.coverage, w, h, s.x, s.y, g, g.h, was.u0 + x, was.v0 + y);
    }
  }

  lemma SpotIsFree(pages: seq<Page>, g: Glyph, w: nat, h: nat, t: Slot)
    requires pages != [] && PageOk(pages[|pages| - 1], w, h) && GlyphFits(g, w, h)
    requires t.page < |pages| && (t.page == |pages| - 1 ==> Behind(pages[t.page], t))
    ensures Apart(t, SlotAt(SpotFor(pages, g), g))
  {
  }

  /** A new page is opened only when the glyph fits nowhere right of the cursor on the
      shelf, and nowhere below it. */
  lemma NewPageOnlyWhenFull(pages: seq<Page>, g: Glyph, w: nat, h: nat, x: nat, y: nat)
    requires pages != [] && PageOk(pages[|pages| - 1], w, h) && GlyphFits(g, w, h)
    requires x + g.w <= w && y + g.h <= h
    requires var p := pages[|pages| - 1]; (y == p.shelfY && x >= p.cursorX) || y >= p.shelfY + p.shelfH
    ensures SpotFor(pages, g).page == |pages| - 1
  {
  }

  // ---- the atlas ----

  /** The pages and the index; `given` remembers each key's glyph. */
  datatype Atlas = Atlas(pages: seq<Page>, slots: map<Key, Slot>, given: map<Key, Glyph>, revision: nat)

  ghost predicate SlotOk(a: Atlas, k: Key) {
    k in a.slots && k in a.given &&
    var s := a.slots[k];
    && s.page < |a.pages|
    && Shows(a.pages[s.page], s, a.given[k])
    && (s.page == |a.pages| - 1 ==> Behind(a.pages[s.page], s))
    && s.offX == a.given[k].offX && s.offY == a.given[k].offY
  }

  predicate SlotsApart(a: Atlas, k: Key, l: Key) {
    k in a.slots && l in a.slots && k != l ==> Apart(a.slots[k], a.slots[l])
  }

  /** Every slot lies inside its page and shows its glyph; no two slots overlap. */
  ghost predicate AtlasOk(a: Atlas, w: nat, h: nat) {
    && a.pages != []
    && (forall i :: 0 <= i < |a.pages| ==> PageOk(a.pages[i], w, h))
    && a.slots.Keys == a.given.Keys
    && (forall k: Key {:trigger SlotOk(a, k)} :: k in a.slots ==> SlotOk(a, k))
    && (forall k: Key, l: Key {:trigger SlotsApart(a, k, l)} :: SlotsApart(a, k, l))
  }

  function Inserted(a: Atlas, key: Key, g: Glyph, w: nat, h: nat): Atlas
    requires AtlasOk(a, w, h) && (key !in a.slots ==> GlyphFits(g, w, h))
  {
    if key in a.slots then a
    else
      var s := SpotFor(a.pages, g);
      var p := if s.page < |a.pages| then a.pages[s.page] else BlankPage(w, h);
      SpotFits(a.pages, g, w, h);
      Atlas(a.pages[..s.page] + [Written(p, s, g)], a.slots[key := SlotAt(s, g)], a.given[key := g], a.revision + 1)
  }

  function Cleared(a: Atlas, w: nat, h: nat): Atlas
    requires w >= 1 && h >= 1
  {
    Atlas([BlankPage(w, h)], map[], map[], a.revision + 1)
  }

  function Fresh(w: nat, h: nat): Atlas
    requires w >= 1 && h >= 1
  {
    Atlas([BlankPage(w, h)], map[], map[], 0)
  }

  lemma OldSlotOk(a: Atlas, key: Key, g: Glyph, w: nat, h: nat, k: Key)
    requires AtlasOk(a, w, h) && key !in a.slots && GlyphFits(g, w, h) && k in a.slots
    ensures SlotOk(Inserted(a, key, g, w, h), k) && Apart(a.slots[k], SlotAt(SpotFor(a.pages, g), g))
  {
    hide Shows, Apart, SpotFor, Written;
    assert SlotOk(a, k);
    var s, t := SpotFor(a.pages, g), a.slots[k];
    SpotFits(a.pages, g, w, h);
    SpotIsFree(a.pages, g, w, h, t);
    if t.page == s.page {
      WrittenKeeps(a.pages[t.page], s, g, w, h, t, a.given[k]);
      StillBehind(a.pages, g, w, h, t);
    }
  }

  lemma StillBehind(pages: seq<Page>, g: Glyph, w: nat, h: nat, t: Slot)
    requires pages != [] && PageOk(pages[|pages| - 1], w, h) && GlyphFits(g, w, h)
    requires t.page == |pages| - 1 && Behind(pages[t.page], t)
    requires SpotFor(pages, g).page == t.page
    ensures var s := SpotFor(pages, g);
            s.x + g.w <= w && s.y + g.h <= h && Behind(Written(pages[t.page], s, g), t)
  {
    hide Rows;
  }

  lemma NewSlotOk(a: Atlas, key: Key, g: Glyph, w: nat, h: nat)
    requires AtlasOk(a, w, h) && key !in a.slots && GlyphFits(g, w, h)
    ensures SlotOk(Inserted(a, key, g, w, h), key)
  {
    hide Shows, Rows;
    var s := SpotFor(a.pages, g);
    SpotFits(a.pages, g, w, h);
    var p := if s.page < |a.pages| then a.pages[s.page] else BlankPage(w, h);
    WrittenShows(p, s, g, w, h);
  }

  lemma PagesStayOk(a: Atlas, key: Key, g: Glyph, w: nat, h: nat)
    requires AtlasOk(a, w, h) && key !in a.slots && GlyphFits(g, w, h)
    ensures var pages := Inserted(a, key, g, w, h).pages;
            pages != [] && forall i :: 0 <= i < |pages| ==> PageOk(pages[i], w, h)
  {
    hide Rows, SlotOk, SlotsApart;
    SpotFits(a.pages, g, w, h);
  }

  /** Inserting keeps every slot in its place with its pixels, and the new one is apart. */
  lemma InsertKeeps(a: Atlas, key: Key, g: Glyph, w: nat, h: nat)
    requires AtlasOk(a, w, h) && (key !in a.slots ==> GlyphFits(g, w, h))
    ensures AtlasOk(Inserted(a, key, g, w, h), w, h)
  {
    if key !in a.slots {
      hide SlotOk, PageOk, Written, SpotFor, Apart;
      var b := Inserted(a, key, g, w, h);
      PagesStayOk(a, key, g, w, h);
      NewSlotOk(a, key, g, w, h);
      forall k: Key | k in b.slots ensures SlotOk(b, k) {
        if k != key { OldSlotOk(a, key, g, w, h, k); }
      }
      forall k: Key, l: Key ensures SlotsApart(b, k, l) {
        assert SlotsApart(a, k, l);
        if k in a.slots && l == key { OldSlotOk(a, key, g, w, h, k); }
        if l in a.slots && k == key {
          OldSlotOk(a, key, g, w, h, l);
          ApartSymmetric(a.slots[l], SlotAt(SpotFor(a.pages, g), g));
        }
      }
      assert b.slots.Keys == b.given.Keys;
    }
  }

  lemma ApartSymmetric(s: Slot, t: Slot)
    requires Apart(s, t)
    ensures Apart(t, s)
  {
  }

  lemma BlankOk(revision: nat, w: nat, h: nat)
    requires w >= 1 && h >= 1
    ensures AtlasOk(Atlas([BlankPage(w, h)], map[], map[], revision), w, h)
  {
    var a := Atlas([BlankPage(w, h)], map[], map[], revision);
    forall k: Key, l: Key ensures SlotsApart(a, k, l) { }
  }

  // ---- whole runs ----

  datatype Op = Insert(key: Key, glyph: Glyph) | Clear

  /** The glyph a key was first inserted with since the last clear. */
  function FirstSince(ops: seq<Op>, key: Key): Option<Glyph> {
    if ops == [] || ops[|ops| - 1].Clear? then None
    else
      var r, last := FirstSince(ops[..|ops| - 1], key), ops[|ops| - 1];
      if r.None? && last.key == key then Some(last.glyph) else r
  }

  /** Sizes are checked for a key that is not indexed yet. */
  ghost predicate Allowed(ops: seq<Op>, w: nat, h: nat) {
    && w >= 1 && h >= 1
    && (ops == [] ||
        var init, last := ops[..|ops| - 1], ops[|ops| - 1];
        && Allowed(init, w, h)
        && (last.Insert? && FirstSince(init, last.key).None? ==> GlyphFits(last.glyph, w, h)))
  }

  /** The atlas after a run, from an empty one. */
  ghost function Run(ops: seq<Op>, w: nat, h: nat): (a: Atlas)
    requires Allowed(ops, w, h)
    ensures AtlasOk(a, w, h)
    ensures forall k: Key :: k in a.slots <==> FirstSince(ops, k).Some?
  {
    if ops == [] then
      BlankOk(0, w, h);
      Fresh(w, h)
    else
      var init, last := ops[..|ops| - 1], ops[|ops| - 1];
      var a := Run(init, w, h);
      match last
      case Clear =>
        BlankOk(a.revision + 1, w, h);
        Cleared(a, w, h)
      case Insert(key, g) =>
        InsertKeeps(a, key, g, w, h);
        Inserted(a, key, g, w, h)
  }

  /** The number of clears and of glyphs that were new. */
  function Changes(ops: seq<Op>): nat {
    if ops == [] then 0
    else
      var init, last := ops[..|ops| - 1], ops[|ops| - 1];
      Changes(init) + if last.Clear? || FirstSince(init, last.key).None? then 1 else 0
  }

  /** The revision counts what has changed the atlas: it moves on with every clear and
      every new glyph, and with nothing else. */
  lemma {:induction false} RevisionCounts(ops: seq<Op>, w: nat, h: nat)
    requires Allowed(ops, w, h)
    ensures Run(ops, w, h).revision == Changes(ops)
  {
    hide AtlasOk, Written, SpotFor, BlankPage, FirstSince;
    if ops != [] {
      RevisionCounts(ops[..|ops| - 1], w, h);
    }
  }

  lemma {:induction false} GivenIsFirst(ops: seq<Op>, w: nat, h: nat, key: Key)
    requires Allowed(ops, w, h)
    ensures var a := Run(ops, w, h);
            FirstSince(ops, key) == if key in a.slots then Some(a.given[key]) else None
  {
    hide AtlasOk, Written, SpotFor, BlankPage;
    if ops != [] {
      var init := ops[..|ops| - 1];
      GivenIsFirst(init, w, h, key);
      KeysAgree(Run(init, w, h), w, h);
    }
  }

  lemma KeysAgree(a: Atlas, w: nat, h: nat)
    requires AtlasOk(a, w, h)
    ensures a.slots.Keys == a.given.Keys
  {
  }

  /** After any run of inserts and clears: a key is indexed exactly when it was inserted
      since the last clear; its slot lies inside its page and its pixels are the bitmap
      it was first inserted with. */
  lemma SlotsShowTheirGlyphs(ops: seq<Op>, w: nat, h: nat, key: Key)
    requires Allowed(ops, w, h)
    ensures var a := Run(ops, w, h);
            && (key in a.slots <==> FirstSince(ops, key).Some?)
            && (key in a.slots ==>
                  && a.slots[key].page < |a.pages|
                  && Shows(a.pages[a.slots[key].page], a.slots[key], FirstSince(ops, key).value))
  {
    hide Shows, FirstSince;
    GivenIsFirst(ops, w, h, key);
    var a := Run(ops, w, h);
    if key in a.slots {
      assert SlotOk(a, key);
    }
  }

  /** And no two keys share a pixel. */
  lemma SlotsNeverOverlap(ops: seq<Op>, w: nat, h: nat, k: Key, l: Key)
    requires Allowed(ops, w, h)
    ensures var a := Run(ops, w, h); k in a.slots && l in a.slots && k != l ==> Apart(a.slots[k], a.slots[l])
  {
    hide Apart, Run;
    var a := Run(ops, w, h);
    assert AtlasOk(a, w, h);
    assert SlotsApart(a, k, l);
  }

  // ---- the objects ----

  class AtlasPage {
    const w: nat
    const h: nat
    const coverage: array<byte>
    var shelfY: nat
    var shelfH: nat
    var cursorX: nat

    function Value(): Page
      reads this, coverage
    {
      Page(w, h, coverage[..], shelfY, shelfH, cursorX)
    }

    constructor (w: nat, h: nat)
      requires w >= 1 && h >= 1
      ensures Value() == BlankPage(w, h) && fresh(coverage)
    {
      this.w, this.h := w, h;
      var c := new byte[w * h](_ => 0);
      coverage := c;
      shelfY, shelfH, cursorX := 0, 0, 0;
      new;
      assert coverage[..] == Filled(w * h);
    }

    /** Copies the bitmap row by row and moves the shelf. */
    method Write(s: Spot, g: Glyph)
      requires PageOk(Value(), w, h) && Sound(g) && s.x + g.w <= w && s.y + g.h <= h
      modifies this, coverage
      ensures Value() == Written(old(Value()), s, g)
    {
      hide Index, RowOf, Overlaid;
      ghost var before := coverage[..];
      for gy := 0 to g.h
        invariant coverage[..] == Rows(before, w, h, s.x, s.y, g, gy)
        invariant shelfY == old(shelfY) && shelfH == old(shelfH) && cursorX == old(cursorX)
      {
        IndexInside(w, h, s.x, s.y + gy, g.w);
        CopyRow(Index(w, s.x, s.y + gy), RowOf(g, gy));
      }
      cursorX := s.x + g.w;
      shelfY := s.y;
      shelfH := Max(s.shelfH, g.h);
    }

    method CopyRow(at: nat, row: seq<byte>)
      requires at + |row| <= coverage.Length
      modifies coverage
      ensures coverage[..] == Overlaid(old(coverage[..]), at, row)
    {
      for i := 0 to |row|
        invariant forall j :: 0 <= j < coverage.Length ==>
                    coverage[j] == if at <= j < at + i then row[j - at] else old(coverage[j])
      {
        coverage[at + i] := row[i];
      }
    }

    method Wipe()
      requires w >= 1 && h >= 1 && coverage.Length == w * h
      modifies this, coverage
      ensures Value() == BlankPage(w, h)
    {
      shelfY, shelfH, cursorX := 0, 0, 0;
      for i := 0 to coverage.Length
        invariant shelfY == 0 && shelfH == 0 && cursorX == 0
        invariant forall j :: 0 <= j < i ==> coverage[j] == 0
      {
        coverage[i] := 0;
      }
      assert coverage[..] == Filled(w * h);
    }
  }

  /** The numbers of a slot fit the sixteen bits they are stored in. */
  predicate CastsAreExact(s: Slot) {
    s.page <= U16_MAX && s.u0 <= U16_MAX && s.v0 <= U16_MAX && s.w <= U16_MAX && s.h <= U16_MAX
  }

  /** The page written in place is the last of the new pages. */
  lemma TargetPages(a: Atlas, key: Key, g: Glyph, w: nat, h: nat, values: seq<Page>)
    requires AtlasOk(a, w, h) && key !in a.slots && GlyphFits(g, w, h)
    requires values == if SpotFor(a.pages, g).page == |a.pages| then a.pages + [BlankPage(w, h)] else a.pages
    ensures var s := SpotFor(a.pages, g);
            && PageOk(values[s.page], w, h) && s.x + g.w <= w && s.y + g.h <= h
            && values[s.page := Written(values[s.page], s, g)] == Inserted(a, key, g, w, h).pages
  {
    hide Written, SlotOk, SlotsApart;
    SpotFits(a.pages, g, w, h);
  }

  lemma PagesOk(a: Atlas, w: nat, h: nat)
    requires AtlasOk(a, w, h)
    ensures a.pages != [] && w >= 1 && h >= 1 && PageOk(BlankPage(w, h), w, h)
    ensures forall i :: 0 <= i < |a.pages| ==> PageOk(a.pages[i], w, h)
  {
    assert PageOk(a.pages[0], w, h);
  }

  class GlyphAtlas {
    var pages: seq<AtlasPage>
    var slots: map<Key, Slot>
    var revision: nat
    const pageW: nat
    const pageH: nat
    ghost var Model: Atlas
    ghost var Repr: set<object>

    /** No two pages share an object or a buffer. */
    ghost predicate Separate()
      reads this, Repr
    {
      && (forall i :: 0 <= i < |pages| ==> pages[i] in Repr && pages[i].coverage in Repr)
      && (forall i, j :: 0 <= i < j < |pages| ==> pages[i] != pages[j] && pages[i].coverage != pages[j].coverage)
    }

    /** The page objects hold these values. */
    ghost predicate Holds(values: seq<Page>)
      reads this, Repr
    {
      && this in Repr
      && Separate()
      && |pages| == |values|
      && forall i :: 0 <= i < |pages| ==> pages[i].Value() == values[i]
    }

    ghost predicate Valid()
      reads this, Repr
    {
      && Holds(Model.pages)
      && AtlasOk(Model, pageW, pageH)
      && slots == Model.slots && revision == Model.revision
    }

    constructor (w: nat, h: nat)
      requires w <= U16_MAX && h <= U16_MAX
      ensures Valid() && fresh(Repr)
      ensures Model == Fresh(Max(w, 1), Max(h, 1)) && pageW == Max(w, 1) && pageH == Max(h, 1)
    {
      pageW, pageH := Max(w, 1), Max(h, 1);
      var page := new AtlasPage(Max(w, 1), Max(h, 1));
      pages, slots, revision := [page], map[], 0;
      Model := Fresh(Max(w, 1), Max(h, 1));
      Repr := {this, page, page.coverage};
      new;
      BlankOk(0, pageW, pageH);
    }

    /** A new key needs a glyph that fits a page, and a page number that fits its width. */
    method Insert(key: Key, g: Glyph) returns (slot: Slot)
      requires Valid() && pageW <= U16_MAX && pageH <= U16_MAX
      requires key !in slots ==> GlyphFits(g, pageW, pageH) && |pages| <= U16_MAX
      modifies Repr
      ensures Valid() && fresh(Repr - old(Repr))
      ensures Model == Inserted(old(Model), key, g, pageW, pageH)
      ensures key in slots && slot == slots[key]
      ensures key !in old(slots) ==> CastsAreExact(slot)
    {
      hide Written, SpotFor, BlankPage, AtlasOk, PageOk;
      if key in slots { return slots[key]; }
      PagesOk(Model, pageW, pageH);
      InsertKeeps(Model, key, g, pageW, pageH);
      SpotFits(Model.pages, g, pageW, pageH);
      ghost var target := Inserted(Model, key, g, pageW, pageH);
      var s := Locate(g);
      ghost var values := Model.pages;
      if s.page == |pages| {
        AddPage(values);
        values := values + [BlankPage(pageW, pageH)];
      }
      Paint(s, g, values);
      TargetPages(Model, key, g, pageW, pageH, values);
      slot := SlotAt(s, g);
      Enter(key, slot, target);
    }

    /** The index learns of a slot whose pixels are in place. */
    method Enter(key: Key, slot: Slot, ghost target: Atlas)
      requires Holds(target.pages) && AtlasOk(target, pageW, pageH)
      requires target.slots == slots[key := slot] && target.revision == revision + 1
      modifies this`slots, this`revision, this`Model
      ensures Valid() && Model == target && slots == old(slots)[key := slot]
    {
      hide AtlasOk;
      slots := slots[key := slot];
      revision := revision + 1;
      Model := target;
    }

    method AddPage(ghost values: seq<Page>)
      requires Holds(values) && pageW >= 1 && pageH >= 1
      modifies this`pages, this`Repr
      ensures Holds(values + [BlankPage(pageW, pageH)]) && fresh(Repr - old(Repr))
    {
      hide BlankPage;
      var page := new AtlasPage(pageW, pageH);
      pages := pages + [page];
      Repr := Repr + {page, page.coverage};
    }

    method Paint(s: Spot, g: Glyph, ghost values: seq<Page>)
      requires Holds(values) && s.page < |values|
      requires PageOk(values[s.page], pageW, pageH) && Sound(g) && s.x + g.w <= pageW && s.y + g.h <= pageH
      modifies Repr - {this}
      ensures Holds(values[s.page := Written(values[s.page], s, g)])
    {
      hide Written;
      assert pages[s.page].Value() == values[s.page];
      pages[s.page].Write(s, g);
    }

    /** On the shelf, on the next shelf, or on a new page. */
    method Locate(g: Glyph) returns (s: Spot)
      requires Valid()
      ensures s == SpotFor(Model.pages, g)
    {
      var i := |pages| - 1;
      var p := pages[i];
      assert p.Value() == Model.pages[i];
      var x, y, shelfH := p.cursorX, p.shelfY, p.shelfH;
      if x + g.w > p.w {
        x := 0;
        y := y + shelfH;
        shelfH := 0;
      }
      if y + g.h > p.h {
        i, x, y, shelfH := i + 1, 0, 0, 0;
      }
      s := Spot(i, x, y, shelfH);
    }

    method Clear()
      requires Valid()
      modifies Repr
      ensures Valid() && fresh(Repr - old(Repr))
      ensures pageW >= 1 && pageH >= 1 && Model == Cleared(old(Model), pageW, pageH)
    {
      hide BlankPage;
      assert PageOk(Model.pages[0], pageW, pageH) && pages[0].Value() == Model.pages[0];
      slots := map[];
      pages := pages[..1];
      pages[0].Wipe();
      revision := revision + 1;
      Model := Cleared(Model, pageW, pageH);
      BlankOk(revision, pageW, pageH);
    }
  }
}
