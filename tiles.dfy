/**
 * Tile topologies and the pixel rectangles of a camera group's window.
 *
 * A tile map gives, per slot, a span `(xs, ys, xe, ye)` of grid columns and
 * rows, the ends exclusive.  The source keeps it as a dict keyed `0..k-1`; it
 * is a sequence here, so "index not in the tile map" is `idx >= |m|`.
 */
module Tiles {
  import opened Boundaries

  datatype Tile = Tile(xs: nat, ys: nat, xe: nat, ye: nat)

  /** A frame geometry as given to `setGeometry(x, y, w, h)`. */
  datatype Rect = Rect(x: int, y: int, w: int, h: int)

  /** One camera: the whole 1x1 grid. */
  const FullScreen: seq<Tile> := [Tile(0, 0, 1, 1)]

  /** Two to four cameras: top-left, top-right, bottom-left, bottom-right. */
  const Quad: seq<Tile> := [Tile(0, 0, 1, 1), Tile(1, 0, 2, 1), Tile(0, 1, 1, 2), Tile(1, 1, 2, 2)]

  /**
   * Five or six cameras on a 3x3 grid: slot 0 spans the top-left 2x2 block,
   * slots 1-3 the right column top to bottom, slots 4-5 the rest of the
   * bottom row.  The fixed six-slot windows use the same map.
   */
  const HeroGrid: seq<Tile> :=
    [Tile(0, 0, 2, 2), Tile(2, 0, 3, 1), Tile(2, 1, 3, 2), Tile(2, 2, 3, 3), Tile(0, 2, 1, 3), Tile(1, 2, 2, 3)]

  /** Number of grid columns: the largest column end over all slots. */
  function MaxCol(m: seq<Tile>): (c: nat)
    ensures forall k :: 0 <= k < |m| ==> m[k].xe <= c
  {
    if m == [] then 0
    else
      var rest := MaxCol(m[..|m| - 1]);
      var last := m[|m| - 1].xe;
      if rest < last then last else rest
  }

  /** The column count is attained: some slot of a non-empty map ends on it. */
  lemma {:induction false} MaxColAttained(m: seq<Tile>)
    requires m != []
    ensures exists k :: 0 <= k < |m| && m[k].xe == MaxCol(m)
  {
    var init := m[..|m| - 1];
    if init == [] {
      assert MaxCol(init) == 0;
      assert m[0].xe == MaxCol(m);
    } else if MaxCol(m) != m[|m| - 1].xe {
      MaxColAttained(init);
      var k :| 0 <= k < |init| && init[k].xe == MaxCol(init);
      assert m[k] == init[k];
    } else {
      assert m[|m| - 1].xe == MaxCol(m);
    }
  }

  /** Number of grid rows: the largest row end over all slots. */
  function MaxRow(m: seq<Tile>): (r: nat)
    ensures forall k :: 0 <= k < |m| ==> m[k].ye <= r
  {
    if m == [] then 0
    else
      var rest := MaxRow(m[..|m| - 1]);
      var last := m[|m| - 1].ye;
      if rest < last then last else rest
  }

  /** The row count is attained: some slot of a non-empty map ends on it. */
  lemma {:induction false} MaxRowAttained(m: seq<Tile>)
    requires m != []
    ensures exists k :: 0 <= k < |m| && m[k].ye == MaxRow(m)
  {
    var init := m[..|m| - 1];
    if init == [] {
      assert MaxRow(init) == 0;
      assert m[0].ye == MaxRow(m);
    } else if MaxRow(m) != m[|m| - 1].ye {
      MaxRowAttained(init);
      var k :| 0 <= k < |init| && init[k].ye == MaxRow(init);
      assert m[k] == init[k];
    } else {
      assert m[|m| - 1].ye == MaxRow(m);
    }
  }

  /** Grid cell `(c, r)` lies in tile `t`. */
  predicate Covers(t: Tile, c: int, r: int) {
    t.xs <= c < t.xe && t.ys <= r < t.ye
  }

  /** Some slot of `m` covers cell `(c, r)`. */
  predicate CellCovered(m: seq<Tile>, c: int, r: int) {
    exists k :: 0 <= k < |m| && Covers(m[k], c, r)
  }

  /** Two tiles share no grid cell: their column spans or row spans are apart. */
  predicate Apart(t: Tile, u: Tile) {
    t.xe <= u.xs || u.xe <= t.xs || t.ye <= u.ys || u.ye <= t.ys
  }

  /**
   * The slots of `m` are non-empty, pairwise disjoint, and together cover
   * every cell of the `MaxCol(m)` x `MaxRow(m)` grid.
   */
  predicate PartitionsGrid(m: seq<Tile>) {
    && m != []
    && (forall k :: 0 <= k < |m| ==> m[k].xs < m[k].xe && m[k].ys < m[k].ye)
    && (forall k, l :: 0 <= k < l < |m| ==> Apart(m[k], m[l]))
    && (forall c, r :: 0 <= c < MaxCol(m) && 0 <= r < MaxRow(m) ==> CellCovered(m, c, r))
  }

  /** Apart tiles really share no cell. */
  lemma ApartMeansNoSharedCell(t: Tile, u: Tile, c: int, r: int)
    requires Apart(t, u)
    ensures !(Covers(t, c, r) && Covers(u, c, r))
  {
  }

  /** The topology chosen for a (truncated) camera count. */
  function GetTileMap(numCams: int): (m: seq<Tile>)
    ensures PartitionsGrid(m)
    ensures numCams == 1 ==> m == FullScreen && MaxCol(m) == 1 && MaxRow(m) == 1
    ensures 2 <= numCams <= 4 ==> m == Quad && MaxCol(m) == 2 && MaxRow(m) == 2
    ensures numCams != 1 && !(2 <= numCams <= 4) ==> m == HeroGrid && MaxCol(m) == 3 && MaxRow(m) == 3
  {
    TopologiesPartitionGrid();
    if numCams == 1 then FullScreen
    else if numCams in {2, 3, 4} then Quad
    else HeroGrid
  }

  /** Each of the three topologies partitions its grid. */
  lemma TopologiesPartitionGrid()
    ensures PartitionsGrid(FullScreen) && MaxCol(FullScreen) == 1 && MaxRow(FullScreen) == 1
    ensures PartitionsGrid(Quad) && MaxCol(Quad) == 2 && MaxRow(Quad) == 2
    ensures PartitionsGrid(HeroGrid) && MaxCol(HeroGrid) == 3 && MaxRow(HeroGrid) == 3
  {
    FullScreenPartitionsGrid();
    QuadPartitionsGrid();
    HeroGridPartitionsGrid();
  }

  lemma FullScreenPartitionsGrid()
    ensures PartitionsGrid(FullScreen) && MaxCol(FullScreen) == 1 && MaxRow(FullScreen) == 1
  {
    assert MaxCol(FullScreen) == 1 && MaxRow(FullScreen) == 1;
    assert Covers(FullScreen[0], 0, 0);
  }

  lemma QuadPartitionsGrid()
    ensures PartitionsGrid(Quad) && MaxCol(Quad) == 2 && MaxRow(Quad) == 2
  {
    var g := Quad;
    assert g[..1] == [g[0]];
    assert MaxCol(g[..1]) == 1 && MaxRow(g[..1]) == 1;
    assert g[..2][..1] == g[..1];
    assert MaxCol(g[..2]) == 2 && MaxRow(g[..2]) == 1;
    assert g[..3][..2] == g[..2];
    assert MaxCol(g[..3]) == 2 && MaxRow(g[..3]) == 2;
    assert g[..4][..3] == g[..3] && g[..4] == g;
    assert MaxCol(g) == 2 && MaxRow(g) == 2;
    forall c, r | 0 <= c < 2 && 0 <= r < 2 ensures CellCovered(Quad, c, r) {
      assert Covers(Quad[2 * r + c], c, r);
    }
  }

  lemma HeroGridPartitionsGrid()
    ensures PartitionsGrid(HeroGrid) && MaxCol(HeroGrid) == 3 && MaxRow(HeroGrid) == 3
  {
    var g := HeroGrid;
    assert g[..1] == [g[0]];
    assert MaxCol(g[..1]) == 2 && MaxRow(g[..1]) == 2;
    assert g[..2][..1] == g[..1];
    assert MaxCol(g[..2]) == 3 && MaxRow(g[..2]) == 2;
    assert g[..3][..2] == g[..2];
    assert MaxCol(g[..3]) == 3 && MaxRow(g[..3]) == 2;
    assert g[..4][..3] == g[..3];
    assert MaxCol(g[..4]) == 3 && MaxRow(g[..4]) == 3;
    assert g[..5][..4] == g[..4];
    assert MaxCol(g[..5]) == 3 && MaxRow(g[..5]) == 3;
    assert g[..6][..5] == g[..5] && g[..6] == g;
    assert MaxCol(g) == 3 && MaxRow(g) == 3;
    forall k, l | 0 <= k < l < 6 ensures Apart(g[k], g[l]) {
    }
    forall c, r | 0 <= c < 3 && 0 <= r < 3 ensures CellCovered(HeroGrid, c, r) {
      var k := if c < 2 && r < 2 then 0 else if c == 2 then r + 1 else c + 4;
      assert Covers(HeroGrid[k], c, r);
    }
  }

  /** Cells of the grid a tile occupies. */
  function CellCount(t: Tile): nat
    requires t.xs <= t.xe && t.ys <= t.ye
  {
    (t.xe - t.xs) * (t.ye - t.ys)
  }

  /** In the six-slot map the hero slot holds four cells and the other five one each. */
  lemma HeroGridCellCounts()
    ensures CellCount(HeroGrid[0]) == 4
    ensures forall k :: 1 <= k < 6 ==> CellCount(HeroGrid[k]) == 1
  {
  }

  /** The rectangle of one tile, given the column and row boundaries. */
  function TileRect(xb: seq<int>, yb: seq<int>, t: Tile): Rect
    requires t.xs <= t.xe < |xb| && t.ys <= t.ye < |yb|
  {
    var x := xb[t.xs];
    var y := yb[t.ys];
    var w := xb[t.xe] - x;
    var h := yb[t.ye] - y;
    Rect(x, y, if w < 0 then 0 else w, if h < 0 then 0 else h)
  }

  /**
   * The geometry `_layout_and_attach` gives frame `idx` on an `sw` x `sh`
   * screen: boundaries with as many segments as the grid has columns and
   * rows, the slot's rectangle, or an empty rectangle when `idx` has no slot.
   */
  function FrameRect(sw: int, sh: int, m: seq<Tile>, idx: nat): (r: Rect)
    requires PartitionsGrid(m)
    ensures r.w >= 0 && r.h >= 0
    ensures idx >= |m| ==> r == Rect(0, 0, 0, 0)
  {
    if idx >= |m| then Rect(0, 0, 0, 0)
    else
      var xb := ComputeBoundaries(sw, MaxCol(m));
      var yb := ComputeBoundaries(sh, MaxRow(m));
      TileRect(xb, yb, m[idx])
  }

  /**
   * On a screen of non-negative size a slot's rectangle is exactly its
   * boundary span (the clamp at zero never applies) and lies on the screen.
   */
  lemma FrameRectSpan(sw: int, sh: int, m: seq<Tile>, idx: nat)
    requires sw >= 0 && sh >= 0 && PartitionsGrid(m) && idx < |m|
    ensures var xb, yb := ComputeBoundaries(sw, MaxCol(m)), ComputeBoundaries(sh, MaxRow(m));
      var r, t := FrameRect(sw, sh, m, idx), m[idx];
      && r == Rect(xb[t.xs], yb[t.ys], xb[t.xe] - xb[t.xs], yb[t.ye] - yb[t.ys])
      && 0 <= r.x && r.x + r.w <= sw
      && 0 <= r.y && r.y + r.h <= sh
  {
    var t := m[idx];
    BoundariesMonotone(sw, MaxCol(m), t.xs, t.xe);
    BoundariesMonotone(sh, MaxRow(m), t.ys, t.ye);
    BoundariesMonotone(sw, MaxCol(m), 0, t.xs);
    BoundariesMonotone(sh, MaxRow(m), 0, t.ys);
    BoundariesMonotone(sw, MaxCol(m), t.xe, MaxCol(m));
    BoundariesMonotone(sh, MaxRow(m), t.ye, MaxRow(m));
  }

  /** Two rectangles share no pixel. */
  predicate PixelDisjoint(a: Rect, b: Rect) {
    a.x + a.w <= b.x || b.x + b.w <= a.x || a.y + a.h <= b.y || b.y + b.h <= a.y
  }

  /** The frames of two different slots never overlap on screen. */
  lemma FrameRectsDisjoint(sw: int, sh: int, m: seq<Tile>, k: nat, l: nat)
    requires sw >= 0 && sh >= 0 && PartitionsGrid(m)
    requires k < |m| && l < |m| && k != l
    ensures PixelDisjoint(FrameRect(sw, sh, m, k), FrameRect(sw, sh, m, l))
  {
    FrameRectSpan(sw, sh, m, k);
    FrameRectSpan(sw, sh, m, l);
    var t, u := m[k], m[l];
    assert Apart(t, u) by {
      if k < l { assert Apart(m[k], m[l]); } else { assert Apart(m[l], m[k]); }
    }
    if t.xe <= u.xs {
      BoundariesMonotone(sw, MaxCol(m), t.xe, u.xs);
    } else if u.xe <= t.xs {
      BoundariesMonotone(sw, MaxCol(m), u.xe, t.xs);
    } else if t.ye <= u.ys {
      BoundariesMonotone(sh, MaxRow(m), t.ye, u.ys);
    } else {
      BoundariesMonotone(sh, MaxRow(m), u.ye, t.ys);
    }
  }

  function Area(r: Rect): int {
    r.w * r.h
  }

  /** Total area of the frames of the first `n` slots. */
  function LayoutArea(sw: int, sh: int, m: seq<Tile>, n: nat): int
    requires PartitionsGrid(m)
  {
    if n == 0 then 0 else LayoutArea(sw, sh, m, n - 1) + Area(FrameRect(sw, sh, m, n - 1))
  }

  /** Fully occupied topologies lose no pixel: the slot areas add up to the screen. */
  lemma LayoutCoversScreen(sw: int, sh: int, numCams: int)
    requires sw >= 0 && sh >= 0
    requires numCams == 1 || numCams == 4 || numCams == 6
    ensures var m := GetTileMap(numCams); LayoutArea(sw, sh, m, |m|) == sw * sh
  {
    if numCams == 1 {
      FullScreenCoversScreen(sw, sh);
    } else if numCams == 4 {
      QuadCoversScreen(sw, sh);
    } else {
      HeroGridCoversScreen(sw, sh);
    }
  }

  /** The area of slot `k` is the product of its boundary spans. */
  lemma SlotArea(sw: int, sh: int, m: seq<Tile>, k: nat)
    requires sw >= 0 && sh >= 0 && PartitionsGrid(m) && k < |m|
    ensures var xb, yb := ComputeBoundaries(sw, MaxCol(m)), ComputeBoundaries(sh, MaxRow(m));
      Area(FrameRect(sw, sh, m, k)) == (xb[m[k].xe] - xb[m[k].xs]) * (yb[m[k].ye] - yb[m[k].ys])
  {
    FrameRectSpan(sw, sh, m, k);
  }


  lemma FullScreenCoversScreen(sw: int, sh: int)
    requires sw >= 0 && sh >= 0
    ensures PartitionsGrid(FullScreen) && LayoutArea(sw, sh, FullScreen, 1) == sw * sh
  {
    FullScreenPartitionsGrid();
    SlotArea(sw, sh, FullScreen, 0);
    assert LayoutArea(sw, sh, FullScreen, 1) == Area(FrameRect(sw, sh, FullScreen, 0));
  }

  lemma QuadCoversScreen(sw: int, sh: int)
    requires sw >= 0 && sh >= 0
    ensures PartitionsGrid(Quad) && LayoutArea(sw, sh, Quad, 4) == sw * sh
  {
    QuadPartitionsGrid();
    var m := Quad;
    var xb, yb := ComputeBoundaries(sw, 2), ComputeBoundaries(sh, 2);
    SlotArea(sw, sh, m, 0);
    SlotArea(sw, sh, m, 1);
    SlotArea(sw, sh, m, 2);
    SlotArea(sw, sh, m, 3);
    assert LayoutArea(sw, sh, m, 1) == Area(FrameRect(sw, sh, m, 0));
    assert LayoutArea(sw, sh, m, 2) == LayoutArea(sw, sh, m, 1) + Area(FrameRect(sw, sh, m, 1));
    assert LayoutArea(sw, sh, m, 4) ==
      LayoutArea(sw, sh, m, 2) + Area(FrameRect(sw, sh, m, 2)) + Area(FrameRect(sw, sh, m, 3));
    GridArea2(xb[0], xb[1], xb[2], yb[0], yb[1], yb[2]);
  }

  lemma HeroGridCoversScreen(sw: int, sh: int)
    requires sw >= 0 && sh >= 0
    ensures PartitionsGrid(HeroGrid) && LayoutArea(sw, sh, HeroGrid, 6) == sw * sh
  {
    HeroLayoutUnrolled(sw, sh);
    HeroSlotRects(sw, sh);
    var xb, yb := ComputeBoundaries(sw, 3), ComputeBoundaries(sh, 3);
    var r := seq(6, k requires 0 <= k < 6 => FrameRect(sw, sh, HeroGrid, k));
    HeroAreas(sw, sh, xb[1], xb[2], yb[1], yb[2], r, LayoutArea(sw, sh, HeroGrid, 6));
  }

  /** The six frames of the six-slot map, from the inner boundaries of the 3 x 3 split. */
  lemma HeroSlotRects(sw: int, sh: int)
    requires sw >= 0 && sh >= 0
    ensures PartitionsGrid(HeroGrid)
    ensures var xb, yb := ComputeBoundaries(sw, 3), ComputeBoundaries(sh, 3);
      && FrameRect(sw, sh, HeroGrid, 0) == Rect(0, 0, xb[2], yb[2])
      && FrameRect(sw, sh, HeroGrid, 1) == Rect(xb[2], 0, sw - xb[2], yb[1])
      && FrameRect(sw, sh, HeroGrid, 2) == Rect(xb[2], yb[1], sw - xb[2], yb[2] - yb[1])
      && FrameRect(sw, sh, HeroGrid, 3) == Rect(xb[2], yb[2], sw - xb[2], sh - yb[2])
      && FrameRect(sw, sh, HeroGrid, 4) == Rect(0, yb[2], xb[1], sh - yb[2])
      && FrameRect(sw, sh, HeroGrid, 5) == Rect(xb[1], yb[2], xb[2] - xb[1], sh - yb[2])
  {
    HeroSlotRect(sw, sh, 0, 0, 0, 2, 2);
    HeroSlotRect(sw, sh, 1, 2, 0, 3, 1);
    HeroSlotRect(sw, sh, 2, 2, 1, 3, 2);
    HeroSlotRect(sw, sh, 3, 2, 2, 3, 3);
    HeroSlotRect(sw, sh, 4, 0, 2, 1, 3);
    HeroSlotRect(sw, sh, 5, 1, 2, 2, 3);
  }

  /** The frame of slot `k` of the six-slot map, whose tile spans columns `xs..xe` and rows `ys..ye`. */
  lemma HeroSlotRect(sw: int, sh: int, k: nat, xs: nat, ys: nat, xe: nat, ye: nat)
    requires sw >= 0 && sh >= 0 && k < |HeroGrid| && HeroGrid[k] == Tile(xs, ys, xe, ye)
    ensures PartitionsGrid(HeroGrid) && xe <= 3 && ye <= 3
    ensures var xb, yb := ComputeBoundaries(sw, 3), ComputeBoundaries(sh, 3);
      FrameRect(sw, sh, HeroGrid, k) == Rect(xb[xs], yb[ys], xb[xe] - xb[xs], yb[ye] - yb[ys])
  {
    HeroGridPartitionsGrid();
    FrameRectSpan(sw, sh, HeroGrid, k);
  }

  /**
   * Six rectangles laid out as the six-slot map, cut at `x1`, `x2`, `y1` and
   * `y2`, cover the `w` x `h` screen: their areas add up to `w * h`.
   */
  lemma HeroAreas(w: int, h: int, x1: int, x2: int, y1: int, y2: int, r: seq<Rect>, total: int)
    requires |r| == 6
    requires total == Area(r[0]) + Area(r[1]) + Area(r[2]) + Area(r[3]) + Area(r[4]) + Area(r[5])
    requires r[0] == Rect(0, 0, x2, y2) && r[1] == Rect(x2, 0, w - x2, y1)
    requires r[2] == Rect(x2, y1, w - x2, y2 - y1) && r[3] == Rect(x2, y2, w - x2, h - y2)
    requires r[4] == Rect(0, y2, x1, h - y2) && r[5] == Rect(x1, y2, x2 - x1, h - y2)
    ensures total == w * h
  {
    GridArea3(0, x1, x2, w, 0, y1, y2, h);
  }

  lemma HeroLayoutUnrolled(sw: int, sh: int)
    ensures PartitionsGrid(HeroGrid)
    ensures LayoutArea(sw, sh, HeroGrid, 6) ==
      Area(FrameRect(sw, sh, HeroGrid, 0)) + Area(FrameRect(sw, sh, HeroGrid, 1))
      + Area(FrameRect(sw, sh, HeroGrid, 2)) + Area(FrameRect(sw, sh, HeroGrid, 3))
      + Area(FrameRect(sw, sh, HeroGrid, 4)) + Area(FrameRect(sw, sh, HeroGrid, 5))
  {
    HeroGridPartitionsGrid();
    var m := HeroGrid;
    assert LayoutArea(sw, sh, m, 1) == Area(FrameRect(sw, sh, m, 0));
    assert LayoutArea(sw, sh, m, 2) == LayoutArea(sw, sh, m, 1) + Area(FrameRect(sw, sh, m, 1));
    assert LayoutArea(sw, sh, m, 4) ==
      LayoutArea(sw, sh, m, 2) + Area(FrameRect(sw, sh, m, 2)) + Area(FrameRect(sw, sh, m, 3));
    assert LayoutArea(sw, sh, m, 6) ==
      LayoutArea(sw, sh, m, 4) + Area(FrameRect(sw, sh, m, 4)) + Area(FrameRect(sw, sh, m, 5));
  }

  lemma GridArea2(x0: int, x1: int, x2: int, y0: int, y1: int, y2: int)
    ensures (x1 - x0) * (y1 - y0) + (x2 - x1) * (y1 - y0) + (x1 - x0) * (y2 - y1) + (x2 - x1) * (y2 - y1)
      == (x2 - x0) * (y2 - y0)
  {
    assert (x1 - x0) * (y1 - y0) + (x2 - x1) * (y1 - y0) == (x2 - x0) * (y1 - y0);
    assert (x1 - x0) * (y2 - y1) + (x2 - x1) * (y2 - y1) == (x2 - x0) * (y2 - y1);
    assert (x2 - x0) * (y1 - y0) + (x2 - x0) * (y2 - y1) == (x2 - x0) * (y2 - y0);
  }

  lemma GridArea3(x0: int, x1: int, x2: int, x3: int, y0: int, y1: int, y2: int, y3: int)
    ensures (x2 - x0) * (y2 - y0) + (x3 - x2) * (y1 - y0) + (x3 - x2) * (y2 - y1) + (x3 - x2) * (y3 - y2)
      + (x1 - x0) * (y3 - y2) + (x2 - x1) * (y3 - y2)
      == (x3 - x0) * (y3 - y0)
  {
    assert (x3 - x2) * (y1 - y0) + (x3 - x2) * (y2 - y1) + (x3 - x2) * (y3 - y2) == (x3 - x2) * (y3 - y0);
    assert (x1 - x0) * (y3 - y2) + (x2 - x1) * (y3 - y2) == (x2 - x0) * (y3 - y2);
    assert (x2 - x0) * (y2 - y0) + (x2 - x0) * (y3 - y2) == (x2 - x0) * (y3 - y0);
    assert (x2 - x0) * (y3 - y0) + (x3 - x2) * (y3 - y0) == (x3 - x0) * (y3 - y0);
  }

  /** The worked example: a 1920x1080 screen with six cameras. */
  lemma HeroGridExample()
    ensures PartitionsGrid(HeroGrid)
    ensures FrameRect(1920, 1080, HeroGrid, 0) == Rect(0, 0, 1280, 720)
    ensures FrameRect(1920, 1080, HeroGrid, 1) == Rect(1280, 0, 640, 360)
    ensures FrameRect(1920, 1080, HeroGrid, 5) == Rect(640, 720, 640, 360)
  {
    HeroGridPartitionsGrid();
    var xb, yb := ComputeBoundaries(1920, 3), ComputeBoundaries(1080, 3);
    assert RoundHalfEven(1920, 3) == 640 && RoundHalfEven(2 * 1920, 3) == 1280;
    assert RoundHalfEven(1080, 3) == 360 && RoundHalfEven(2 * 1080, 3) == 720;
    assert xb[1] == 640 && xb[2] == 1280 && xb[3] == 1920;
    assert yb[1] == 360 && yb[2] == 720 && yb[3] == 1080;
  }
}
