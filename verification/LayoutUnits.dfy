/** Elastic layout: saved integer units of a thousandth of the viewport, drawn as pixels rounded
    to a tenth, and read back.  Arithmetic is exact. */
module LayoutUnits {
  import opened Wrappers

  const LAYOUT_SCALE := 1000.0
  const RENDER_MIN_TILE_WIDTH := 92.0
  const RENDER_MIN_TILE_HEIGHT := 82.0
  const MAX_TILE_WIDTH := 20000.0
  const MAX_TILE_HEIGHT := 20000.0
  const MAX_WORKSPACE_POSITION := 100000.0

  /** `Math.round` */
  function Round(x: real): int {
    (x + 0.5).Floor
  }

  function Clamp(x: real, low: real, high: real): real {
    var capped := if high < x then high else x;
    if low > capped then low else capped
  }

  /** One coordinate of `geometryFromUnits`. */
  function ToPixels(units: int, viewport: int, low: real, high: real): real {
    Clamp(units as real * (viewport as real / LAYOUT_SCALE), low, high)
  }

  /** `clean` of `setTileRect` */
  function Clean(x: real): real {
    Round(x * 10.0) as real / 10.0
  }

  /** One coordinate of `tileLayoutFromDom`. */
  function ToUnits(pixels: real, viewport: int): int
    requires viewport > 0
  {
    Round(pixels / viewport as real * LAYOUT_SCALE)
  }

  /** What becomes of one saved coordinate when it is drawn and saved again. */
  function Redraw(units: int, viewport: int, low: real, high: real): int
    requires viewport > 0
  {
    ToUnits(Clean(ToPixels(units, viewport, low, high)), viewport)
  }

  // ---------- rounding ----------

  lemma RoundNear(x: real, n: int)
    requires -0.5 < x - n as real < 0.5
    ensures Round(x) == n
  {
  }

  lemma CleanNear(x: real)
    ensures -0.05 <= Clean(x) - x <= 0.05
  {
    var y := x * 10.0;
    assert -0.5 <= Round(y) as real - y <= 0.5;
  }

  lemma ScaleBack(p: real, v: real)
    requires v > 0.0
    ensures p / v * 1000.0 * v == p * 1000.0
  {
    assert p / v * v == p;
  }

  lemma SmallFactor(e: real, v: real)
    requires v > 100.0 && -50.0 <= e * v <= 50.0
    ensures -0.5 < e < 0.5
  {
    if e >= 0.5 { Scaled(0.5, e, v); }
    if e <= -0.5 { Scaled(e, -0.5, v); }
  }

  lemma Scaled(a: real, b: real, v: real)
    requires a <= b && v >= 0.0
    ensures a * v <= b * v
  {
  }

  /** A pixel value within a twentieth of where the units put it is read back as those units, at
      every viewport wider than 100: the error is at most 50 / viewport units. */
  lemma UnitsReadBack(units: int, viewport: int, pixels: real)
    requires viewport > 100
    requires -0.05 <= pixels - units as real * (viewport as real / LAYOUT_SCALE) <= 0.05
    ensures ToUnits(pixels, viewport) == units
  {
    var v, u := viewport as real, units as real;
    var r := pixels / v * 1000.0;
    ScaleBack(pixels, v);
    assert u * (v / 1000.0) * 1000.0 == u * v;
    assert r * v - u * v == (pixels - u * (v / 1000.0)) * 1000.0;
    assert (r - u) * v == r * v - u * v;
    SmallFactor(r - u, v);
    RoundNear(r, units);
  }

  // ---------- saved layouts do not drift ----------

  /** With the clamps inactive a coordinate survives drawing and saving unchanged. */
  lemma NoDrift(units: int, viewport: int, low: real, high: real)
    requires viewport > 100
    requires low <= units as real * (viewport as real / LAYOUT_SCALE) <= high
    ensures Redraw(units, viewport, low, high) == units
  {
    CleanNear(units as real * (viewport as real / LAYOUT_SCALE));
    UnitsReadBack(units, viewport, Clean(ToPixels(units, viewport, low, high)));
  }

  /** Exactly which saved coordinates survive: those inside the clamps, and the one value each
      clamp itself is saved as. */
  lemma DriftExactly(units: int, viewport: int, low: real, high: real)
    requires viewport > 100 && low <= high
    ensures var pixels := units as real * (viewport as real / LAYOUT_SCALE);
      Redraw(units, viewport, low, high) == units
      <==> || low <= pixels <= high
           || (pixels < low && units == ToUnits(Clean(low), viewport))
           || (pixels > high && units == ToUnits(Clean(high), viewport))
  {
    var pixels := units as real * (viewport as real / LAYOUT_SCALE);
    if low <= pixels <= high { NoDrift(units, viewport, low, high); }
  }

  /** Whatever was saved, drawing and saving once is enough: a second pass changes nothing. */
  lemma SettlesAtOnce(units: int, viewport: int, low: real, high: real)
    requires viewport > 100 && Clean(low) == low && Clean(high) == high
    requires low + viewport as real / LAYOUT_SCALE < high
    ensures var once := Redraw(units, viewport, low, high);
      Redraw(once, viewport, low, high) == once
  {
    var pixels := units as real * (viewport as real / LAYOUT_SCALE);
    if low <= pixels <= high {
      NoDrift(units, viewport, low, high);
    } else {
      ClampSettles(if pixels < low then low else high, viewport, low, high);
    }
  }

  lemma ClampSettles(bound: real, viewport: int, low: real, high: real)
    requires viewport > 100 && (bound == low || bound == high) && Clean(low) == low && Clean(high) == high
    requires low + viewport as real / LAYOUT_SCALE < high
    ensures Redraw(ToUnits(bound, viewport), viewport, low, high) == ToUnits(bound, viewport)
  {
    var once := ToUnits(bound, viewport);
    var again := once as real * (viewport as real / LAYOUT_SCALE);
    NearBound(bound, viewport);
    if low <= again <= high { NoDrift(once, viewport, low, high); }
    hide ToUnits, Clean;
  }

  function Times(a: real, b: real): real {
    a * b
  }

  lemma TimesBound(a: real, w: real)
    requires w > 0.0 && -0.5 <= a <= 0.5
    ensures -0.5 * w <= Times(a, w) <= 0.5 * w
  {
    Scaled(-0.5, a, w);
    Scaled(a, 0.5, w);
  }

  lemma TimesMinus(a: real, b: real, w: real)
    ensures Times(a - b, w) == Times(a, w) - Times(b, w)
  {
  }

  /** Half a unit at most is lost when `n` replaces `r`, in pixels. */
  lemma ScaledError(n: real, r: real, w: real, bound: real)
    requires w > 0.0 && Times(r, w) == bound && -0.5 <= n - r <= 0.5
    ensures -0.5 * w <= Times(n, w) - bound <= 0.5 * w
  {
    hide Times;
    TimesBound(n - r, w);
    TimesMinus(n, r, w);
  }

  lemma UnitsOf(bound: real, v: real)
    requires v > 0.0
    ensures (bound / v * 1000.0) * (v / 1000.0) == bound
  {
    var q := bound / v;
    assert q * v == bound;
    assert (q * 1000.0) * (v / 1000.0) == q * v;
  }

  /** The units a clamp is saved as put it back to within half a unit. */
  lemma NearBound(bound: real, viewport: int)
    requires viewport > 100
    ensures var again := ToUnits(bound, viewport) as real * (viewport as real / LAYOUT_SCALE);
      -0.5 * (viewport as real / 1000.0) <= again - bound <= 0.5 * (viewport as real / 1000.0)
  {
    var v := viewport as real;
    var r := bound / v * 1000.0;
    var n := ToUnits(bound, viewport) as real;
    UnitsOf(bound, v);
    assert -0.5 <= n - r <= 0.5;
    ScaledError(n, r, v / 1000.0, bound);
  }

  // ---------- the stacking order ----------

  /** Tile `j` comes before tile `i` in a stable sort by these z-indices. */
  predicate Below(zs: seq<int>, j: nat, i: nat)
    requires j < |zs| && i < |zs|
  {
    zs[j] < zs[i] || (zs[j] == zs[i] && j < i)
  }

  function BelowSet(zs: seq<int>, i: nat): set<nat>
    requires i < |zs|
  {
    set j: nat | j < |zs| && Below(zs, j, i)
  }

  /** The position of tile `i` in that sort, which is what is saved as its order. */
  function Rank(zs: seq<int>, i: nat): nat
    requires i < |zs|
  {
    |BelowSet(zs, i)|
  }

  lemma {:induction false} SubsetSize(a: set<nat>, b: set<nat>)
    requires a <= b
    ensures |a| <= |b| && (a != b ==> |a| < |b|)
  {
    if a != {} {
      var x :| x in a;
      SubsetSize(a - {x}, b - {x});
      if a != b {
        var y :| y in b && y !in a;
        assert y in b - {x};
      }
    } else if b != {} {
      assert |b| > 0;
    }
  }

  lemma RankOrder(zs: seq<int>, i: nat, j: nat)
    requires i < |zs| && j < |zs| && Below(zs, i, j)
    ensures Rank(zs, i) < Rank(zs, j)
  {
    assert i in BelowSet(zs, j) && i !in BelowSet(zs, i);
    SubsetSize(BelowSet(zs, i), BelowSet(zs, j));
  }

  function Indices(n: nat): (r: set<nat>)
    ensures |r| == n && forall j: nat :: j in r <==> j < n
  {
    if n == 0 then {} else Indices(n - 1) + {n - 1}
  }

  /** Saved orders number the tiles from 0 in stacking order: they are below the number of tiles
      and one is lower than another exactly when its tile is stacked lower. */
  lemma RanksMeaning(zs: seq<int>, i: nat, j: nat)
    requires i < |zs| && j < |zs|
    ensures Rank(zs, i) < |zs|
    ensures Rank(zs, i) < Rank(zs, j) <==> Below(zs, i, j)
    ensures Rank(zs, i) == Rank(zs, j) <==> i == j
  {
    var all := Indices(|zs|);
    assert BelowSet(zs, i) <= all && i in all && i !in BelowSet(zs, i);
    SubsetSize(BelowSet(zs, i), all);
    if Below(zs, i, j) {
      RankOrder(zs, i, j);
    } else if i != j {
      RankOrder(zs, j, i);
    }
  }

  /** Stacking tiles by their saved orders and saving again gives the same orders. */
  lemma RankOfRanks(zs: seq<int>, ws: seq<int>, i: nat)
    requires |zs| == |ws| && i < |zs|
    requires forall k :: 0 <= k < |zs| ==> ws[k] == Rank(zs, k) + 1
    ensures Rank(ws, i) == Rank(zs, i)
  {
    forall j: nat | j < |zs| ensures Below(ws, j, i) <==> Below(zs, j, i) {
      RanksMeaning(zs, j, i);
      RanksMeaning(zs, i, j);
    }
    assert BelowSet(ws, i) == BelowSet(zs, i);
  }

  // ---------- tiles on the page ----------

  datatype Geometry = Geometry(x: int, y: int, w: int, h: int, order: int)

  const MAX_ORDER := 999

  /** The order of `geometryFromUnits`. */
  function ToOrder(order: int): int {
    var capped := if MAX_ORDER < order then MAX_ORDER else order;
    if 0 > capped then 0 else capped
  }

  datatype Rect = Rect(x: int, y: int, w: int, h: int)

  /** What a layout holds of one tile: entries without coordinates come from the old grid. */
  datatype Entry = Entry(rect: Option<Rect>, order: Option<int>)

  const DEFAULT_TILE_LAYOUT := map[
    "foxlink" := Geometry(0, 0, 280, 440, 0),
    "watch" := Geometry(288, 0, 380, 440, 1),
    "journal" := Geometry(676, 0, 324, 440, 2),
    "personal" := Geometry(0, 450, 720, 550, 3),
    "bzsjk" := Geometry(730, 450, 270, 550, 4)
  ]

  /** `defaultGeometryForTile` */
  function DefaultGeometry(id: string, index: nat): Geometry {
    if id in DEFAULT_TILE_LAYOUT then DEFAULT_TILE_LAYOUT[id]
    else Geometry(if index % 2 == 1 then 510 else 0, index / 2 * 510, 490, 500, index)
  }

  predicate Apart(a: Geometry, b: Geometry) {
    a.x + a.w <= b.x || b.x + b.w <= a.x || a.y + a.h <= b.y || b.y + b.h <= a.y
  }

  /** Tiles for which nothing is saved do not cover each other, as long as all or none of them are
      the known ones; and the known ones fit the screen. */
  lemma DefaultsApart(id: string, other: string, i: nat, j: nat)
    requires id != other && i != j && (id in DEFAULT_TILE_LAYOUT <==> other in DEFAULT_TILE_LAYOUT)
    ensures Apart(DefaultGeometry(id, i), DefaultGeometry(other, j))
    ensures id in DEFAULT_TILE_LAYOUT ==>
      var g := DefaultGeometry(id, i); 0 <= g.x && 0 <= g.y && g.x + g.w <= 1000 && g.y + g.h <= 1000
  {
  }

  /** The units `geometryForTile` draws a tile at, for a layout of the current version. */
  function GeometryFor(layout: map<string, Entry>, id: string, index: nat): Geometry {
    var saved := if id in layout then layout[id] else Entry(None, None);
    var fallback := DefaultGeometry(id, index);
    var order := if saved.order.Some? then saved.order.value else fallback.order;
    match saved.rect
    case Some(r) => Geometry(r.x, r.y, r.w, r.h, order)
    case None => fallback.(order := ToOrder(order))
  }

  function Full(g: Geometry): Entry {
    Entry(Some(Rect(g.x, g.y, g.w, g.h)), Some(g.order))
  }

  class Tile {
    const projectId: string
    var left: real
    var top: real
    var width: real
    var height: real
    var zIndex: int

    constructor (projectId: string)
      ensures this.projectId == projectId
    {
      this.projectId := projectId;
      left, top, width, height, zIndex := 0.0, 0.0, 120.0, 104.0, 0;
    }
  }

  /** The tile shows geometry `g` at this viewport. */
  ghost predicate Drawn(t: Tile, g: Geometry, viewportWidth: int, viewportHeight: int)
    reads t
  {
    && t.left == Clean(ToPixels(g.x, viewportWidth, 0.0, MAX_WORKSPACE_POSITION))
    && t.top == Clean(ToPixels(g.y, viewportHeight, 0.0, MAX_WORKSPACE_POSITION))
    && t.width == Clean(ToPixels(g.w, viewportWidth, RENDER_MIN_TILE_WIDTH, MAX_TILE_WIDTH))
    && t.height == Clean(ToPixels(g.h, viewportHeight, RENDER_MIN_TILE_HEIGHT, MAX_TILE_HEIGHT))
    && t.zIndex == ToOrder(g.order) + 1
  }

  /** The clamps of `geometryFromUnits` leave this geometry alone. */
  predicate Unclamped(g: Geometry, viewportWidth: int, viewportHeight: int) {
    var sx, sy := viewportWidth as real / LAYOUT_SCALE, viewportHeight as real / LAYOUT_SCALE;
    && 0.0 <= g.x as real * sx <= MAX_WORKSPACE_POSITION
    && 0.0 <= g.y as real * sy <= MAX_WORKSPACE_POSITION
    && RENDER_MIN_TILE_WIDTH <= g.w as real * sx <= MAX_TILE_WIDTH
    && RENDER_MIN_TILE_HEIGHT <= g.h as real * sy <= MAX_TILE_HEIGHT
  }

  /** `setTileRect` */
  method SetTileRect(t: Tile, left: real, top: real, width: real, height: real)
    modifies t`left, t`top, t`width, t`height
    ensures t.left == Clean(left) && t.top == Clean(top) && t.width == Clean(width) && t.height == Clean(height)
  {
    t.left, t.top, t.width, t.height := Clean(left), Clean(top), Clean(width), Clean(height);
  }

  ghost predicate OwnIds(tiles: seq<Tile>) {
    forall i, j :: 0 <= i < j < |tiles| ==> tiles[i].projectId != tiles[j].projectId
  }

  /** The loop of `applyProjectLayout` over a current-version layout. */
  method ApplyProjectLayout(tiles: seq<Tile>, layout: map<string, Entry>, viewportWidth: int, viewportHeight: int)
    requires OwnIds(tiles)
    modifies tiles
    ensures viewportWidth > 0 && viewportHeight > 0 ==> forall i :: 0 <= i < |tiles| ==>
      Drawn(tiles[i], GeometryFor(layout, tiles[i].projectId, i), viewportWidth, viewportHeight)
    ensures viewportWidth <= 0 || viewportHeight <= 0 ==> forall t <- tiles :: unchanged(t)
  {
    hide Clean, ToPixels, GeometryFor;
    if viewportWidth <= 0 || viewportHeight <= 0 { return; }
    for i := 0 to |tiles|
      invariant forall j :: 0 <= j < i ==>
        Drawn(tiles[j], GeometryFor(layout, tiles[j].projectId, j), viewportWidth, viewportHeight)
    {
      var g := GeometryFor(layout, tiles[i].projectId, i);
      tiles[i].zIndex := ToOrder(g.order) + 1;
      SetTileRect(tiles[i],
        ToPixels(g.x, viewportWidth, 0.0, MAX_WORKSPACE_POSITION),
        ToPixels(g.y, viewportHeight, 0.0, MAX_WORKSPACE_POSITION),
        ToPixels(g.w, viewportWidth, RENDER_MIN_TILE_WIDTH, MAX_TILE_WIDTH),
        ToPixels(g.h, viewportHeight, RENDER_MIN_TILE_HEIGHT, MAX_TILE_HEIGHT));
    }
  }

  function ReadBack(left: real, top: real, width: real, height: real, order: int,
                    viewportWidth: int, viewportHeight: int): Geometry
    requires viewportWidth > 0 && viewportHeight > 0
  {
    Geometry(ToUnits(left, viewportWidth), ToUnits(top, viewportHeight),
             ToUnits(width, viewportWidth), ToUnits(height, viewportHeight), order)
  }

  function ZIndices(tiles: seq<Tile>): (zs: seq<int>)
    reads tiles
    ensures |zs| == |tiles| && forall i :: 0 <= i < |tiles| ==> zs[i] == tiles[i].zIndex
  {
    seq(|tiles|, i requires 0 <= i < |tiles| reads tiles => tiles[i].zIndex)
  }

  /** Entry `i` of the saved layout is what tile `i` shows, in units, with its stacking position. */
  ghost predicate SavedAs(tiles: seq<Tile>, i: nat, layout: map<string, Entry>,
                          viewportWidth: int, viewportHeight: int)
    requires i < |tiles| && viewportWidth > 0 && viewportHeight > 0
    reads tiles
  {
    var t := tiles[i];
    && t.projectId in layout
    && layout[t.projectId]
         == Full(ReadBack(t.left, t.top, t.width, t.height, Rank(ZIndices(tiles), i), viewportWidth, viewportHeight))
  }

  /** `tileLayoutFromDom` */
  method TileLayoutFromDom(tiles: seq<Tile>, viewportWidth: int, viewportHeight: int)
    returns (layout: map<string, Entry>)
    requires OwnIds(tiles) && viewportWidth > 0 && viewportHeight > 0
    ensures forall id :: id in layout ==> exists i :: 0 <= i < |tiles| && tiles[i].projectId == id
    ensures forall i :: 0 <= i < |tiles| ==> SavedAs(tiles, i, layout, viewportWidth, viewportHeight)
  {
    hide ToUnits, Rank, ReadBack, Full;
    layout := map[];
    var zs := ZIndices(tiles);
    for n := 0 to |tiles|
      invariant forall id :: id in layout ==> exists i :: 0 <= i < n && tiles[i].projectId == id
      invariant forall i :: 0 <= i < n ==> SavedAs(tiles, i, layout, viewportWidth, viewportHeight)
    {
      var t := tiles[n];
      ghost var before := layout;
      layout := layout[t.projectId :=
        Full(ReadBack(t.left, t.top, t.width, t.height, Rank(zs, n), viewportWidth, viewportHeight))];
      forall i | 0 <= i <= n ensures SavedAs(tiles, i, layout, viewportWidth, viewportHeight) {
        if i < n { assert SavedAs(tiles, i, before, viewportWidth, viewportHeight); }
      }
    }
  }

  lemma DrawnReadsBack(t: Tile, g: Geometry, order: int, viewportWidth: int, viewportHeight: int)
    requires viewportWidth > 100 && viewportHeight > 100
    requires Drawn(t, g, viewportWidth, viewportHeight) && Unclamped(g, viewportWidth, viewportHeight)
    ensures ReadBack(t.left, t.top, t.width, t.height, order, viewportWidth, viewportHeight) == g.(order := order)
  {
    hide Clean, ToPixels, ToUnits;
    NoDrift(g.x, viewportWidth, 0.0, MAX_WORKSPACE_POSITION);
    NoDrift(g.y, viewportHeight, 0.0, MAX_WORKSPACE_POSITION);
    NoDrift(g.w, viewportWidth, RENDER_MIN_TILE_WIDTH, MAX_TILE_WIDTH);
    NoDrift(g.h, viewportHeight, RENDER_MIN_TILE_HEIGHT, MAX_TILE_HEIGHT);
  }

  /** The z-indices at which a layout draws these tiles. */
  function LayoutZ(tiles: seq<Tile>, layout: map<string, Entry>): (zs: seq<int>)
    ensures |zs| == |tiles|
    ensures forall i :: 0 <= i < |tiles| ==>
      zs[i] == ToOrder(GeometryFor(layout, tiles[i].projectId, i).order) + 1
  {
    seq(|tiles|, i requires 0 <= i < |tiles| => ToOrder(GeometryFor(layout, tiles[i].projectId, i).order) + 1)
  }

  /** Drawing a layout and saving what is on the page returns the rectangles the tiles were given,
      saved or default, at every viewport the page works with (at least 120 wide and 260 high), and
      orders that number the tiles as they were stacked. */
  method ApplyThenPersist(tiles: seq<Tile>, layout: map<string, Entry>, viewportWidth: int, viewportHeight: int)
    returns (saved: map<string, Entry>)
    requires OwnIds(tiles) && viewportWidth >= 120 && viewportHeight >= 260
    requires forall i :: 0 <= i < |tiles| ==>
      Unclamped(GeometryFor(layout, tiles[i].projectId, i), viewportWidth, viewportHeight)
    modifies tiles
    ensures forall i :: 0 <= i < |tiles| ==> Persisted(tiles, layout, saved, i)
    ensures forall i :: 0 <= i < |tiles| && HasRect(layout, tiles[i].projectId) ==>
      tiles[i].projectId in saved && saved[tiles[i].projectId].rect == layout[tiles[i].projectId].rect
  {
    hide Clean, ToPixels, ToUnits, Unclamped, ReadBack, Rank, ToOrder, GeometryFor;
    ApplyProjectLayout(tiles, layout, viewportWidth, viewportHeight);
    saved := TileLayoutFromDom(tiles, viewportWidth, viewportHeight);
    assert ZIndices(tiles) == LayoutZ(tiles, layout);
    forall i | 0 <= i < |tiles| ensures Persisted(tiles, layout, saved, i) {
      assert SavedAs(tiles, i, saved, viewportWidth, viewportHeight);
      DrawnReadsBack(tiles[i], GeometryFor(layout, tiles[i].projectId, i), Rank(LayoutZ(tiles, layout), i),
                     viewportWidth, viewportHeight);
    }
    forall i | 0 <= i < |tiles| && HasRect(layout, tiles[i].projectId)
      ensures tiles[i].projectId in saved && saved[tiles[i].projectId].rect == layout[tiles[i].projectId].rect
    {
      PersistedRect(tiles, layout, saved, i);
    }
  }

  lemma PersistedRect(tiles: seq<Tile>, layout: map<string, Entry>, saved: map<string, Entry>, i: nat)
    requires i < |tiles| && Persisted(tiles, layout, saved, i) && HasRect(layout, tiles[i].projectId)
    ensures saved[tiles[i].projectId].rect == layout[tiles[i].projectId].rect
  {
  }

  /** Coordinates are saved for the tile. */
  predicate HasRect(layout: map<string, Entry>, id: string) {
    id in layout && layout[id].rect.Some?
  }

  /** Where a tile is drawn: within a twentieth of a pixel of its saved thousandths of the viewport,
      unless a clamp is active, and one above its saved order. */
  lemma DrawnAtSaved(t: Tile, layout: map<string, Entry>, index: nat, viewportWidth: int, viewportHeight: int)
    requires HasRect(layout, t.projectId)
    requires var g := GeometryFor(layout, t.projectId, index);
      Drawn(t, g, viewportWidth, viewportHeight) && Unclamped(g, viewportWidth, viewportHeight)
    ensures var r := layout[t.projectId].rect.value;
      && Near(t.left, Thousandths(r.x, viewportWidth)) && Near(t.top, Thousandths(r.y, viewportHeight))
      && Near(t.width, Thousandths(r.w, viewportWidth)) && Near(t.height, Thousandths(r.h, viewportHeight))
    ensures var order := layout[t.projectId].order;
      order.Some? && 0 <= order.value <= 999 ==> t.zIndex == order.value + 1
  {
    hide Clean, Near, ToPixels, Thousandths;
    var g, r := GeometryFor(layout, t.projectId, index), layout[t.projectId].rect.value;
    assert g.x == r.x && g.y == r.y && g.w == r.w && g.h == r.h;
    PixelsNear(g.x, viewportWidth, 0.0, MAX_WORKSPACE_POSITION);
    PixelsNear(g.y, viewportHeight, 0.0, MAX_WORKSPACE_POSITION);
    PixelsNear(g.w, viewportWidth, RENDER_MIN_TILE_WIDTH, MAX_TILE_WIDTH);
    PixelsNear(g.h, viewportHeight, RENDER_MIN_TILE_HEIGHT, MAX_TILE_HEIGHT);
  }

  lemma PixelsNear(units: int, viewport: int, low: real, high: real)
    requires low <= units as real * (viewport as real / LAYOUT_SCALE) <= high
    ensures Near(Clean(ToPixels(units, viewport, low, high)), Thousandths(units, viewport))
  {
    CleanNear(units as real * (viewport as real / LAYOUT_SCALE));
    hide Clean;
  }

  /** So many thousandths of the viewport, in pixels. */
  function Thousandths(units: int, viewport: int): real {
    units as real * (viewport as real / 1000.0)
  }

  predicate Near(a: real, b: real) {
    -0.05 <= a - b <= 0.05
  }

  /** The entry of tile `i` is the geometry it had in the layout, with its place in the stacking. */
  ghost predicate Persisted(tiles: seq<Tile>, layout: map<string, Entry>, saved: map<string, Entry>, i: nat)
    requires i < |tiles|
  {
    var id := tiles[i].projectId;
    id in saved && saved[id] == Full(GeometryFor(layout, id, i).(order := Rank(LayoutZ(tiles, layout), i)))
  }

  /** What was saved so is drawn the same the next time, and a second round changes nothing at all,
      not even the orders, for up to a thousand tiles. */
  lemma PersistedOrdersStay(tiles: seq<Tile>, layout: map<string, Entry>, saved: map<string, Entry>, i: nat)
    requires i < |tiles| <= MAX_ORDER + 1
    requires forall k :: 0 <= k < |tiles| ==> Persisted(tiles, layout, saved, k)
    ensures var id := tiles[i].projectId;
      && id in saved && Full(GeometryFor(saved, id, i)) == saved[id]
      && Rank(LayoutZ(tiles, saved), i) == GeometryFor(saved, id, i).order
  {
    hide Rank, LayoutZ;
    var zs, ws := LayoutZ(tiles, layout), LayoutZ(tiles, saved);
    forall k | 0 <= k < |tiles| ensures ws[k] == Rank(zs, k) + 1 {
      assert Persisted(tiles, layout, saved, k);
      RanksMeaning(zs, k, k);
    }
    assert Persisted(tiles, layout, saved, i);
    RankOfRanks(zs, ws, i);
  }
}
