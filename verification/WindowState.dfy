/** Stored window state: reading any JSON document back into bounds, and writing it out. */
module WindowState {
  import opened Wrappers
  import opened Json
  import opened AuthorityShape

  const CARD_IDS: seq<string> := ["foxlink", "watch", "journal", "personal", "bzsjk"]
  const TILE_KEYS: seq<string> := ["x", "y", "w", "h", "order"]
  const GRID_KEYS: seq<string> := ["cols", "rows", "order"]
  const STATE_KEYS: seq<string> :=
    ["x", "y", "width", "height", "compact", "on_top", "theme", "project_layout_version", "project_layout",
     "card_layout_version", "card_layout", "card_visibility"]

  // ---------- scalars ----------

  predicate HasProp(v: Value, name: string) {
    v.Obj? && Ascii(name) in Keys(v.fields)
  }

  /** How Python reads a decimal: `int(value)`, and whether the value is zero. */
  datatype Floats = Floats(trunc: Text -> int, isZero: Text -> bool)

  predicate IsNumber(v: Value) {
    v.Num? || v.Dec?
  }

  /** `_coerce_int(value, fallback)`: a boolean is no integer here, and a float is truncated. */
  function CoerceInt(py: Floats, v: Value, fallback: int): int {
    if v.Num? then v.n else if v.Dec? then py.trunc(v.text) else fallback
  }

  function IntProp(py: Floats, v: Value, name: string, fallback: int): int {
    CoerceInt(py, Prop(v, name), fallback)
  }

  /** Python's `a or b` on integers. */
  function Or(a: int, b: int): int {
    if a == 0 then b else a
  }

  function Bound(low: int, high: int, n: int): int {
    var capped := if n < high then n else high;
    if low > capped then low else capped
  }

  /** `bool(value)` */
  predicate Truthy(py: Floats, v: Value) {
    match v
    case Null => false
    case Bool(b) => b
    case Num(n) => n != 0
    case Dec(text) => !py.isZero(text)
    case Str(s) => s != []
    case Arr(items) => items != []
    case Obj(fields) => fields != []
  }

  predicate GoodId(id: Text) {
    0 < |id| <= 64
  }

  // ---------- layouts ----------

  /** The body of `normalize_project_layout` for one tile that arrives when `position` tiles have
      been kept. */
  function NormalTile(py: Floats, tile: Value, position: int): Value {
    var order := Num(Bound(0, 999, Or(IntProp(py, tile, "order", position), 0)));
    if HasProp(tile, "x") || HasProp(tile, "y") || HasProp(tile, "w") || HasProp(tile, "h") then
      Make(TILE_KEYS,
        [Num(Bound(0, 100_000, IntProp(py, tile, "x", 0))), Num(Bound(0, 100_000, IntProp(py, tile, "y", 0))),
         Num(Bound(1, 20_000, Or(IntProp(py, tile, "w", 500), 500))),
         Num(Bound(104, 20_000, Or(IntProp(py, tile, "h", 360), 360))), order])
    else
      Make(GRID_KEYS,
        [Num(Bound(3, 12, Or(IntProp(py, tile, "cols", 6), 6))),
         Num(Bound(1, 3, Or(IntProp(py, tile, "rows", 1), 1))), order])
  }

  predicate IsCard(card: Value) {
    IsNumber(Prop(card, "x")) && IsNumber(Prop(card, "y")) && IsNumber(Prop(card, "w")) && IsNumber(Prop(card, "h"))
  }

  /** The same for `normalize_card_layout`. */
  function NormalCard(py: Floats, card: Value, position: int): Value
    requires IsCard(card)
  {
    Make(TILE_KEYS,
      [Num(Bound(-100_000, 100_000, IntProp(py, card, "x", 0))),
       Num(Bound(-100_000, 100_000, IntProp(py, card, "y", 0))),
       Num(Bound(220, 20_000, IntProp(py, card, "w", 0))), Num(Bound(150, 20_000, IntProp(py, card, "h", 0))),
       Num(Bound(0, 999, Or(IntProp(py, card, "order", position), 0)))])
  }

  function KeepTiles(py: Floats, fields: seq<Field>, kept: seq<Field>): seq<Field>
    decreases |fields|
  {
    if fields == [] then kept
    else KeepTiles(py, fields[1..],
      if GoodId(fields[0].key) && fields[0].value.Obj?
      then kept + [Field(fields[0].key, NormalTile(py, fields[0].value, |kept|))] else kept)
  }

  function KeepCards(py: Floats, fields: seq<Field>, kept: seq<Field>): seq<Field>
    decreases |fields|
  {
    if fields == [] then kept
    else KeepCards(py, fields[1..],
      if GoodId(fields[0].key) && fields[0].value.Obj? && IsCard(fields[0].value)
      then kept + [Field(fields[0].key, NormalCard(py, fields[0].value, |kept|))] else kept)
  }

  function NormalProjectLayout(py: Floats, v: Value): seq<Field> {
    if v.Obj? then KeepTiles(py, v.fields, []) else []
  }

  function NormalCardLayout(py: Floats, v: Value): seq<Field> {
    if v.Obj? then KeepCards(py, v.fields, []) else []
  }

  /** The loop of `normalize_project_layout`. */
  method NormalizeProjectLayout(py: Floats, v: Value) returns (kept: seq<Field>)
    ensures kept == NormalProjectLayout(py, v)
  {
    hide NormalTile;
    kept := [];
    if !v.Obj? { return; }
    for i := 0 to |v.fields|
      invariant KeepTiles(py, v.fields[i..], kept) == NormalProjectLayout(py, v)
    {
      assert v.fields[i..][1..] == v.fields[i + 1..];
      if GoodId(v.fields[i].key) && v.fields[i].value.Obj? {
        kept := kept + [Field(v.fields[i].key, NormalTile(py, v.fields[i].value, |kept|))];
      }
    }
    assert v.fields[|v.fields|..] == [];
  }

  /** The loop of `normalize_card_layout`. */
  method NormalizeCardLayout(py: Floats, v: Value) returns (kept: seq<Field>)
    ensures kept == NormalCardLayout(py, v)
  {
    hide NormalCard, IsCard;
    kept := [];
    if !v.Obj? { return; }
    for i := 0 to |v.fields|
      invariant KeepCards(py, v.fields[i..], kept) == NormalCardLayout(py, v)
    {
      assert v.fields[i..][1..] == v.fields[i + 1..];
      if GoodId(v.fields[i].key) && v.fields[i].value.Obj? && IsCard(v.fields[i].value) {
        kept := kept + [Field(v.fields[i].key, NormalCard(py, v.fields[i].value, |kept|))];
      }
    }
    assert v.fields[|v.fields|..] == [];
  }

  // ---------- visibility ----------

  /** `normalize_card_visibility`, or the migration from the one global bit and hidden list; one
      flag per known card, in order. */
  function Visibility(py: Floats, doc: Value): (flags: seq<bool>)
    ensures |flags| == |CARD_IDS|
  {
    var raw := Prop(doc, "card_visibility");
    seq(|CARD_IDS|, i requires 0 <= i < |CARD_IDS| =>
      if raw.Obj? then Truthy(py, Prop(raw, CARD_IDS[i]))
      else Truthy(py, Prop(doc, "desktop_mode")) && !Hidden(Prop(doc, "hidden_cards"), CARD_IDS[i]))
  }

  /** `normalize_hidden_cards`: known ids, each once, in order of first mention. */
  function KeepHidden(items: seq<Value>, kept: seq<Text>): seq<Text>
    decreases |items|
  {
    if items == [] then kept
    else KeepHidden(items[1..],
      if items[0].Str? && items[0].s in AsciiAll(CARD_IDS) && items[0].s !in kept then kept + [items[0].s] else kept)
  }

  predicate Hidden(list: Value, id: string) {
    list.Arr? && Ascii(id) in KeepHidden(list.items, [])
  }

  lemma {:induction false} KeptHidden(items: seq<Value>, kept: seq<Text>)
    ensures forall id :: id in KeepHidden(items, kept) <==>
      id in kept || (Str(id) in items && id in AsciiAll(CARD_IDS))
    decreases |items|
  {
    if items != [] {
      var take := items[0].Str? && items[0].s in AsciiAll(CARD_IDS) && items[0].s !in kept;
      KeptHidden(items[1..], if take then kept + [items[0].s] else kept);
      assert items == [items[0]] + items[1..];
    }
  }

  // ---------- the whole state ----------

  datatype State = State(
    x: Option<int>, y: Option<int>, width: int, height: int, compact: bool, onTop: bool, theme: Text,
    layoutVersion: int, layout: Option<seq<Field>>, cardLayout: Option<seq<Field>>, visibility: seq<bool>)

  /** `WindowState()` */
  const DEFAULT := State(None, None, 1160, 760, false, false, Ascii("light"), 3, None, None,
                         [false, false, false, false, false])

  function MaybeInt(py: Floats, v: Value): Option<int> {
    if IsNumber(v) then Some(CoerceInt(py, v, 0)) else None
  }

  function AtLeast(low: int, n: int): int {
    if n < low then low else n
  }

  /** `load_state` on a parsed document; None stands for the TypeError that a theme which is an
      array or an object raises when it is looked up in a set. */
  function Load(py: Floats, doc: Value): Option<State> {
    if !doc.Obj? then Some(DEFAULT)
    else if Prop(doc, "theme").Arr? || Prop(doc, "theme").Obj? then None
    else
      var layout := NormalProjectLayout(py, Prop(doc, "project_layout"));
      var cards := NormalCardLayout(py, Prop(doc, "card_layout"));
      var theme := Prop(doc, "theme");
      Some(State(
        MaybeInt(py, Prop(doc, "x")), MaybeInt(py, Prop(doc, "y")),
        AtLeast(360, Or(IntProp(py, doc, "width", 1160), 1160)),
        AtLeast(480, Or(IntProp(py, doc, "height", 760), 760)),
        Truthy(py, Prop(doc, "compact")), Truthy(py, Prop(doc, "on_top")),
        if theme == Label("dark") || theme == Label("light") then theme.s else Ascii("light"),
        if layout == [] then 3 else Bound(1, 3, Or(IntProp(py, doc, "project_layout_version", 1), 1)),
        Some(layout), if cards == [] then None else Some(cards), Visibility(py, doc)))
  }

  function IntOrNull(n: Option<int>): Value {
    if n.Some? then Num(n.value) else Null
  }

  function ObjOrNull(fields: Option<seq<Field>>): Value {
    if fields.Some? then Obj(fields.value) else Null
  }

  function Flags(flags: seq<bool>): (r: seq<Value>)
    ensures |r| == |flags| && forall i :: 0 <= i < |flags| ==> r[i] == Bool(flags[i])
  {
    seq(|flags|, i requires 0 <= i < |flags| => Bool(flags[i]))
  }

  /** The document `save_state` writes. */
  function Saved(s: State): Value
    requires |s.visibility| == |CARD_IDS|
  {
    Make(STATE_KEYS, SavedValues(s))
  }

  function SavedValues(s: State): (values: seq<Value>)
    requires |s.visibility| == |CARD_IDS|
    ensures |values| == |STATE_KEYS|
  {
    [IntOrNull(s.x), IntOrNull(s.y), Num(s.width), Num(s.height), Bool(s.compact), Bool(s.onTop), Str(s.theme),
     Num(s.layoutVersion), ObjOrNull(s.layout), Num(1), ObjOrNull(s.cardLayout),
     Make(CARD_IDS, Flags(s.visibility))]
  }

  // ---------- the normal form ----------

  lemma GoodKeyLists()
    ensures GoodNames(TILE_KEYS) && GoodNames(GRID_KEYS) && GoodNames(CARD_IDS)
  {
    GoodNamesFromStrings(TILE_KEYS);
    GoodNamesFromStrings(GRID_KEYS);
    GoodNamesFromStrings(CARD_IDS);
  }

  lemma TileProps(x: Value, y: Value, w: Value, h: Value, order: Value)
    ensures var t := Make(TILE_KEYS, [x, y, w, h, order]);
      && HasProp(t, "x") && Prop(t, "x") == x && Prop(t, "y") == y && Prop(t, "w") == w && Prop(t, "h") == h
      && Prop(t, "order") == order
  {
    var values := [x, y, w, h, order];
    var t := Make(TILE_KEYS, values);
    GoodKeyLists();
    MakeProps(TILE_KEYS, values);
    assert TILE_KEYS[0] == "x" && TILE_KEYS[1] == "y" && TILE_KEYS[2] == "w" && TILE_KEYS[3] == "h"
        && TILE_KEYS[4] == "order";
    assert Prop(t, TILE_KEYS[0]) == x && Prop(t, TILE_KEYS[1]) == y && Prop(t, TILE_KEYS[2]) == w
        && Prop(t, TILE_KEYS[3]) == h && Prop(t, TILE_KEYS[4]) == order;
    assert AsciiAll(TILE_KEYS)[0] == Ascii("x");
  }

  lemma GridProps(cols: Value, rows: Value, order: Value)
    ensures var t := Make(GRID_KEYS, [cols, rows, order]);
      && !HasProp(t, "x") && !HasProp(t, "y") && !HasProp(t, "w") && !HasProp(t, "h")
      && Prop(t, "cols") == cols && Prop(t, "rows") == rows && Prop(t, "order") == order
  {
    var values := [cols, rows, order];
    var t := Make(GRID_KEYS, values);
    GoodKeyLists();
    MakeProps(GRID_KEYS, values);
    assert GRID_KEYS[0] == "cols" && GRID_KEYS[1] == "rows" && GRID_KEYS[2] == "order";
    assert Prop(t, GRID_KEYS[0]) == cols && Prop(t, GRID_KEYS[1]) == rows && Prop(t, GRID_KEYS[2]) == order;
    forall i | 0 <= i < |GRID_KEYS| ensures |AsciiAll(GRID_KEYS)[i]| >= 4 { }
    assert |Ascii("x")| == 1 && |Ascii("y")| == 1 && |Ascii("w")| == 1 && |Ascii("h")| == 1;
  }

  lemma FreeTileStable(py: Floats, x: int, y: int, w: int, h: int, order: int, position: int)
    requires 0 <= x <= 100_000 && 0 <= y <= 100_000 && 1 <= w <= 20_000 && 104 <= h <= 20_000 && 0 <= order <= 999
    ensures var t := Make(TILE_KEYS, [Num(x), Num(y), Num(w), Num(h), Num(order)]); NormalTile(py, t, position) == t
  {
    hide Prop, HasProp, Make;
    TileProps(Num(x), Num(y), Num(w), Num(h), Num(order));
  }

  lemma GridTileStable(py: Floats, cols: int, rows: int, order: int, position: int)
    requires 3 <= cols <= 12 && 1 <= rows <= 3 && 0 <= order <= 999
    ensures var t := Make(GRID_KEYS, [Num(cols), Num(rows), Num(order)]); NormalTile(py, t, position) == t
  {
    hide Prop, HasProp, Make;
    GridProps(Num(cols), Num(rows), Num(order));
  }

  /** A normalised tile is left alone, wherever in the layout it stands. */
  lemma NormalTileStable(py: Floats, tile: Value, position: int, other: int)
    ensures NormalTile(py, tile, position).Obj?
    ensures NormalTile(py, NormalTile(py, tile, position), other) == NormalTile(py, tile, position)
  {
    hide Prop, HasProp, Make;
    var order := Bound(0, 999, Or(IntProp(py, tile, "order", position), 0));
    if HasProp(tile, "x") || HasProp(tile, "y") || HasProp(tile, "w") || HasProp(tile, "h") {
      var x, y := Bound(0, 100_000, IntProp(py, tile, "x", 0)), Bound(0, 100_000, IntProp(py, tile, "y", 0));
      var w := Bound(1, 20_000, Or(IntProp(py, tile, "w", 500), 500));
      var h := Bound(104, 20_000, Or(IntProp(py, tile, "h", 360), 360));
      FreeTileStable(py, x, y, w, h, order, other);
    } else {
      var cols := Bound(3, 12, Or(IntProp(py, tile, "cols", 6), 6));
      var rows := Bound(1, 3, Or(IntProp(py, tile, "rows", 1), 1));
      GridTileStable(py, cols, rows, order, other);
    }
  }

  lemma NormalCardStable(py: Floats, card: Value, position: int, other: int)
    requires IsCard(card)
    ensures NormalCard(py, card, position).Obj? && IsCard(NormalCard(py, card, position))
    ensures NormalCard(py, NormalCard(py, card, position), other) == NormalCard(py, card, position)
  {
    hide Prop, HasProp, Make;
    TileProps(
      Num(Bound(-100_000, 100_000, IntProp(py, card, "x", 0))),
      Num(Bound(-100_000, 100_000, IntProp(py, card, "y", 0))),
      Num(Bound(220, 20_000, IntProp(py, card, "w", 0))), Num(Bound(150, 20_000, IntProp(py, card, "h", 0))),
      Num(Bound(0, 999, Or(IntProp(py, card, "order", position), 0))));
  }

  // ---------- bounds ----------

  predicate InRange(v: Value, low: int, high: int) {
    v.Num? && low <= v.n <= high
  }

  /** A tile placed freely, or one placed on the old grid. */
  predicate BoundedTile(t: Value) {
    && InRange(Prop(t, "order"), 0, 999)
    && if HasProp(t, "x") then
         && InRange(Prop(t, "x"), 0, 100_000) && InRange(Prop(t, "y"), 0, 100_000)
         && InRange(Prop(t, "w"), 1, 20_000) && InRange(Prop(t, "h"), 104, 20_000)
       else InRange(Prop(t, "cols"), 3, 12) && InRange(Prop(t, "rows"), 1, 3)
  }

  predicate BoundedCard(t: Value) {
    && InRange(Prop(t, "order"), 0, 999)
    && InRange(Prop(t, "x"), -100_000, 100_000) && InRange(Prop(t, "y"), -100_000, 100_000)
    && InRange(Prop(t, "w"), 220, 20_000) && InRange(Prop(t, "h"), 150, 20_000)
  }

  lemma NormalTileBounded(py: Floats, tile: Value, position: int)
    ensures BoundedTile(NormalTile(py, tile, position))
  {
    hide Prop, HasProp, Make;
    var order := Num(Bound(0, 999, Or(IntProp(py, tile, "order", position), 0)));
    TileProps(
      Num(Bound(0, 100_000, IntProp(py, tile, "x", 0))), Num(Bound(0, 100_000, IntProp(py, tile, "y", 0))),
      Num(Bound(1, 20_000, Or(IntProp(py, tile, "w", 500), 500))),
      Num(Bound(104, 20_000, Or(IntProp(py, tile, "h", 360), 360))), order);
    GridProps(
      Num(Bound(3, 12, Or(IntProp(py, tile, "cols", 6), 6))),
      Num(Bound(1, 3, Or(IntProp(py, tile, "rows", 1), 1))), order);
  }

  lemma NormalCardBounded(py: Floats, card: Value, position: int)
    requires IsCard(card)
    ensures BoundedCard(NormalCard(py, card, position))
  {
    hide Prop, HasProp, Make;
    TileProps(
      Num(Bound(-100_000, 100_000, IntProp(py, card, "x", 0))),
      Num(Bound(-100_000, 100_000, IntProp(py, card, "y", 0))),
      Num(Bound(220, 20_000, IntProp(py, card, "w", 0))), Num(Bound(150, 20_000, IntProp(py, card, "h", 0))),
      Num(Bound(0, 999, Or(IntProp(py, card, "order", position), 0))));
  }

  ghost predicate TilesBounded(kept: seq<Field>) {
    forall i :: 0 <= i < |kept| ==> GoodId(kept[i].key) && BoundedTile(kept[i].value)
  }

  ghost predicate CardsBounded(kept: seq<Field>) {
    forall i :: 0 <= i < |kept| ==> GoodId(kept[i].key) && BoundedCard(kept[i].value)
  }

  lemma {:induction false} KeptTilesBounded(py: Floats, fields: seq<Field>, kept: seq<Field>)
    requires TilesBounded(kept)
    ensures TilesBounded(KeepTiles(py, fields, kept))
    decreases |fields|
  {
    hide NormalTile, BoundedTile;
    if fields != [] {
      var f := fields[0];
      NormalTileBounded(py, f.value, |kept|);
      KeptTilesBounded(py, fields[1..],
        if GoodId(f.key) && f.value.Obj? then kept + [Field(f.key, NormalTile(py, f.value, |kept|))] else kept);
    }
  }

  lemma {:induction false} KeptCardsBounded(py: Floats, fields: seq<Field>, kept: seq<Field>)
    requires CardsBounded(kept)
    ensures CardsBounded(KeepCards(py, fields, kept))
    decreases |fields|
  {
    hide NormalCard, BoundedCard, IsCard;
    if fields != [] {
      var f := fields[0];
      if GoodId(f.key) && f.value.Obj? && IsCard(f.value) {
        NormalCardBounded(py, f.value, |kept|);
        KeptCardsBounded(py, fields[1..], kept + [Field(f.key, NormalCard(py, f.value, |kept|))]);
      } else {
        KeptCardsBounded(py, fields[1..], kept);
      }
    }
  }

  /** Whatever the stored document holds, what is loaded is in bounds: the window, the theme, the
      layout version, and every tile and card that is kept. */
  lemma LoadedIsBounded(py: Floats, doc: Value)
    requires Load(py, doc).Some?
    ensures var s := Load(py, doc).value;
      && s.width >= 360 && s.height >= 480
      && (s.theme == Ascii("light") || s.theme == Ascii("dark"))
      && 1 <= s.layoutVersion <= 3
      && (s.layout.Some? ==> TilesBounded(s.layout.value))
      && (s.cardLayout.Some? ==> s.cardLayout.value != [] && CardsBounded(s.cardLayout.value))
  {
    hide Prop, KeepTiles, KeepCards, TilesBounded, CardsBounded;
    EmptyBounded();
    var layout, cards := Prop(doc, "project_layout"), Prop(doc, "card_layout");
    if layout.Obj? { KeptTilesBounded(py, layout.fields, []); }
    if cards.Obj? { KeptCardsBounded(py, cards.fields, []); }
  }

  lemma EmptyBounded()
    ensures TilesBounded([]) && CardsBounded([])
  {
  }

  /** Every kept tile is in normal form under a good id. */
  ghost predicate TilesNormal(py: Floats, kept: seq<Field>) {
    forall i :: 0 <= i < |kept| ==>
      GoodId(kept[i].key) && kept[i].value.Obj? && forall p: nat :: NormalTile(py, kept[i].value, p) == kept[i].value
  }

  ghost predicate CardsNormal(py: Floats, kept: seq<Field>) {
    forall i :: 0 <= i < |kept| ==>
      GoodId(kept[i].key) && kept[i].value.Obj? && IsCard(kept[i].value)
      && forall p: nat :: NormalCard(py, kept[i].value, p) == kept[i].value
  }

  lemma {:induction false} KeptTilesNormal(py: Floats, fields: seq<Field>, kept: seq<Field>)
    requires TilesNormal(py, kept)
    ensures TilesNormal(py, KeepTiles(py, fields, kept))
    decreases |fields|
  {
    hide NormalTile;
    if fields != [] {
      var f := fields[0];
      if GoodId(f.key) && f.value.Obj? {
        forall p: nat ensures NormalTile(py, NormalTile(py, f.value, |kept|), p) == NormalTile(py, f.value, |kept|) {
          NormalTileStable(py, f.value, |kept|, p);
        }
        NormalTileStable(py, f.value, |kept|, 0);
        KeptTilesNormal(py, fields[1..], kept + [Field(f.key, NormalTile(py, f.value, |kept|))]);
      } else {
        KeptTilesNormal(py, fields[1..], kept);
      }
    }
  }

  lemma {:induction false} KeptCardsNormal(py: Floats, fields: seq<Field>, kept: seq<Field>)
    requires CardsNormal(py, kept)
    ensures CardsNormal(py, KeepCards(py, fields, kept))
    decreases |fields|
  {
    hide NormalCard, IsCard;
    if fields != [] {
      var f := fields[0];
      if GoodId(f.key) && f.value.Obj? && IsCard(f.value) {
        forall p: nat
          ensures IsCard(NormalCard(py, f.value, |kept|))
               && NormalCard(py, NormalCard(py, f.value, |kept|), p) == NormalCard(py, f.value, |kept|)
        {
          NormalCardStable(py, f.value, |kept|, p);
        }
        NormalCardStable(py, f.value, |kept|, 0);
        KeptCardsNormal(py, fields[1..], kept + [Field(f.key, NormalCard(py, f.value, |kept|))]);
      } else {
        KeptCardsNormal(py, fields[1..], kept);
      }
    }
  }

  lemma {:induction false} KeepTilesOfNormal(py: Floats, fields: seq<Field>, kept: seq<Field>)
    requires TilesNormal(py, fields)
    ensures KeepTiles(py, fields, kept) == kept + fields
    decreases |fields|
  {
    hide NormalTile;
    if fields != [] {
      assert NormalTile(py, fields[0].value, |kept|) == fields[0].value;
      KeepTilesOfNormal(py, fields[1..], kept + [fields[0]]);
      assert fields == [fields[0]] + fields[1..];
    }
  }

  lemma {:induction false} KeepCardsOfNormal(py: Floats, fields: seq<Field>, kept: seq<Field>)
    requires CardsNormal(py, fields)
    ensures KeepCards(py, fields, kept) == kept + fields
    decreases |fields|
  {
    hide NormalCard, IsCard;
    if fields != [] {
      assert NormalCard(py, fields[0].value, |kept|) == fields[0].value;
      KeepCardsOfNormal(py, fields[1..], kept + [fields[0]]);
      assert fields == [fields[0]] + fields[1..];
    }
  }

  /** Both layout normalisers are idempotent. */
  lemma LayoutsIdempotent(py: Floats, v: Value)
    ensures NormalProjectLayout(py, Obj(NormalProjectLayout(py, v))) == NormalProjectLayout(py, v)
    ensures NormalCardLayout(py, Obj(NormalCardLayout(py, v))) == NormalCardLayout(py, v)
  {
    hide NormalTile, NormalCard, IsCard;
    if v.Obj? {
      KeptTilesNormal(py, v.fields, []);
      KeptCardsNormal(py, v.fields, []);
    }
    KeepTilesOfNormal(py, NormalProjectLayout(py, v), []);
    KeepCardsOfNormal(py, NormalCardLayout(py, v), []);
  }

  lemma SavedProps(s: State, i: nat)
    requires |s.visibility| == |CARD_IDS| && i < |STATE_KEYS|
    ensures Prop(Saved(s), STATE_KEYS[i]) == SavedValues(s)[i]
  {
    GoodNamesFromStrings(STATE_KEYS);
    MakeProps(STATE_KEYS, SavedValues(s));
  }

  lemma SavedFields(s: State)
    requires |s.visibility| == |CARD_IDS|
    ensures var d := Saved(s);
      && Prop(d, "x") == IntOrNull(s.x) && Prop(d, "y") == IntOrNull(s.y)
      && Prop(d, "width") == Num(s.width) && Prop(d, "height") == Num(s.height)
      && Prop(d, "compact") == Bool(s.compact) && Prop(d, "on_top") == Bool(s.onTop)
      && Prop(d, "theme") == Str(s.theme) && Prop(d, "project_layout_version") == Num(s.layoutVersion)
      && Prop(d, "project_layout") == ObjOrNull(s.layout) && Prop(d, "card_layout") == ObjOrNull(s.cardLayout)
      && Prop(d, "card_visibility") == Make(CARD_IDS, Flags(s.visibility))
  {
    hide Prop, Saved, Make;
    forall i: nat | i < |STATE_KEYS| ensures Prop(Saved(s), STATE_KEYS[i]) == SavedValues(s)[i] { SavedProps(s, i); }
    assert STATE_KEYS[0] == "x" && STATE_KEYS[1] == "y" && STATE_KEYS[2] == "width" && STATE_KEYS[3] == "height"
        && STATE_KEYS[4] == "compact" && STATE_KEYS[5] == "on_top" && STATE_KEYS[6] == "theme"
        && STATE_KEYS[7] == "project_layout_version" && STATE_KEYS[8] == "project_layout"
        && STATE_KEYS[10] == "card_layout" && STATE_KEYS[11] == "card_visibility";
  }

  lemma VisibilityReadsBack(py: Floats, d: Value, flags: seq<bool>)
    requires |flags| == |CARD_IDS| && Prop(d, "card_visibility") == Make(CARD_IDS, Flags(flags))
    ensures Visibility(py, d) == flags
  {
    GoodKeyLists();
    MakeProps(CARD_IDS, Flags(flags));
  }

  /** Window state has a normal form.  What is loaded from any document that is an object survives
      saving and loading unchanged; from anything else the defaults are loaded, which do not: they
      come back with an empty project layout in place of none. */
  lemma LoadedIsFixedPoint(py: Floats, doc: Value)
    requires Load(py, doc).Some?
    ensures Load(py, Saved(Load(py, doc).value)) == Load(py, doc) <==> doc.Obj?
    ensures !doc.Obj? ==> Load(py, Saved(Load(py, doc).value)) == Some(Load(py, doc).value.(layout := Some([])))
  {
    hide Prop, Make, Saved, KeepTiles, KeepCards, Visibility;
    var s := Load(py, doc).value;
    SavedIsObject(s);
    SavedFields(s);
    VisibilityReadsBack(py, Saved(s), s.visibility);
    LayoutsIdempotent(py, Prop(doc, "project_layout"));
    LayoutsIdempotent(py, Prop(doc, "card_layout"));
    NothingKept(py);
    assert Label("light") == Str(Ascii("light"));
  }

  lemma SavedIsObject(s: State)
    requires |s.visibility| == |CARD_IDS|
    ensures Saved(s).Obj?
  {
  }

  lemma NothingKept(py: Floats)
    ensures NormalProjectLayout(py, Null) == [] && NormalCardLayout(py, Null) == []
    ensures NormalProjectLayout(py, Obj([])) == []
  {
  }

  /** Migration from the old global bit and hidden list keeps exactly the cards that were visible:
      those not hidden while the desktop mode was on. */
  lemma MigrationKeepsVisible(py: Floats, doc: Value, i: nat)
    requires i < |CARD_IDS| && !Prop(doc, "card_visibility").Obj?
    ensures Visibility(py, doc)[i]
       <==> Truthy(py, Prop(doc, "desktop_mode"))
            && !(Prop(doc, "hidden_cards").Arr? && Str(Ascii(CARD_IDS[i])) in Prop(doc, "hidden_cards").items)
  {
    var list := Prop(doc, "hidden_cards");
    if list.Arr? { KeptHidden(list.items, []); }
    assert AsciiAll(CARD_IDS)[i] == Ascii(CARD_IDS[i]);
  }

  // ---------- what the user has arranged ----------

  datatype Tile = Free(x: int, y: int, w: int, h: int, order: int) | Grid(cols: int, rows: int, order: int)

  datatype Card = Card(x: int, y: int, w: int, h: int, order: int)

  datatype Placed<T> = Placed(id: Text, at: T)

  /** What is on the screen. */
  datatype Screen = Screen(
    x: Option<int>, y: Option<int>, width: int, height: int, compact: bool, onTop: bool, dark: bool,
    layoutVersion: int, tiles: seq<Placed<Tile>>, cards: seq<Placed<Card>>, visibility: seq<bool>)

  predicate TileInBounds(t: Tile) {
    && 0 <= t.order <= 999
    && match t
       case Free(x, y, w, h, _) => 0 <= x <= 100_000 && 0 <= y <= 100_000 && 1 <= w <= 20_000 && 104 <= h <= 20_000
       case Grid(cols, rows, _) => 3 <= cols <= 12 && 1 <= rows <= 3
  }

  predicate CardInBounds(c: Card) {
    && 0 <= c.order <= 999 && -100_000 <= c.x <= 100_000 && -100_000 <= c.y <= 100_000
    && 220 <= c.w <= 20_000 && 150 <= c.h <= 20_000
  }

  ghost predicate InBounds(s: Screen) {
    && s.width >= 360 && s.height >= 480 && |s.visibility| == 5
    && (if s.tiles == [] then s.layoutVersion == 3 else 1 <= s.layoutVersion <= 3)
    && (forall i :: 0 <= i < |s.tiles| ==> 0 < |s.tiles[i].id| <= 64 && TileInBounds(s.tiles[i].at))
    && forall i :: 0 <= i < |s.cards| ==> 0 < |s.cards[i].id| <= 64 && CardInBounds(s.cards[i].at)
  }

  function TileValue(t: Tile): Value {
    match t
    case Free(x, y, w, h, order) => Make(["x", "y", "w", "h", "order"], [Num(x), Num(y), Num(w), Num(h), Num(order)])
    case Grid(cols, rows, order) => Make(["cols", "rows", "order"], [Num(cols), Num(rows), Num(order)])
  }

  function CardValue(c: Card): Value {
    Make(["x", "y", "w", "h", "order"], [Num(c.x), Num(c.y), Num(c.w), Num(c.h), Num(c.order)])
  }

  function TileFields(tiles: seq<Placed<Tile>>): (r: seq<Field>)
    ensures |r| == |tiles| && forall i :: 0 <= i < |r| ==> r[i] == Field(tiles[i].id, TileValue(tiles[i].at))
  {
    seq(|tiles|, i requires 0 <= i < |tiles| => Field(tiles[i].id, TileValue(tiles[i].at)))
  }

  function CardFields(cards: seq<Placed<Card>>): (r: seq<Field>)
    ensures |r| == |cards| && forall i :: 0 <= i < |r| ==> r[i] == Field(cards[i].id, CardValue(cards[i].at))
  {
    seq(|cards|, i requires 0 <= i < |cards| => Field(cards[i].id, CardValue(cards[i].at)))
  }

  /** The state that describes the screen. */
  function StateOf(s: Screen): State {
    State(s.x, s.y, s.width, s.height, s.compact, s.onTop, Ascii(if s.dark then "dark" else "light"), s.layoutVersion,
          Some(TileFields(s.tiles)), if s.cards == [] then None else Some(CardFields(s.cards)), s.visibility)
  }

  lemma CardStable(py: Floats, c: Card, position: int)
    requires CardInBounds(c)
    ensures CardValue(c).Obj? && IsCard(CardValue(c)) && NormalCard(py, CardValue(c), position) == CardValue(c)
  {
    hide Prop, HasProp, Make;
    TileProps(Num(c.x), Num(c.y), Num(c.w), Num(c.h), Num(c.order));
  }

  lemma TilesKept(py: Floats, tiles: seq<Placed<Tile>>)
    requires forall i :: 0 <= i < |tiles| ==> 0 < |tiles[i].id| <= 64 && TileInBounds(tiles[i].at)
    ensures NormalProjectLayout(py, Obj(TileFields(tiles))) == TileFields(tiles)
  {
    hide Make, NormalTile;
    forall i, p: nat | 0 <= i < |tiles| ensures NormalTile(py, TileValue(tiles[i].at), p) == TileValue(tiles[i].at) {
      match tiles[i].at
      case Free(x, y, w, h, order) => FreeTileStable(py, x, y, w, h, order, p);
      case Grid(cols, rows, order) => GridTileStable(py, cols, rows, order, p);
    }
    KeepTilesOfNormal(py, TileFields(tiles), []);
  }

  lemma CardsKept(py: Floats, cards: seq<Placed<Card>>)
    requires forall i :: 0 <= i < |cards| ==> 0 < |cards[i].id| <= 64 && CardInBounds(cards[i].at)
    ensures NormalCardLayout(py, Obj(CardFields(cards))) == CardFields(cards)
  {
    hide Make, NormalCard, CardValue, IsCard;
    forall i | 0 <= i < |cards| ensures CardValue(cards[i].at).Obj? && IsCard(CardValue(cards[i].at)) {
      CardStable(py, cards[i].at, 0);
    }
    forall i, p: nat | 0 <= i < |cards| ensures NormalCard(py, CardValue(cards[i].at), p) == CardValue(cards[i].at) {
      CardStable(py, cards[i].at, p);
    }
    KeepCardsOfNormal(py, CardFields(cards), []);
  }

  /** Whatever the user has arranged within bounds is there again at the next start: what is saved of
      it is loaded back exactly. */
  lemma ScreenComesBack(py: Floats, s: Screen)
    requires InBounds(s)
    ensures Load(py, Saved(StateOf(s))) == Some(StateOf(s))
  {
    hide Prop, Make, Saved, KeepTiles, KeepCards, Visibility, TileFields, CardFields, NormalProjectLayout,
         NormalCardLayout;
    SavedIsObject(StateOf(s));
    SavedFields(StateOf(s));
    VisibilityReadsBack(py, Saved(StateOf(s)), s.visibility);
    TilesKept(py, s.tiles);
    CardsKept(py, s.cards);
    NothingKept(py);
    FieldCounts(s);
    assert Label("light") == Str(Ascii("light")) && Label("dark") == Str(Ascii("dark"));
  }

  lemma FieldCounts(s: Screen)
    ensures TileFields(s.tiles) == [] <==> s.tiles == []
    ensures CardFields(s.cards) == [] <==> s.cards == []
  {
  }

  // ---------- what becomes of values out of bounds ----------

  /** `v` stands for the number nearest to `n` among those from `low` to `high`. */
  predicate Clamped(v: Value, low: int, high: int, n: int) {
    v == Num(if n < low then low else if n > high then high else n)
  }

  /** What is read where a number belongs: anything else counts as absent. */
  predicate Reads(py: Floats, v: Value, n: int) {
    match v
    case Num(k) => n == k
    case Dec(text) => n == py.trunc(text)
    case _ => false
  }

  /** What Python takes for false. */
  predicate Falsy(py: Floats, v: Value) {
    || v in {Null, Bool(false), Num(0), Str([]), Arr([]), Obj([])}
    || (v.Dec? && py.isZero(v.text))
  }

  predicate FourNumbers(v: Value) {
    forall name :: name in {"x", "y", "w", "h"} ==> Prop(v, name).Num? || Prop(v, name).Dec?
  }

  /** Some member is an object under this id, which has 1 to 64 units. */
  ghost predicate HoldsObject(fields: seq<Field>, id: Text, card: bool) {
    0 < |id| <= 64
    && exists i :: 0 <= i < |fields| && fields[i].key == id && fields[i].value.Obj?
                && (card ==> FourNumbers(fields[i].value))
  }

  lemma {:induction false} KeptTileIds(py: Floats, fields: seq<Field>, kept: seq<Field>)
    ensures forall id :: id in Keys(KeepTiles(py, fields, kept)) <==> id in Keys(kept) || HoldsObject(fields, id, false)
    decreases |fields|
  {
    hide NormalTile;
    if fields != [] {
      var f := fields[0];
      var kept' :=
        if GoodId(f.key) && f.value.Obj? then kept + [Field(f.key, NormalTile(py, f.value, |kept|))] else kept;
      KeptTileIds(py, fields[1..], kept');
      forall id ensures HoldsObject(fields, id, false)
        <==> HoldsObject(fields[1..], id, false) || (id == f.key && GoodId(id) && f.value.Obj?)
      {
        HoldsStep(fields, id, false);
      }
      MoreKeys(kept, f.key, NormalTile(py, f.value, |kept|));
    }
  }

  lemma MoreKeys(kept: seq<Field>, key: Text, value: Value)
    ensures forall id :: id in Keys(kept + [Field(key, value)]) <==> id in Keys(kept) || id == key
  {
    var more := kept + [Field(key, value)];
    assert Keys(more) == Keys(kept) + [key];
  }

  lemma HoldsStep(fields: seq<Field>, id: Text, card: bool)
    requires fields != []
    ensures var f := fields[0];
      HoldsObject(fields, id, card)
      <==> || HoldsObject(fields[1..], id, card)
           || (id == f.key && 0 < |id| <= 64 && f.value.Obj? && (card ==> FourNumbers(f.value)))
  {
    hide FourNumbers;
    if HoldsObject(fields[1..], id, card) {
      var i :| 0 <= i < |fields[1..]| && fields[1..][i].key == id && fields[1..][i].value.Obj?
            && (card ==> FourNumbers(fields[1..][i].value));
      assert fields[i + 1] == fields[1..][i];
    }
    if HoldsObject(fields, id, card) {
      var i :| 0 <= i < |fields| && fields[i].key == id && fields[i].value.Obj?
            && (card ==> FourNumbers(fields[i].value));
      if i > 0 { assert fields[1..][i - 1] == fields[i]; }
    }
  }

  lemma {:induction false} KeptCardIds(py: Floats, fields: seq<Field>, kept: seq<Field>)
    ensures forall id :: id in Keys(KeepCards(py, fields, kept)) <==> id in Keys(kept) || HoldsObject(fields, id, true)
    decreases |fields|
  {
    hide NormalCard, IsCard, FourNumbers;
    if fields != [] {
      var f := fields[0];
      CardNumbers(f.value);
      if GoodId(f.key) && f.value.Obj? && IsCard(f.value) {
        KeptCardIds(py, fields[1..], kept + [Field(f.key, NormalCard(py, f.value, |kept|))]);
        MoreKeys(kept, f.key, NormalCard(py, f.value, |kept|));
      } else {
        KeptCardIds(py, fields[1..], kept);
      }
      forall id { HoldsStep(fields, id, true); }
    }
  }

  lemma CardNumbers(v: Value)
    ensures IsCard(v) <==> FourNumbers(v)
  {
  }

  /** Which tiles and cards are kept: every object under an id of 1 to 64 units, for cards if its four
      coordinates are numbers. */
  lemma KeptExactly(py: Floats, doc: Value, id: Text)
    requires Load(py, doc).Some? && doc.Obj?
    ensures var s := Load(py, doc).value;
      var tiles, cards := Prop(doc, "project_layout"), Prop(doc, "card_layout");
      && s.layout.Some?
      && (id in Keys(s.layout.value) <==> tiles.Obj? && HoldsObject(tiles.fields, id, false))
      && (s.cardLayout.Some? && id in Keys(s.cardLayout.value) <==> cards.Obj? && HoldsObject(cards.fields, id, true))
  {
    hide Prop, KeepTiles, KeepCards, Visibility, HoldsObject;
    var tiles, cards := Prop(doc, "project_layout"), Prop(doc, "card_layout");
    if tiles.Obj? { KeptTileIds(py, tiles.fields, []); }
    if cards.Obj? { KeptCardIds(py, cards.fields, []); }
  }

  /** A freely placed tile of any document is moved to the nearest place in bounds, with width 500 and
      height 360 where none, or zero, is given. */
  lemma FreeTileClamped(py: Floats, tile: Value, position: int, n: int)
    requires HasProp(tile, "x") || HasProp(tile, "y") || HasProp(tile, "w") || HasProp(tile, "h")
    ensures var t := NormalTile(py, tile, position);
      && (Reads(py, Prop(tile, "x"), n) ==> Clamped(Prop(t, "x"), 0, 100_000, n))
      && (Reads(py, Prop(tile, "y"), n) ==> Clamped(Prop(t, "y"), 0, 100_000, n))
      && (Reads(py, Prop(tile, "w"), n) ==> Clamped(Prop(t, "w"), 1, 20_000, if n == 0 then 500 else n))
      && (Reads(py, Prop(tile, "h"), n) ==> Clamped(Prop(t, "h"), 104, 20_000, if n == 0 then 360 else n))
      && (Reads(py, Prop(tile, "order"), n) ==> Clamped(Prop(t, "order"), 0, 999, n))
      && (!IsNumber(Prop(tile, "x")) ==> Prop(t, "x") == Num(0))
      && (!IsNumber(Prop(tile, "y")) ==> Prop(t, "y") == Num(0))
      && (!IsNumber(Prop(tile, "w")) ==> Prop(t, "w") == Num(500))
      && (!IsNumber(Prop(tile, "h")) ==> Prop(t, "h") == Num(360))
      && (!IsNumber(Prop(tile, "order")) ==> Clamped(Prop(t, "order"), 0, 999, position))
  {
    hide Prop, HasProp, Make;
    TileProps(
      Num(Bound(0, 100_000, IntProp(py, tile, "x", 0))), Num(Bound(0, 100_000, IntProp(py, tile, "y", 0))),
      Num(Bound(1, 20_000, Or(IntProp(py, tile, "w", 500), 500))),
      Num(Bound(104, 20_000, Or(IntProp(py, tile, "h", 360), 360))),
      Num(Bound(0, 999, Or(IntProp(py, tile, "order", position), 0))));
  }

  /** A tile of the old grid likewise, with six columns and one row where none, or zero, is given. */
  lemma GridTileClamped(py: Floats, tile: Value, position: int, n: int)
    requires !HasProp(tile, "x") && !HasProp(tile, "y") && !HasProp(tile, "w") && !HasProp(tile, "h")
    ensures var t := NormalTile(py, tile, position);
      && (Reads(py, Prop(tile, "cols"), n) ==> Clamped(Prop(t, "cols"), 3, 12, if n == 0 then 6 else n))
      && (Reads(py, Prop(tile, "rows"), n) ==> Clamped(Prop(t, "rows"), 1, 3, if n == 0 then 1 else n))
      && (Reads(py, Prop(tile, "order"), n) ==> Clamped(Prop(t, "order"), 0, 999, n))
      && (!IsNumber(Prop(tile, "cols")) ==> Prop(t, "cols") == Num(6))
      && (!IsNumber(Prop(tile, "rows")) ==> Prop(t, "rows") == Num(1))
      && (!IsNumber(Prop(tile, "order")) ==> Clamped(Prop(t, "order"), 0, 999, position))
  {
    hide Prop, HasProp, Make;
    GridProps(
      Num(Bound(3, 12, Or(IntProp(py, tile, "cols", 6), 6))),
      Num(Bound(1, 3, Or(IntProp(py, tile, "rows", 1), 1))),
      Num(Bound(0, 999, Or(IntProp(py, tile, "order", position), 0))));
  }

  /** And a card. */
  lemma CardClamped(py: Floats, card: Value, position: int, n: int)
    requires IsCard(card)
    ensures var t := NormalCard(py, card, position);
      && (Reads(py, Prop(card, "x"), n) ==> Clamped(Prop(t, "x"), -100_000, 100_000, n))
      && (Reads(py, Prop(card, "y"), n) ==> Clamped(Prop(t, "y"), -100_000, 100_000, n))
      && (Reads(py, Prop(card, "w"), n) ==> Clamped(Prop(t, "w"), 220, 20_000, n))
      && (Reads(py, Prop(card, "h"), n) ==> Clamped(Prop(t, "h"), 150, 20_000, n))
      && (Reads(py, Prop(card, "order"), n) ==> Clamped(Prop(t, "order"), 0, 999, n))
      && (!IsNumber(Prop(card, "order")) ==> Clamped(Prop(t, "order"), 0, 999, position))
  {
    hide Prop, HasProp, Make;
    TileProps(
      Num(Bound(-100_000, 100_000, IntProp(py, card, "x", 0))),
      Num(Bound(-100_000, 100_000, IntProp(py, card, "y", 0))),
      Num(Bound(220, 20_000, IntProp(py, card, "w", 0))), Num(Bound(150, 20_000, IntProp(py, card, "h", 0))),
      Num(Bound(0, 999, Or(IntProp(py, card, "order", position), 0))));
  }

  /** A card's own flag decides once there is one for any card. */
  lemma FlagDecides(py: Floats, doc: Value, i: nat)
    requires i < 5 && Prop(doc, "card_visibility").Obj?
    ensures var id := ["foxlink", "watch", "journal", "personal", "bzsjk"][i];
      Visibility(py, doc)[i] <==> !Falsy(py, Prop(Prop(doc, "card_visibility"), id))
  {
    hide Prop;
  }

  /** Without a usable document the window is as with an empty one, but for the project layout, which is
      absent in place of empty. */
  lemma EmptyIsDefault(py: Floats, doc: Value)
    requires !doc.Obj?
    ensures Load(py, doc).Some? && Load(py, Obj([])).Some?
    ensures Load(py, Obj([])) == Some(Load(py, doc).value.(layout := Some([])))
  {
    NothingKept(py);
    assert forall name :: Prop(Obj([]), name) == Null && Prop(Null, name) == Null;
    assert Visibility(py, Obj([])) == [false, false, false, false, false];
  }

  /** The same of the window itself: its size is at least 360 by 480, and 1160 by 760 where none, or
      zero, is given. */
  lemma WindowClamped(py: Floats, doc: Value, n: int)
    requires doc.Obj? && Load(py, doc).Some?
    ensures var s := Load(py, doc).value;
      && (Reads(py, Prop(doc, "x"), n) ==> s.x == Some(n)) && (!IsNumber(Prop(doc, "x")) ==> s.x == None)
      && (Reads(py, Prop(doc, "y"), n) ==> s.y == Some(n)) && (!IsNumber(Prop(doc, "y")) ==> s.y == None)
      && (Reads(py, Prop(doc, "width"), n) ==> s.width == if n == 0 then 1160 else if n < 360 then 360 else n)
      && (Reads(py, Prop(doc, "height"), n) ==> s.height == if n == 0 then 760 else if n < 480 then 480 else n)
      && (!IsNumber(Prop(doc, "width")) ==> s.width == 1160)
      && (!IsNumber(Prop(doc, "height")) ==> s.height == 760)
      && (s.theme == Ascii("dark") <==> Prop(doc, "theme") == Label("dark"))
      && (s.compact <==> !Falsy(py, Prop(doc, "compact"))) && (s.onTop <==> !Falsy(py, Prop(doc, "on_top")))
      && s.layout.Some?
      && (s.layout.value == [] ==> s.layoutVersion == 3)
      && (s.layout.value != [] ==>
            && (Reads(py, Prop(doc, "project_layout_version"), n) ==>
                  s.layoutVersion == if n < 1 then 1 else if n > 3 then 3 else n)
            && (!IsNumber(Prop(doc, "project_layout_version")) ==> s.layoutVersion == 1))
  {
    hide Prop, KeepTiles, KeepCards, Visibility;
    assert Ascii("light")[0] == 'l' as int && Ascii("dark")[0] == 'd' as int;
  }
}
