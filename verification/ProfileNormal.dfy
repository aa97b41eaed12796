/** The dashboard profile as a JSON value: normalisation, and what survives being printed,
    stored and parsed again.  Normalised profiles contain only lower-case ASCII strings, on
    which `stableJson` prints the canonical text. */
module ProfileNormal {
  import opened Json
  import opened CanonicalJson
  import opened CanonicalParser
  import opened AuthorityShape

  const PROFILE_KEYS: seq<string> := ["version", "theme", "density", "layout", "pinnedProjectIds", "tileSizes"]
  const THEMES: seq<string> := ["light", "dark"]
  const DENSITIES: seq<string> := ["full", "compact", "minimal"]
  const SIZES: seq<string> := ["compact", "standard", "expanded"]
  const ID_LIMIT: nat := 64

  /** `/^[a-z][a-z0-9_]*$/` */
  predicate IsId(s: Text) {
    && s != [] && 0x61 <= s[0] <= 0x7a
    && forall i :: 0 <= i < |s| ==> 0x61 <= s[i] <= 0x7a || 0x30 <= s[i] <= 0x39 || s[i] == 0x5f
  }

  /** The ids kept from `items` when `seen` have been kept before. */
  function CleanFrom(items: seq<Value>, limit: nat, seen: seq<Text>): seq<Text> {
    if items == [] then seen
    else if !items[0].Str? || !IsId(items[0].s) then CleanFrom(items[1..], limit, seen)
    else if |seen| >= limit then seen
    else CleanFrom(items[1..], limit, if items[0].s in seen then seen else seen + [items[0].s])
  }

  /** `cleanIds` */
  function CleanIds(v: Value, limit: nat): seq<Text> {
    if v.Arr? then CleanFrom(v.items, limit, []) else []
  }

  method CleanIdsLoop(v: Value, limit: nat) returns (kept: seq<Text>)
    ensures kept == CleanIds(v, limit)
  {
    kept := [];
    if !v.Arr? { return; }
    var i := 0;
    while i < |v.items|
      invariant 0 <= i <= |v.items|
      invariant CleanFrom(v.items[i..], limit, kept) == CleanIds(v, limit)
    {
      var item := v.items[i];
      assert v.items[i..][1..] == v.items[i + 1..];
      if item.Str? && IsId(item.s) {
        if |kept| >= limit { return; }
        if item.s !in kept { kept := kept + [item.s]; }
      }
      i := i + 1;
    }
  }

  function Strings(ids: seq<Text>): (r: seq<Value>)
    ensures |r| == |ids| && forall i :: 0 <= i < |ids| ==> r[i] == Str(ids[i])
  {
    seq(|ids|, i requires 0 <= i < |ids| => Str(ids[i]))
  }

  predicate GoodTile(f: Field) {
    IsId(f.key) && f.value.Str? && f.value.s in AsciiAll(SIZES)
  }

  function GoodTiles(fields: seq<Field>): (r: seq<Field>)
    ensures forall i :: 0 <= i < |r| ==> r[i] in fields && GoodTile(r[i])
  {
    if fields == [] then []
    else if GoodTile(fields[0]) then [fields[0]] + GoodTiles(fields[1..])
    else GoodTiles(fields[1..])
  }

  function OneOf(v: Value, allowed: seq<string>): Value
    requires allowed != []
  {
    if v.Str? && v.s in AsciiAll(allowed) then v else Str(Ascii(allowed[0]))
  }

  function Tiles(v: Value): seq<Field> {
    if v.Obj? then GoodTiles(v.fields) else []
  }

  /** `normalizeProfile` */
  function Normalize(v: Value): Value {
    Make(PROFILE_KEYS,
      [Num(1), OneOf(Prop(v, "theme"), THEMES), OneOf(Prop(v, "density"), DENSITIES),
       Arr(Strings(CleanIds(Prop(v, "layout"), ID_LIMIT))),
       Arr(Strings(CleanIds(Prop(v, "pinnedProjectIds"), ID_LIMIT))),
       Obj(Tiles(Prop(v, "tileSizes")))])
  }

  lemma NormalProps(v: Value)
    ensures var n := Normalize(v);
      && Prop(n, "version") == Num(1)
      && Prop(n, "theme") == OneOf(Prop(v, "theme"), THEMES)
      && Prop(n, "density") == OneOf(Prop(v, "density"), DENSITIES)
      && Prop(n, "layout") == Arr(Strings(CleanIds(Prop(v, "layout"), ID_LIMIT)))
      && Prop(n, "pinnedProjectIds") == Arr(Strings(CleanIds(Prop(v, "pinnedProjectIds"), ID_LIMIT)))
      && Prop(n, "tileSizes") == Obj(Tiles(Prop(v, "tileSizes")))
  {
    hide Prop, OneOf, CleanIds, Tiles;
    var n := Normalize(v);
    var values :=
      [Num(1), OneOf(Prop(v, "theme"), THEMES), OneOf(Prop(v, "density"), DENSITIES),
       Arr(Strings(CleanIds(Prop(v, "layout"), ID_LIMIT))),
       Arr(Strings(CleanIds(Prop(v, "pinnedProjectIds"), ID_LIMIT))),
       Obj(Tiles(Prop(v, "tileSizes")))];
    GoodProfileKeys();
    MakeProps(PROFILE_KEYS, values);
    forall i | 0 <= i < |PROFILE_KEYS| ensures Prop(n, PROFILE_KEYS[i]) == values[i] { }
    assert PROFILE_KEYS[0] == "version" && PROFILE_KEYS[1] == "theme" && PROFILE_KEYS[2] == "density"
        && PROFILE_KEYS[3] == "layout" && PROFILE_KEYS[4] == "pinnedProjectIds" && PROFILE_KEYS[5] == "tileSizes";
  }

  lemma GoodProfileKeys()
    ensures GoodNames(PROFILE_KEYS)
  {
    GoodNamesFromStrings(PROFILE_KEYS);
  }

  // ---------- normalisation is idempotent ----------

  ghost predicate CleanList(ids: seq<Text>, limit: nat) {
    |ids| <= limit && Distinct(ids) && forall i :: 0 <= i < |ids| ==> IsId(ids[i])
  }

  lemma {:induction false} CleanFromClean(items: seq<Value>, limit: nat, seen: seq<Text>)
    requires CleanList(seen, limit)
    ensures CleanList(CleanFrom(items, limit, seen), limit)
  {
    if items != [] && items[0].Str? && IsId(items[0].s) {
      if |seen| < limit {
        CleanFromClean(items[1..], limit, if items[0].s in seen then seen else seen + [items[0].s]);
      }
    } else if items != [] {
      CleanFromClean(items[1..], limit, seen);
    }
  }

  lemma {:induction false} CleanFromOfClean(ids: seq<Text>, limit: nat, n: nat)
    requires CleanList(ids, limit) && n <= |ids|
    ensures CleanFrom(Strings(ids)[n..], limit, ids[..n]) == ids
    decreases |ids| - n
  {
    if n == |ids| {
      assert ids[..n] == ids;
    } else {
      assert Strings(ids)[n..][0] == Str(ids[n]);
      assert Strings(ids)[n..][1..] == Strings(ids)[n + 1..];
      assert ids[..n] + [ids[n]] == ids[..n + 1];
      assert ids[n] !in ids[..n] by {
        assert forall i :: 0 <= i < n ==> ids[..n][i] != ids[n];
      }
      CleanFromOfClean(ids, limit, n + 1);
    }
  }

  lemma {:induction false} CleanFromMembers(items: seq<Value>, limit: nat, seen: seq<Text>)
    ensures var ids := CleanFrom(items, limit, seen);
      && seen <= ids
      && (forall id :: id in ids ==> id in seen || (Str(id) in items && IsId(id)))
      && (|ids| < limit ==> forall id :: Str(id) in items && IsId(id) ==> id in ids)
  {
    hide IsId;
    if items != [] {
      assert items == [items[0]] + items[1..];
      var valid := items[0].Str? && IsId(items[0].s);
      if !valid || |seen| < limit {
        var seen' := if valid && items[0].s !in seen then seen + [items[0].s] else seen;
        CleanFromMembers(items[1..], limit, seen');
        assert valid ==> items[0].s in seen';
        forall id | Str(id) in items && IsId(id) ensures Str(id) in items[1..] || id in seen' { }
      }
    }
  }

  /** What `cleanIds` keeps: distinct well-formed ids of the list, no more than the limit; and
      below the limit, all of them. */
  lemma CleanIdsMeaning(items: seq<Value>, limit: nat)
    ensures var ids := CleanIds(Arr(items), limit);
      && CleanList(ids, limit)
      && (forall id :: id in ids ==> Str(id) in items)
      && (|ids| < limit ==> forall id :: id in ids <==> Str(id) in items && IsId(id))
  {
    CleanFromMembers(items, limit, []);
    CleanFromClean(items, limit, []);
    var ids := CleanIds(Arr(items), limit);
    assert forall id :: id in ids ==> exists i :: 0 <= i < |ids| && ids[i] == id;
  }

  lemma CleanIdsIdempotent(v: Value, limit: nat)
    ensures CleanIds(Arr(Strings(CleanIds(v, limit))), limit) == CleanIds(v, limit)
  {
    var ids := CleanIds(v, limit);
    if v.Arr? { CleanFromClean(v.items, limit, []); }
    CleanFromOfClean(ids, limit, 0);
    assert Strings(ids)[0..] == Strings(ids) && ids[..0] == [];
  }

  lemma {:induction false} GoodTilesIdempotent(fields: seq<Field>)
    ensures GoodTiles(GoodTiles(fields)) == GoodTiles(fields)
  {
    if fields != [] { GoodTilesIdempotent(fields[1..]); }
  }

  lemma OneOfIdempotent(v: Value, allowed: seq<string>)
    requires allowed != []
    ensures OneOf(OneOf(v, allowed), allowed) == OneOf(v, allowed)
  {
    assert AsciiAll(allowed)[0] == Ascii(allowed[0]);
  }

  /** Normalising a normalised profile changes nothing, not even the order of its members. */
  lemma NormalizeIdempotent(v: Value)
    ensures Normalize(Normalize(v)) == Normalize(v)
  {
    hide Prop, OneOf, CleanIds, GoodTiles;
    NormalProps(v);
    OneOfIdempotent(Prop(v, "theme"), THEMES);
    OneOfIdempotent(Prop(v, "density"), DENSITIES);
    CleanIdsIdempotent(Prop(v, "layout"), ID_LIMIT);
    CleanIdsIdempotent(Prop(v, "pinnedProjectIds"), ID_LIMIT);
    if Prop(v, "tileSizes").Obj? { GoodTilesIdempotent(Prop(v, "tileSizes").fields); }
    GoodTilesEmpty();
  }

  lemma GoodTilesEmpty()
    ensures GoodTiles([]) == []
  {
  }

  // ---------- normalisation sees objects as maps ----------

  lemma {:induction false} GoodTilesMembers(fields: seq<Field>)
    ensures forall f :: f in GoodTiles(fields) <==> f in fields && GoodTile(f)
  {
    hide GoodTile;
    if fields != [] {
      GoodTilesMembers(fields[1..]);
      assert fields == [fields[0]] + fields[1..];
    }
  }

  lemma TailKeys(fields: seq<Field>)
    requires fields != [] && Distinct(Keys(fields))
    ensures Distinct(Keys(fields[1..])) && forall f :: f in fields[1..] ==> f.key != fields[0].key
  {
    var rest := fields[1..];
    forall i | 0 <= i < |rest| ensures Keys(rest)[i] == Keys(fields)[i + 1] && rest[i].key != fields[0].key {
      assert Keys(fields)[0] != Keys(fields)[i + 1];
    }
  }

  lemma {:induction false} GoodTilesKeys(fields: seq<Field>)
    requires Distinct(Keys(fields))
    ensures Distinct(Keys(GoodTiles(fields)))
    ensures forall f :: f in GoodTiles(fields) <==> f in fields && GoodTile(f)
  {
    hide GoodTile;
    GoodTilesMembers(fields);
    if fields != [] {
      TailKeys(fields);
      GoodTilesKeys(fields[1..]);
      var good := GoodTiles(fields[1..]);
      forall i | 0 <= i < |good| ensures good[i].key != fields[0].key { assert good[i] in good; }
    }
  }

  lemma FieldOfKey(fields: seq<Field>, k: Text)
    requires k in Keys(fields)
    ensures Field(k, Lookup(fields, k)) in fields
  {
    var i :| 0 <= i < |fields| && fields[i].key == k && fields[i].value == Lookup(fields, k);
    assert fields[i] == Field(k, Lookup(fields, k));
  }

  lemma FieldLookup(fields: seq<Field>, f: Field)
    requires Distinct(Keys(fields)) && f in fields
    ensures f.key in Keys(fields) && Lookup(fields, f.key) == f.value
  {
    var i :| 0 <= i < |fields| && fields[i] == f;
    LookupAt(fields, i);
  }

  /** A tile kept from one object is kept from every object equal to it as a map. */
  lemma TileCarriesOver(a: seq<Field>, b: seq<Field>, f: Field)
    requires Distinct(Keys(a)) && Distinct(Keys(b)) && Same(Obj(a), Obj(b)) && f in GoodTiles(a)
    ensures f in GoodTiles(b)
  {
    GoodTilesKeys(a);
    GoodTilesKeys(b);
    FieldLookup(a, f);
    FieldOfKey(b, f.key);
    assert Same(Lookup(a, f.key), Lookup(b, f.key));
  }

  /** Every member of `y` is in `x`, with the same value. */
  ghost predicate Includes(x: seq<Field>, y: seq<Field>) {
    forall k :: k in Keys(y) ==> k in Keys(x) && Lookup(x, k) == Lookup(y, k)
  }

  lemma TilesCarryOver(a: seq<Field>, b: seq<Field>)
    requires Distinct(Keys(a)) && Distinct(Keys(b)) && Same(Obj(a), Obj(b))
    ensures Includes(GoodTiles(b), GoodTiles(a))
  {
    hide GoodTiles, Same, Lookup, GoodTile;
    GoodTilesKeys(b);
    var x, y := GoodTiles(a), GoodTiles(b);
    forall k | k in Keys(x) ensures k in Keys(y) && Lookup(x, k) == Lookup(y, k) {
      FieldOfKey(x, k);
      TileCarriesOver(a, b, Field(k, Lookup(x, k)));
      FieldLookup(y, Field(k, Lookup(x, k)));
    }
  }

  lemma EqualMembers(x: seq<Field>, y: seq<Field>)
    requires Includes(x, y) && Includes(y, x)
    ensures Same(Obj(x), Obj(y))
  {
    forall k | k in Keys(x) ensures Same(Lookup(x, k), Lookup(y, k)) { SameRefl(Lookup(x, k)); }
  }

  lemma SameTiles(a: seq<Field>, b: seq<Field>)
    requires Distinct(Keys(a)) && Distinct(Keys(b)) && Same(Obj(a), Obj(b)) && Same(Obj(b), Obj(a))
    ensures Same(Obj(GoodTiles(a)), Obj(GoodTiles(b)))
  {
    hide GoodTiles, Same, Distinct, Includes;
    TilesCarryOver(a, b);
    TilesCarryOver(b, a);
    EqualMembers(GoodTiles(a), GoodTiles(b));
  }

  lemma {:induction false} SameCleanFrom(a: seq<Value>, b: seq<Value>, limit: nat, seen: seq<Text>)
    requires |a| == |b| && forall i :: 0 <= i < |a| ==> Same(a[i], b[i])
    ensures CleanFrom(a, limit, seen) == CleanFrom(b, limit, seen)
  {
    if a != [] {
      assert Same(a[0], b[0]);
      forall i | 0 <= i < |a[1..]| ensures Same(a[1..][i], b[1..][i]) { assert Same(a[i + 1], b[i + 1]); }
      if !a[0].Str? || !IsId(a[0].s) {
        SameCleanFrom(a[1..], b[1..], limit, seen);
      } else if |seen| < limit {
        SameCleanFrom(a[1..], b[1..], limit, if a[0].s in seen then seen else seen + [a[0].s]);
      }
    }
  }

  lemma SameCleanIds(v: Value, w: Value, limit: nat)
    requires Same(v, w)
    ensures CleanIds(v, limit) == CleanIds(w, limit)
  {
    if v.Arr? { SameCleanFrom(v.items, w.items, limit, []); }
  }

  lemma SameOneOf(v: Value, w: Value, allowed: seq<string>)
    requires Same(v, w) && allowed != []
    ensures OneOf(v, allowed) == OneOf(w, allowed)
  {
  }

  lemma SameSymmetric(v: Value, w: Value)
    requires WellFormed(v) && WellFormed(w) && Same(v, w)
    ensures Same(w, v)
  {
    SameNorm(v, w);
    NormSame(w, v);
  }

  lemma NormalWellFormed(v: Value)
    requires WellFormed(v)
    ensures WellFormed(Normalize(v))
  {
    hide Prop, OneOf, CleanIds, GoodTiles;
    GoodProfileKeys();
    PropWellFormed(v, "tileSizes");
    var t := Prop(v, "tileSizes");
    WellFormedTiles(t);
    OneOfString(Prop(v, "theme"), THEMES);
    OneOfString(Prop(v, "density"), DENSITIES);
    MakeWellFormed(PROFILE_KEYS,
      [Num(1), OneOf(Prop(v, "theme"), THEMES), OneOf(Prop(v, "density"), DENSITIES),
       Arr(Strings(CleanIds(Prop(v, "layout"), ID_LIMIT))),
       Arr(Strings(CleanIds(Prop(v, "pinnedProjectIds"), ID_LIMIT))),
       Obj(Tiles(t))]);
  }

  lemma OneOfString(v: Value, allowed: seq<string>)
    requires allowed != []
    ensures OneOf(v, allowed).Str?
  {
  }

  lemma WellFormedTiles(t: Value)
    requires WellFormed(t)
    ensures WellFormed(Obj(Tiles(t)))
  {
    if t.Obj? { GoodTilesKeys(t.fields); }
  }

  /** Equal profiles normalise to equal profiles: the order of members is immaterial. */
  lemma NormalizeSame(v: Value, w: Value)
    requires WellFormed(v) && WellFormed(w) && Same(v, w)
    ensures Same(Normalize(v), Normalize(w))
  {
    hide Prop, OneOf, CleanIds, GoodTiles, WellFormed, Same;
    NormalProps(v);
    NormalProps(w);
    SameProp(v, w, "theme");
    SameProp(v, w, "density");
    SameProp(v, w, "layout");
    SameProp(v, w, "pinnedProjectIds");
    SameProp(v, w, "tileSizes");
    SameOneOf(Prop(v, "theme"), Prop(w, "theme"), THEMES);
    SameOneOf(Prop(v, "density"), Prop(w, "density"), DENSITIES);
    SameCleanIds(Prop(v, "layout"), Prop(w, "layout"), ID_LIMIT);
    SameCleanIds(Prop(v, "pinnedProjectIds"), Prop(w, "pinnedProjectIds"), ID_LIMIT);
    PropWellFormed(v, "tileSizes");
    PropWellFormed(w, "tileSizes");
    SameTileObjects(Prop(v, "tileSizes"), Prop(w, "tileSizes"));
    SameProfiles(Normalize(v), Normalize(w));
  }

  lemma SameTileObjects(a: Value, b: Value)
    requires WellFormed(a) && WellFormed(b) && Same(a, b)
    ensures Same(Obj(Tiles(a)), Obj(Tiles(b)))
  {
    if a.Obj? {
      SameSymmetric(a, b);
      SameTiles(a.fields, b.fields);
    }
  }

  lemma SameProfiles(a: Value, b: Value)
    requires HasExactKeys(a, PROFILE_KEYS) && HasExactKeys(b, PROFILE_KEYS)
    requires Prop(a, "version") == Prop(b, "version") && Prop(a, "theme") == Prop(b, "theme")
    requires Prop(a, "density") == Prop(b, "density") && Prop(a, "layout") == Prop(b, "layout")
    requires Prop(a, "pinnedProjectIds") == Prop(b, "pinnedProjectIds")
    requires Same(Prop(a, "tileSizes"), Prop(b, "tileSizes"))
    ensures Same(a, b)
  {
    hide Prop, HasExactKeys, Same;
    GoodProfileKeys();
    forall i | 0 <= i < |PROFILE_KEYS| ensures Same(Prop(a, PROFILE_KEYS[i]), Prop(b, PROFILE_KEYS[i])) {
      assert PROFILE_KEYS[0] == "version" && PROFILE_KEYS[1] == "theme" && PROFILE_KEYS[2] == "density"
          && PROFILE_KEYS[3] == "layout" && PROFILE_KEYS[4] == "pinnedProjectIds" && PROFILE_KEYS[5] == "tileSizes";
      if i < 5 { SameRefl(Prop(a, PROFILE_KEYS[i])); }
    }
    SameByProps(a, b, PROFILE_KEYS);
  }

  // ---------- what normalisation keeps ----------

  /** Theme and density: a known choice is kept, and anything else becomes the default. */
  lemma ThemeAndDensity(v: Value)
    ensures Prop(Normalize(v), "theme") == Label(if Prop(v, "theme") == Label("dark") then "dark" else "light")
    ensures Prop(Normalize(v), "density")
         == Label(if Prop(v, "density") == Label("compact") then "compact"
                  else if Prop(v, "density") == Label("minimal") then "minimal" else "full")
  {
    hide Prop, Normalize;
    NormalProps(v);
    assert AsciiAll(THEMES) == [Ascii("light"), Ascii("dark")];
    assert AsciiAll(DENSITIES) == [Ascii("full"), Ascii("compact"), Ascii("minimal")];
  }

  datatype Size = Size(project: Text, size: string)

  /** What a user can choose. */
  datatype Choice = Choice(theme: string, density: string, layout: seq<Text>, pinned: seq<Text>, sizes: seq<Size>)

  ghost predicate Choosable(c: Choice) {
    && (c.theme == "light" || c.theme == "dark")
    && (c.density == "full" || c.density == "compact" || c.density == "minimal")
    && CleanList(c.layout, 64) && CleanList(c.pinned, 64)
    && (forall i, j :: 0 <= i < j < |c.sizes| ==> c.sizes[i].project != c.sizes[j].project)
    && forall i :: 0 <= i < |c.sizes| ==>
         IsId(c.sizes[i].project) && c.sizes[i].size in {"compact", "standard", "expanded"}
  }

  function SizeFields(sizes: seq<Size>): (r: seq<Field>)
    ensures |r| == |sizes| && forall i :: 0 <= i < |r| ==> r[i] == Field(sizes[i].project, Label(sizes[i].size))
  {
    seq(|sizes|, i requires 0 <= i < |sizes| => Field(sizes[i].project, Label(sizes[i].size)))
  }

  /** The choice as the page holds it. */
  function ProfileOf(c: Choice): Value {
    Make(["version", "theme", "density", "layout", "pinnedProjectIds", "tileSizes"],
      [Num(1), Label(c.theme), Label(c.density), Arr(Strings(c.layout)), Arr(Strings(c.pinned)),
       Obj(SizeFields(c.sizes))])
  }

  lemma ProfileProps(c: Choice)
    ensures var p := ProfileOf(c);
      && Prop(p, "theme") == Label(c.theme) && Prop(p, "density") == Label(c.density)
      && Prop(p, "layout") == Arr(Strings(c.layout)) && Prop(p, "pinnedProjectIds") == Arr(Strings(c.pinned))
      && Prop(p, "tileSizes") == Obj(SizeFields(c.sizes))
  {
    hide Prop, Make;
    var values := [Num(1), Label(c.theme), Label(c.density), Arr(Strings(c.layout)), Arr(Strings(c.pinned)),
                   Obj(SizeFields(c.sizes))];
    GoodProfileKeys();
    MakeProps(PROFILE_KEYS, values);
    forall i | 0 <= i < |PROFILE_KEYS| ensures Prop(ProfileOf(c), PROFILE_KEYS[i]) == values[i] { }
    assert PROFILE_KEYS[1] == "theme" && PROFILE_KEYS[2] == "density" && PROFILE_KEYS[3] == "layout"
        && PROFILE_KEYS[4] == "pinnedProjectIds" && PROFILE_KEYS[5] == "tileSizes";
  }

  lemma {:induction false} GoodTilesAll(fields: seq<Field>)
    requires forall i :: 0 <= i < |fields| ==> GoodTile(fields[i])
    ensures GoodTiles(fields) == fields
  {
    if fields != [] {
      GoodTilesAll(fields[1..]);
      assert fields == [fields[0]] + fields[1..];
    }
  }

  lemma ChosenTiles(c: Choice)
    requires Choosable(c)
    ensures Tiles(Obj(SizeFields(c.sizes))) == SizeFields(c.sizes)
  {
    assert AsciiAll(SIZES) == [Ascii("compact"), Ascii("standard"), Ascii("expanded")];
    GoodTilesAll(SizeFields(c.sizes));
  }

  /** Every possible choice is a profile that normalisation keeps exactly as it is. */
  lemma ChoiceKept(c: Choice)
    requires Choosable(c)
    ensures Normalize(ProfileOf(c)) == ProfileOf(c)
  {
    hide Prop, CleanIds, Tiles, Make, IsId, GoodTiles;
    ProfileProps(c);
    ThemeAndDensity(ProfileOf(c));
    NormalProps(ProfileOf(c));
    LabelsDiffer();
    ListKept(c.layout);
    ListKept(c.pinned);
    ChosenTiles(c);
  }

  lemma LabelsDiffer()
    ensures Label("light") != Label("dark") && Label("full") != Label("compact")
         && Label("full") != Label("minimal") && Label("compact") != Label("minimal")
  {
    assert Ascii("light")[0] == 'l' as int && Ascii("dark")[0] == 'd' as int && Ascii("full")[0] == 'f' as int
        && Ascii("compact")[0] == 'c' as int && Ascii("minimal")[0] == 'm' as int;
  }

  lemma ListKept(ids: seq<Text>)
    requires CleanList(ids, 64)
    ensures CleanIds(Arr(Strings(ids)), ID_LIMIT) == ids
  {
    CleanFromOfClean(ids, 64, 0);
    assert Strings(ids)[0..] == Strings(ids) && ids[..0] == [];
  }

  lemma ChoiceWellFormed(c: Choice)
    requires Choosable(c)
    ensures WellFormed(ProfileOf(c))
  {
    hide Make, IsId;
    GoodProfileKeys();
    MakeWellFormed(PROFILE_KEYS,
      [Num(1), Label(c.theme), Label(c.density), Arr(Strings(c.layout)), Arr(Strings(c.pinned)),
       Obj(SizeFields(c.sizes))]);
  }

  /** Printing a profile, parsing the text and normalising again gives the normalised profile. */
  lemma StoredProfileReadsBack(v: Value)
    requires WellFormed(v)
    ensures var parsed := ParseValue(Print(Normalize(v)));
      && parsed.Ok? && parsed.rest == []
      && Same(Normalize(v), Normalize(parsed.value)) && WellFormed(Normalize(parsed.value))
  {
    hide Normalize, Print, Same, WellFormed;
    var n := Normalize(v);
    NormalWellFormed(v);
    ValueRoundTrip(n, []);
    assert Print(n) + [] == Print(n);
    RoundTrip(n);
    NormWellFormed(n);
    NormalizeSame(n, Norm(n));
    NormalizeIdempotent(v);
    NormalWellFormed(Norm(n));
  }

  lemma {:induction false} NormWellFormed(v: Value)
    requires WellFormed(v)
    ensures WellFormed(Norm(v))
    decreases v
  {
    match v
    case Arr(items) =>
      forall i | 0 <= i < |items| ensures WellFormed(Norm(items[i])) { NormWellFormed(items[i]); }
    case Obj(fields) =>
      var ks := SortKeys(Keys(fields));
      SortKeysDistinct(Keys(fields));
      assert Keys(NormMembers(ks, fields)) == ks;
      forall i | 0 <= i < |ks| ensures WellFormed(Norm(Lookup(fields, ks[i]))) {
        LookupWellFormed(fields, ks[i]);
        NormWellFormed(Lookup(fields, ks[i]));
      }
    case _ =>
  }
}
