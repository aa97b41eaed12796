/** Reading untrusted JSON: property access, the exact-key test, and the two validators. */
module AuthorityShape {
  import opened Wrappers
  import opened Json
  import opened CanonicalJson
  import opened CanonicalParser

  /** What the workers take from their platform.  `dateParse` is `Date.parse` (None for NaN),
      `toIso` is `new Date(ms).toISOString()`, `sha256` maps a text to lower-case hex, and
      `audienceOk(url, product)` is the `new URL` test for an exact https authority address.
      Keys and signatures are the decoded bytes; `publicOf` pairs a private key with its public
      one. */
  datatype Runtime = Runtime(
    dateParse: Text -> Option<int>,
    toIso: int -> Text,
    sha256: Text -> Text,
    audienceOk: (Text, Text) -> bool,
    publicOf: Text -> Text,
    sign: (Text, Text) -> Text)

  const MAX_OBSERVATION_AGE_MS := 300_000
  const MAX_OBSERVATION_TTL_MS := 600_000
  const SIGNED_DOCUMENT_TTL_MS := 300_000
  const CLOCK_SKEW_MS := 60_000
  const MAX_SAFE_INTEGER := 9_007_199_254_740_991

  const PRODUCTS: seq<string> := ["identity-focus", "journal", "watch", "suixin"]
  const FRESHNESS: seq<string> := ["fresh", "stale", "offline", "blocked", "unknown"]
  const OBSERVATION_KEYS: seq<string> :=
    ["schemaVersion", "productId", "audience", "observedAt", "expiresAt", "truth"]
  const UNSIGNED_KEYS: seq<string> :=
    ["schemaVersion", "productId", "audience", "issuedAt", "expiresAt", "sourceObservedAt",
     "sourceExpiresAt", "observationHash", "truth"]
  const DOCUMENT_KEYS: seq<string> := UNSIGNED_KEYS + ["signature"]
  const TRUTH_KEYS: seq<string> :=
    ["revision", "freshness", "lastVerifiedAt", "pendingCount", "blockerReason", "pcOff"]
  const RECONSTRUCTED_KEYS: seq<string> :=
    ["productId", "audience", "sourceObservedAt", "sourceExpiresAt", "truth"]
  const PC_OFF_KEYS: seq<string> := ["readAvailable", "writeAvailable", "continuedSync"]

  // ---------- property access ----------

  function AsciiAll(names: seq<string>): (r: seq<Text>)
    ensures |r| == |names| && forall i :: 0 <= i < |names| ==> r[i] == Ascii(names[i])
  {
    seq(|names|, i requires 0 <= i < |names| => Ascii(names[i]))
  }

  /** `value[name]`, with Null standing for a missing property: it is only read after the
      exact-key test. */
  function Prop(v: Value, name: string): Value {
    if v.Obj? && Ascii(name) in Keys(v.fields) then Lookup(v.fields, Ascii(name)) else Null
  }

  function Props(v: Value, names: seq<string>): (values: seq<Value>)
    ensures |values| == |names| && forall i :: 0 <= i < |names| ==> values[i] == Prop(v, names[i])
  {
    seq(|names|, i requires 0 <= i < |names| => Prop(v, names[i]))
  }

  /** A property known to be a string. */
  function TextProp(v: Value, name: string): Text {
    match Prop(v, name)
    case Str(s) => s
    case _ => []
  }

  predicate HasExactKeys(v: Value, names: seq<string>) {
    v.Obj? && SortKeys(Keys(v.fields)) == SortKeys(AsciiAll(names))
  }

  /** An object literal. */
  function Make(names: seq<string>, values: seq<Value>): (v: Value)
    requires |names| == |values|
    ensures v.Obj? && Keys(v.fields) == AsciiAll(names) && HasExactKeys(v, names)
  {
    var fields := seq(|names|, i requires 0 <= i < |names| => Field(Ascii(names[i]), values[i]));
    assert Keys(fields) == AsciiAll(names);
    Obj(fields)
  }

  ghost predicate GoodNames(names: seq<string>) {
    Distinct(AsciiAll(names))
  }

  ghost predicate IsAscii(s: string) {
    forall i :: 0 <= i < |s| ==> s[i] < 128 as char
  }

  lemma AsciiInjective(a: string, b: string)
    requires IsAscii(a) && IsAscii(b) && Ascii(a) == Ascii(b)
    ensures a == b
  {
    forall i | 0 <= i < |a| ensures a[i] == b[i] { assert Ascii(a)[i] == Ascii(b)[i]; }
  }

  lemma MakeProps(names: seq<string>, values: seq<Value>)
    requires |names| == |values| && GoodNames(names)
    ensures forall i :: 0 <= i < |names| ==> Prop(Make(names, values), names[i]) == values[i]
  {
    forall i | 0 <= i < |names| ensures Prop(Make(names, values), names[i]) == values[i] {
      LookupAt(Make(names, values).fields, i);
    }
  }

  lemma GoodNamesFromStrings(names: seq<string>)
    requires Distinct(names) && forall i :: 0 <= i < |names| ==> IsAscii(names[i])
    ensures GoodNames(names)
  {
    forall i, j | 0 <= i < j < |names| ensures AsciiAll(names)[i] != AsciiAll(names)[j] {
      if AsciiAll(names)[i] == AsciiAll(names)[j] { AsciiInjective(names[i], names[j]); }
    }
  }

  lemma GoodObservationKeys()
    ensures GoodNames(OBSERVATION_KEYS)
  {
    GoodNamesFromStrings(OBSERVATION_KEYS);
  }

  lemma GoodDocumentKeys()
    ensures GoodNames(DOCUMENT_KEYS) && GoodNames(UNSIGNED_KEYS)
  {
    GoodNamesFromStrings(UNSIGNED_KEYS);
    GoodNamesFromStrings(DOCUMENT_KEYS);
  }

  lemma {:induction false} SortedKeysMembers(v: Value, names: seq<string>)
    requires HasExactKeys(v, names) && GoodNames(names)
    ensures Distinct(Keys(v.fields))
    ensures forall k :: k in Keys(v.fields) <==> k in AsciiAll(names)
  {
    var ks, ns := Keys(v.fields), AsciiAll(names);
    SortKeysSorted(ks);
    SortKeysSorted(ns);
    MultisetDistinct(ks, ns);
    assert forall k :: k in ks <==> k in SortKeys(ks);
  }

  lemma {:induction false} MultisetDistinct(a: seq<Text>, b: seq<Text>)
    requires multiset(a) == multiset(b) && Distinct(b)
    ensures Distinct(a)
  {
    DistinctMultiplicity(b);
    forall i, j | 0 <= i < j < |a| ensures a[i] != a[j] {
      var front, back := a[..j], a[j..];
      assert a == front + back;
      assert multiset(a)[a[i]] == multiset(front)[a[i]] + multiset(back)[a[i]];
      assert front[i] == a[i] && a[i] in front && multiset(front)[a[i]] >= 1;
      assert back[0] == a[j] && a[j] in back && multiset(back)[a[j]] >= 1;
      assert multiset(b)[a[i]] <= 1;
    }
  }

  /** Two objects with the same exact keys and equal properties are equal as maps. */
  lemma SameByProps(v: Value, w: Value, names: seq<string>)
    requires GoodNames(names) && HasExactKeys(v, names) && HasExactKeys(w, names)
    requires forall i :: 0 <= i < |names| ==> Same(Prop(v, names[i]), Prop(w, names[i]))
    ensures Same(v, w)
  {
    SortedKeysMembers(v, names);
    SortedKeysMembers(w, names);
    forall k | k in Keys(v.fields) ensures Same(Lookup(v.fields, k), Lookup(w.fields, k)) {
      var i :| 0 <= i < |names| && AsciiAll(names)[i] == k;
      assert Same(Prop(v, names[i]), Prop(w, names[i]));
    }
  }

  lemma SameProp(v: Value, w: Value, name: string)
    requires Same(v, w)
    ensures Same(Prop(v, name), Prop(w, name)) && TextProp(v, name) == TextProp(w, name)
  {
  }

  lemma PropWellFormed(v: Value, name: string)
    requires WellFormed(v)
    ensures WellFormed(Prop(v, name))
  {
  }

  lemma PropsWellFormed(v: Value, names: seq<string>)
    requires WellFormed(v)
    ensures forall i :: 0 <= i < |names| ==> WellFormed(Props(v, names)[i])
  {
  }

  lemma MakeWellFormed(names: seq<string>, values: seq<Value>)
    requires |names| == |values| && GoodNames(names)
    requires forall i :: 0 <= i < |values| ==> WellFormed(values[i])
    ensures WellFormed(Make(names, values))
  {
  }

  // ---------- scalar tests ----------

  predicate SafeNatural(v: Value) {
    v.Num? && 0 <= v.n <= MAX_SAFE_INTEGER
  }

  /** The time zone suffix both workers demand: `Z` or `+hh:mm` or `-hh:mm`. */
  predicate HasZone(s: Text) {
    || (|s| >= 1 && s[|s| - 1] == 0x5a)
    || (&& |s| >= 6
        && var z := s[|s| - 6..];
           z[0] in {0x2b, 0x2d} && IsDigit(z[1]) && IsDigit(z[2]) && z[3] == 0x3a
           && IsDigit(z[4]) && IsDigit(z[5]))
  }

  /** `parseTimestamp` of the gateway. */
  function GatewayTime(rt: Runtime, v: Value): Option<int> {
    if v.Str? && HasZone(v.s) then rt.dateParse(v.s) else None
  }

  /** `parseTimestamp` of the signer, which also bounds the length. */
  function SignerTime(rt: Runtime, v: Value): Option<int> {
    if v.Str? && |v.s| <= 40 then GatewayTime(rt, v) else None
  }

  predicate HexText(s: Text) {
    |s| == 64 && forall i :: 0 <= i < |s| ==> IsHexDigit(s[i])
  }

  /** `String(value)`: an array prints as its elements joined by commas, null elements empty.  None
      stands for the TypeError that an object raises whose own member hides `toString`. */
  function JsString(v: Value): Option<Text>
    decreases v
  {
    match v
    case Null => Some(NULL_TEXT)
    case Bool(b) => Some(if b then TRUE_TEXT else FALSE_TEXT)
    case Num(n) => Some(PrintInt(n))
    case Dec(text) => Some(text)
    case Str(s) => Some(s)
    case Arr(items) => JsJoin(items)
    case Obj(fields) => if Ascii("toString") in Keys(fields) then None else Some(Ascii("[object Object]"))
  }

  function JsJoin(items: seq<Value>): Option<Text>
    decreases items
  {
    if |items| == 0 then Some([])
    else
      var first := if items[0].Null? then Some([]) else JsString(items[0]);
      if first.None? || |items| == 1 then first
      else
        var rest := JsJoin(items[1..]);
        if rest.None? then None else Some(first.value + [COMMA] + rest.value)
  }

  predicate KnownFreshness(v: Value) {
    JsString(v).Some? && JsString(v).value in AsciiAll(FRESHNESS)
  }

  function Label(name: string): Value {
    Str(Ascii(name))
  }

  predicate KnownProduct(product: Text) {
    product in AsciiAll(PRODUCTS)
  }

  predicate ValidBlockerReason(v: Value) {
    || v.Null?
    || (v.Str? && 0 < |v.s| <= 256 && forall i :: 0 <= i < |v.s| ==> v.s[i] >= 0x20 && v.s[i] != 0x7f)
  }

  predicate ValidPcOff(v: Value) {
    && HasExactKeys(v, PC_OFF_KEYS)
    && Prop(v, "readAvailable").Bool?
    && Prop(v, "writeAvailable").Bool?
    && Prop(v, "continuedSync").Bool?
    && (Prop(v, "continuedSync").b ==> Prop(v, "readAvailable").b && Prop(v, "writeAvailable").b)
  }

  // ---------- the signer's validator ----------

  /** What is tested of a truth before its freshness. */
  predicate TruthHead(truth: Value) {
    HasExactKeys(truth, TRUTH_KEYS) && SafeNatural(Prop(truth, "revision"))
  }

  predicate SignerTruth(rt: Runtime, truth: Value, observedAt: int, now: int) {
    && TruthHead(truth)
    && KnownFreshness(Prop(truth, "freshness"))
    && var verified := SignerTime(rt, Prop(truth, "lastVerifiedAt"));
    && verified.Some? && verified.value <= observedAt
    && SafeNatural(Prop(truth, "pendingCount"))
    && ValidBlockerReason(Prop(truth, "blockerReason"))
    && ValidPcOff(Prop(truth, "pcOff"))
    && var freshness := Prop(truth, "freshness");
       var pending := Prop(truth, "pendingCount").n;
       var blocker := Prop(truth, "blockerReason");
    && (freshness == Label("fresh") ==>
          pending == 0 && blocker.Null? && now - verified.value <= MAX_OBSERVATION_AGE_MS)
    && (pending > 0 ==> freshness == Label("blocked"))
    && (blocker.Null? <==> freshness != Label("blocked"))
  }

  /** What is tested of an observation before its truth. */
  predicate ObservationHead(rt: Runtime, v: Value, product: Text, audience: Text, now: int) {
    && HasExactKeys(v, OBSERVATION_KEYS)
    && Prop(v, "schemaVersion") == Num(1)
    && Prop(v, "productId") == Str(product)
    && Prop(v, "audience") == Str(audience)
    && rt.audienceOk(audience, product)
    && var observed := SignerTime(rt, Prop(v, "observedAt"));
       var expires := SignerTime(rt, Prop(v, "expiresAt"));
    && observed.Some? && expires.Some?
    && observed.value <= now + CLOCK_SKEW_MS
    && now - observed.value <= MAX_OBSERVATION_AGE_MS
    && expires.value > observed.value
    && expires.value > now
    && expires.value - observed.value <= MAX_OBSERVATION_TTL_MS
  }

  /** `validateObservation` */
  predicate ValidateObservation(rt: Runtime, v: Value, product: Text, audience: Text, now: int) {
    && ObservationHead(rt, v, product, audience, now)
    && SignerTruth(rt, Prop(v, "truth"), SignerTime(rt, Prop(v, "observedAt")).value, now)
  }

  /** The validator gets as far as the freshness test, which raises a TypeError. */
  predicate ObservationThrows(rt: Runtime, v: Value, product: Text, audience: Text, now: int) {
    && ObservationHead(rt, v, product, audience, now)
    && TruthHead(Prop(v, "truth")) && JsString(Prop(Prop(v, "truth"), "freshness")).None?
  }

  // ---------- the gateway's validator ----------

  predicate GatewayTruth(rt: Runtime, truth: Value) {
    && TruthHead(truth)
    && KnownFreshness(Prop(truth, "freshness"))
    && GatewayTime(rt, Prop(truth, "lastVerifiedAt")).Some?
    && SafeNatural(Prop(truth, "pendingCount"))
    && (Prop(truth, "blockerReason").Null? || Prop(truth, "blockerReason").Str?)
    && ValidPcOff(Prop(truth, "pcOff"))
    && var freshness := Prop(truth, "freshness");
       var pending := Prop(truth, "pendingCount").n;
       var blocker := Prop(truth, "blockerReason");
    && (freshness == Label("fresh") ==> pending == 0 && blocker.Null?)
    && (pending > 0 ==> freshness == Label("blocked"))
    && (blocker.Null? <==> freshness != Label("blocked"))
  }

  /** What is tested of a document before its truth. */
  predicate DocumentHead(rt: Runtime, d: Value) {
    && HasExactKeys(d, DOCUMENT_KEYS)
    && Prop(d, "schemaVersion") == Num(2)
    && Prop(d, "productId").Str?
    && Prop(d, "audience").Str?
    && Prop(d, "signature").Str?
    && Prop(d, "observationHash").Str?
    && HexText(Prop(d, "observationHash").s)
    && GatewayTime(rt, Prop(d, "issuedAt")).Some?
    && GatewayTime(rt, Prop(d, "expiresAt")).Some?
    && GatewayTime(rt, Prop(d, "sourceObservedAt")).Some?
    && GatewayTime(rt, Prop(d, "sourceExpiresAt")).Some?
  }

  /** `validateAuthorityShape` */
  predicate ValidateShape(rt: Runtime, d: Value) {
    DocumentHead(rt, d) && GatewayTruth(rt, Prop(d, "truth"))
  }

  /** The same for the gateway's validator. */
  predicate ShapeThrows(rt: Runtime, d: Value) {
    && DocumentHead(rt, d)
    && TruthHead(Prop(d, "truth")) && JsString(Prop(Prop(d, "truth"), "freshness")).None?
  }

  // ---------- what the freshness test really admits ----------

  lemma NoLabel(v: Value)
    requires !v.Arr? && !v.Str?
    ensures !KnownFreshness(v)
  {
    forall i | 0 <= i < |FRESHNESS| && JsString(v).Some? ensures AsciiAll(FRESHNESS)[i] != JsString(v).value {
      var name := FRESHNESS[i];
      assert AsciiAll(FRESHNESS)[i][0] == Ascii(name)[0] == name[0] as int;
      assert name[0] in {'f', 's', 'o', 'b', 'u'};
      match v
      case Null =>
      case Bool(b) => if !b { assert Ascii(name)[1] == name[1] as int; assert FALSE_TEXT[1] == 0x61; }
      case Num(n) => if n >= 0 { DigitsFirst(n); }
      case Dec(text) => DecimalUnits(text);
      case Obj(_) => assert JsString(v).value[0] == '[' as int;
    }
  }

  /** The one-element array of a label passes, and is then neither "fresh" nor "blocked" to the
      later comparisons. */
  lemma FreshnessAdmitsArray()
    ensures KnownFreshness(Arr([Label("fresh")])) && Arr([Label("fresh")]) != Label("fresh")
  {
    assert AsciiAll(FRESHNESS)[0] == Ascii("fresh");
    assert JsString(Arr([Label("fresh")])) == Some(Ascii("fresh"));
  }

  /** A label, possibly wrapped in arrays of one element. */
  ghost predicate WrappedLabel(v: Value)
    decreases v
  {
    match v
    case Str(s) => s in AsciiAll(FRESHNESS)
    case Arr(items) => |items| == 1 && WrappedLabel(items[0])
    case _ => false
  }

  lemma LabelsPlain(t: Text)
    requires t in AsciiAll(FRESHNESS)
    ensures t != [] && COMMA !in t
  {
    var i :| 0 <= i < |FRESHNESS| && AsciiAll(FRESHNESS)[i] == t;
    var name := FRESHNESS[i];
    assert name in {"fresh", "stale", "offline", "blocked", "unknown"};
    forall k | 0 <= k < |t| ensures t[k] != COMMA { assert name[k] != ','; }
  }

  /** Exactly what passes the freshness test: the five labels and whatever wraps one of them in
      arrays of one element, and nothing else. */
  lemma {:induction false} FreshnessExactly(v: Value)
    ensures KnownFreshness(v) <==> WrappedLabel(v)
    decreases v
  {
    match v
    case Arr(items) =>
      assert JsString(v) == JsJoin(items);
      if |items| == 0 {
        if KnownFreshness(v) { LabelsPlain([]); }
      } else {
        var first := if items[0].Null? then Some([]) else JsString(items[0]);
        if |items| == 1 {
          assert JsJoin(items) == first;
          FreshnessExactly(items[0]);
          if items[0].Null? && KnownFreshness(v) { LabelsPlain([]); }
        } else if KnownFreshness(v) {
          assert JsJoin(items).value == first.value + [COMMA] + JsJoin(items[1..]).value;
          LabelsPlain(JsString(v).value);
        }
      }
    case Str(_) =>
    case _ => NoLabel(v);
  }
}
