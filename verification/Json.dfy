/** JSON values as the programs hold them after parsing: strings are sequences of UTF-16 code
    units, and an object keeps its members in insertion order.  A number is an integer, or a
    decimal represented by the text that stands for it. */
module Json {

  type Unit = x: int | 0 <= x < 0x1_0000
  type Text = seq<Unit>

  predicate IsDigit(u: Unit) {
    0x30 <= u <= 0x39
  }

  /** A unit that can occur in a number: a digit or one of `+-.Ee`. */
  predicate NumberUnit(u: Unit) {
    IsDigit(u) || u in {0x2b, 0x2d, 0x2e, 0x45, 0x65}
  }

  predicate AllDigits(t: Text) {
    forall i :: 0 <= i < |t| ==> IsDigit(t[i])
  }

  predicate IsInteger(t: Text) {
    t != [] && (AllDigits(t) || (t[0] == 0x2d && |t| > 1 && AllDigits(t[1..])))
  }

  /** An integer followed by a fraction or an exponent. */
  predicate IsDecimal(t: Text) {
    exists n :: 0 < n < |t| && IsInteger(t[..n]) && t[n] in {0x2e, 0x45, 0x65}
             && forall i :: n <= i < |t| ==> NumberUnit(t[i])
  }

  const ONE_HALF: Text := [0x30, 0x2e, 0x35]

  lemma OneHalf()
    ensures IsDecimal(ONE_HALF)
  {
    assert IsInteger(ONE_HALF[..1]);
  }

  type Decimal = t: Text | IsDecimal(t)
    ghost witness (OneHalf(); ONE_HALF)

  datatype Value =
    | Null
    | Bool(b: bool)
    | Num(n: int)
    | Dec(text: Decimal)
    | Str(s: Text)
    | Arr(items: seq<Value>)
    | Obj(fields: seq<Field>)

  datatype Field = Field(key: Text, value: Value)

  function Keys(fields: seq<Field>): (keys: seq<Text>)
    ensures |keys| == |fields| && forall i :: 0 <= i < |fields| ==> keys[i] == fields[i].key
  {
    seq(|fields|, i requires 0 <= i < |fields| => fields[i].key)
  }

  ghost predicate Distinct<T>(s: seq<T>) {
    forall i, j :: 0 <= i < j < |s| ==> s[i] != s[j]
  }

  /** `object[key]` for a key that is present. */
  function Lookup(fields: seq<Field>, key: Text): (value: Value)
    requires key in Keys(fields)
    ensures exists i :: 0 <= i < |fields| && fields[i].key == key && fields[i].value == value
  {
    if fields[0].key == key then fields[0].value
    else
      assert forall i :: 1 <= i < |fields| ==> Keys(fields)[i] == Keys(fields[1..])[i - 1];
      Lookup(fields[1..], key)
  }

  lemma {:induction false} LookupAt(fields: seq<Field>, i: nat)
    requires i < |fields| && Distinct(Keys(fields))
    ensures Keys(fields)[i] in Keys(fields) && Lookup(fields, fields[i].key) == fields[i].value
  {
    assert Keys(fields)[i] in Keys(fields);
    var j :| 0 <= j < |fields| && fields[j].key == fields[i].key
             && fields[j].value == Lookup(fields, fields[i].key);
    assert Keys(fields)[j] == Keys(fields)[i];
  }

  /** No object in the value repeats a key, which is what a JavaScript object guarantees. */
  ghost predicate WellFormed(v: Value) {
    match v
    case Arr(items) => forall i :: 0 <= i < |items| ==> WellFormed(items[i])
    case Obj(fields) =>
      && Distinct(Keys(fields))
      && forall i :: 0 <= i < |fields| ==> WellFormed(fields[i].value)
    case _ => true
  }

  /** Equality of two values with objects taken as maps: the order of members is immaterial. */
  ghost predicate Same(v: Value, w: Value)
    decreases v
  {
    match v
    case Arr(items) =>
      && w.Arr? && |w.items| == |items|
      && forall i :: 0 <= i < |items| ==> Same(items[i], w.items[i])
    case Obj(fields) =>
      && w.Obj?
      && (forall k :: k in Keys(fields) <==> k in Keys(w.fields))
      && forall k :: k in Keys(fields) ==> Same(Lookup(fields, k), Lookup(w.fields, k))
    case _ => v == w
  }

  lemma {:induction false} SameRefl(v: Value)
    ensures Same(v, v)
  {
    match v
    case Arr(items) =>
      forall i | 0 <= i < |items| ensures Same(items[i], items[i]) { SameRefl(items[i]); }
    case Obj(fields) =>
      forall k | k in Keys(fields) ensures Same(Lookup(fields, k), Lookup(fields, k)) {
        SameRefl(Lookup(fields, k));
      }
    case _ =>
  }

  /** A string literal of the source as code units. */
  function Ascii(s: string): (t: Text)
    ensures |t| == |s|
    ensures forall i :: 0 <= i < |s| ==> t[i] == if s[i] < 128 as char then s[i] as int else 0x3f
  {
    seq(|s|, i requires 0 <= i < |s| => if s[i] < 128 as char then s[i] as int else 0x3f)
  }
}
