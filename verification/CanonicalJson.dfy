/** The canonical text that is hashed and signed.  Signer and gateway carry the same printer
    (`canonicalAuthorityJson`, `canonicalJson`); it is written once here. */
module CanonicalJson {
  import opened Json

  const QUOTE: Unit := 0x22
  const COMMA: Unit := 0x2c
  const MINUS: Unit := 0x2d
  const COLON: Unit := 0x3a
  const LBRACKET: Unit := 0x5b
  const BACKSLASH: Unit := 0x5c
  const RBRACKET: Unit := 0x5d
  const LBRACE: Unit := 0x7b
  const RBRACE: Unit := 0x7d
  const NULL_TEXT: Text := [0x6e, 0x75, 0x6c, 0x6c]
  const TRUE_TEXT: Text := [0x74, 0x72, 0x75, 0x65]
  const FALSE_TEXT: Text := [0x66, 0x61, 0x6c, 0x73, 0x65]

  // ---------- strings ----------

  function HexDigit(d: nat): (u: Unit)
    requires d < 16
  {
    if d < 10 then 0x30 + d else 0x61 + d - 10
  }

  function Hex4(u: Unit): Text {
    [HexDigit(u / 16 / 16 / 16), HexDigit(u / 16 / 16 % 16), HexDigit(u / 16 % 16), HexDigit(u % 16)]
  }

  /** One code unit as `JSON.stringify` followed by the replacement of U+007F..U+FFFF prints it. */
  function EscapeUnit(u: Unit): Text {
    if u == QUOTE then [BACKSLASH, QUOTE]
    else if u == BACKSLASH then [BACKSLASH, BACKSLASH]
    else if u == 0x08 then [BACKSLASH, 0x62]
    else if u == 0x09 then [BACKSLASH, 0x74]
    else if u == 0x0a then [BACKSLASH, 0x6e]
    else if u == 0x0c then [BACKSLASH, 0x66]
    else if u == 0x0d then [BACKSLASH, 0x72]
    else if u < 0x20 || u >= 0x7f then [BACKSLASH, 0x75] + Hex4(u)
    else [u]
  }

  function EscapeAll(s: Text): Text {
    if s == [] then [] else EscapeUnit(s[0]) + EscapeAll(s[1..])
  }

  /** `asciiJsonString` */
  function Quote(s: Text): Text {
    [QUOTE] + EscapeAll(s) + [QUOTE]
  }

  // ---------- integers ----------

  function Digits(n: nat): (t: Text)
    ensures t != [] && forall i :: 0 <= i < |t| ==> 0x30 <= t[i] <= 0x39
  {
    if n < 10 then [0x30 + n] else Digits(n / 10) + [0x30 + n % 10]
  }

  function PrintInt(n: int): Text {
    if n < 0 then [MINUS] + Digits(-n) else Digits(n)
  }

  // ---------- the order of `Object.keys(object).sort()` ----------

  /** Lexicographic order by UTF-16 code unit. */
  predicate Leq(a: Text, b: Text) {
    a == [] || (b != [] && (a[0] < b[0] || (a[0] == b[0] && Leq(a[1..], b[1..]))))
  }

  function InsertKey(k: Text, ks: seq<Text>): seq<Text> {
    if ks == [] || Leq(k, ks[0]) then [k] + ks else [ks[0]] + InsertKey(k, ks[1..])
  }

  function SortKeys(ks: seq<Text>): (sorted: seq<Text>)
    ensures forall k :: k in sorted <==> k in ks
  {
    if ks == [] then []
    else
      InsertKeyMembers(ks[0], SortKeys(ks[1..]));
      InsertKey(ks[0], SortKeys(ks[1..]))
  }

  lemma {:induction false} InsertKeyMembers(k: Text, ks: seq<Text>)
    ensures forall x :: x in InsertKey(k, ks) <==> x == k || x in ks
    ensures multiset(InsertKey(k, ks)) == multiset(ks) + multiset{k}
  {
    if ks == [] || Leq(k, ks[0]) {
    } else {
      InsertKeyMembers(k, ks[1..]);
      assert ks == [ks[0]] + ks[1..];
    }
  }

  // ---------- the printer ----------

  function Print(v: Value): Text
    decreases v
  {
    match v
    case Null => NULL_TEXT
    case Bool(b) => if b then TRUE_TEXT else FALSE_TEXT
    case Num(n) => PrintInt(n)
    case Dec(text) => text
    case Str(s) => Quote(s)
    case Arr(items) => [LBRACKET] + PrintItems(items) + [RBRACKET]
    case Obj(fields) => [LBRACE] + PrintMembers(SortKeys(Keys(fields)), fields) + [RBRACE]
  }

  function PrintItems(items: seq<Value>): Text
    decreases items
  {
    if |items| == 0 then []
    else if |items| == 1 then Print(items[0])
    else Print(items[0]) + [COMMA] + PrintItems(items[1..])
  }

  function PrintMembers(ks: seq<Text>, fields: seq<Field>): Text
    requires forall k :: k in ks ==> k in Keys(fields)
    decreases fields, |ks|
  {
    if |ks| == 0 then []
    else
      var member := Quote(ks[0]) + [COLON] + Print(Lookup(fields, ks[0]));
      if |ks| == 1 then member else member + [COMMA] + PrintMembers(ks[1..], fields)
  }

  // ---------- the printed text is plain ASCII ----------

  predicate Plain(t: Text) {
    forall i :: 0 <= i < |t| ==> 0x20 <= t[i] < 0x7f
  }

  lemma {:induction false} EscapePlain(s: Text)
    ensures Plain(EscapeAll(s))
  {
    if s != [] { EscapePlain(s[1..]); }
  }

  lemma DecimalUnits(t: Decimal)
    ensures t != [] && (t[0] == MINUS || IsDigit(t[0]))
    ensures forall i :: 0 <= i < |t| ==> NumberUnit(t[i])
    ensures !IsInteger(t)
  {
    var n :| 0 < n < |t| && IsInteger(t[..n]) && t[n] in {0x2e, 0x45, 0x65}
          && forall i :: n <= i < |t| ==> NumberUnit(t[i]);
    assert !IsDigit(t[n]) && t[0] == t[..n][0];
    assert t[1..][n - 1] == t[n];
    forall i | 0 <= i < n ensures NumberUnit(t[i]) {
      assert t[..n][i] == t[i];
      if i > 0 { assert t[..n][1..][i - 1] == t[i]; }
    }
  }

  /** Every printed text consists of printable ASCII, so encoding it as UTF-8 is one byte a unit. */
  lemma {:induction false} PrintPlain(v: Value)
    ensures Plain(Print(v))
    decreases v
  {
    match v
    case Dec(text) => DecimalUnits(text);
    case Str(s) => EscapePlain(s);
    case Arr(items) => ItemsPlain(items);
    case Obj(fields) => MembersPlain(SortKeys(Keys(fields)), fields);
    case _ =>
  }

  lemma {:induction false} ItemsPlain(items: seq<Value>)
    ensures Plain(PrintItems(items))
    decreases items
  {
    if |items| > 0 {
      PrintPlain(items[0]);
      ItemsPlain(items[1..]);
    }
  }

  lemma JoinedPlain(a: Text, unit: Unit, b: Text)
    requires Plain(a) && Plain([unit]) && Plain(b)
    ensures Plain(a + [unit] + b)
  {
  }

  lemma {:induction false} MembersPlain(ks: seq<Text>, fields: seq<Field>)
    requires forall k :: k in ks ==> k in Keys(fields)
    ensures Plain(PrintMembers(ks, fields))
    decreases fields, |ks|
  {
    assert Plain([COLON]) && Plain([COMMA]) && Plain([]);
    if |ks| > 0 {
      var name, value := Quote(ks[0]), Print(Lookup(fields, ks[0]));
      assert Plain(name) by { EscapePlain(ks[0]); }
      PrintPlain(Lookup(fields, ks[0]));
      hide Plain, Print, Quote;
      JoinedPlain(name, COLON, value);
      MembersPlain(ks[1..], fields);
      JoinedPlain(name + [COLON] + value, COMMA, PrintMembers(ks[1..], fields));
    }
  }
}
