/** A parser for canonical text.  It inverts the printer, which is how the canonical text is
    shown to determine the value: nothing else can print the same text. */
module CanonicalParser {
  import opened Json
  import opened CanonicalJson

  datatype Parsed<+T> = Fail | Ok(value: T, rest: Text)

  // ---------- strings ----------

  predicate IsHexDigit(u: Unit) {
    0x30 <= u <= 0x39 || 0x61 <= u <= 0x66
  }

  function HexValue(u: Unit): (d: nat)
    requires IsHexDigit(u)
    ensures d < 16
  {
    if u <= 0x39 then u - 0x30 else u - 0x61 + 10
  }

  /** Reads one possibly escaped code unit. */
  function ParseUnit(t: Text): (r: Parsed<Unit>)
    ensures r.Ok? ==> |r.rest| < |t|
  {
    if t == [] then Fail
    else if t[0] != BACKSLASH then Ok(t[0], t[1..])
    else if |t| < 2 then Fail
    else if t[1] == 0x75 then
      if |t| >= 6 && IsHexDigit(t[2]) && IsHexDigit(t[3]) && IsHexDigit(t[4]) && IsHexDigit(t[5]) then
        Ok(HexValue(t[2]) * 4096 + HexValue(t[3]) * 256 + HexValue(t[4]) * 16 + HexValue(t[5]), t[6..])
      else Fail
    else
      var rest := t[2..];
      match t[1]
      case 0x22 => Ok(QUOTE, rest)
      case 0x5c => Ok(BACKSLASH, rest)
      case 0x62 => Ok(0x08, rest)
      case 0x74 => Ok(0x09, rest)
      case 0x6e => Ok(0x0a, rest)
      case 0x66 => Ok(0x0c, rest)
      case 0x72 => Ok(0x0d, rest)
      case _ => Fail
  }

  /** Reads the rest of a string up to and including its closing quote. */
  function ParseChars(t: Text): (r: Parsed<Text>)
    ensures r.Ok? ==> |r.rest| < |t|
    decreases |t|
  {
    if t == [] then Fail
    else if t[0] == QUOTE then Ok([], t[1..])
    else match ParseUnit(t)
      case Fail => Fail
      case Ok(u, rest) =>
        match ParseChars(rest)
        case Fail => Fail
        case Ok(s, rest') => Ok([u] + s, rest')
  }

  lemma HexSplit(u: Unit)
    ensures u / 16 / 16 / 16 < 16
    ensures u / 16 / 16 / 16 * 4096 + u / 16 / 16 % 16 * 256 + u / 16 % 16 * 16 + u % 16 == u
  {
  }

  lemma HexDigitRoundTrip(d: nat)
    requires d < 16
    ensures IsHexDigit(HexDigit(d)) && HexValue(HexDigit(d)) == d
  {
  }

  lemma HexRoundTrip(u: Unit, rest: Text)
    ensures ParseUnit([BACKSLASH, 0x75] + Hex4(u) + rest) == Ok(u, rest)
  {
    HexSplit(u);
    var a, b, c, d := u / 16 / 16 / 16, u / 16 / 16 % 16, u / 16 % 16, u % 16;
    HexDigitRoundTrip(a);
    HexDigitRoundTrip(b);
    HexDigitRoundTrip(c);
    HexDigitRoundTrip(d);
    var t := [BACKSLASH, 0x75] + Hex4(u) + rest;
    assert t[0] == BACKSLASH && t[1] == 0x75;
    assert t[2] == HexDigit(a) && t[3] == HexDigit(b) && t[4] == HexDigit(c) && t[5] == HexDigit(d);
    assert t[6..] == rest;
  }

  lemma HexDigitOf(u: Unit)
    requires IsHexDigit(u)
    ensures HexDigit(HexValue(u)) == u
  {
  }

  lemma Hex4Unique(a: Unit, b: Unit, c: Unit, d: Unit)
    requires IsHexDigit(a) && IsHexDigit(b) && IsHexDigit(c) && IsHexDigit(d)
    ensures Hex4(HexValue(a) * 4096 + HexValue(b) * 256 + HexValue(c) * 16 + HexValue(d)) == [a, b, c, d]
  {
    HexDigitOf(a);
    HexDigitOf(b);
    HexDigitOf(c);
    HexDigitOf(d);
    DigitsOfSum(HexValue(a), HexValue(b), HexValue(c), HexValue(d));
  }

  lemma DigitsOfSum(a: nat, b: nat, c: nat, d: nat)
    requires a < 16 && b < 16 && c < 16 && d < 16
    ensures var u := a * 4096 + b * 256 + c * 16 + d;
      u / 16 / 16 / 16 == a && u / 16 / 16 % 16 == b && u / 16 % 16 == c && u % 16 == d
  {
    var u := a * 4096 + b * 256 + c * 16 + d;
    assert u / 16 == a * 256 + b * 16 + c;
    assert u / 16 / 16 == a * 16 + b;
  }

  /** Of all plain texts that stand for a unit inside a string, the printed one is the shortest, and no
      other is as short. */
  lemma EscapeShortest(u: Unit, t: Text)
    requires ParseUnit(t) == Ok(u, []) && Plain(t) && t[0] != 0x22
    ensures |EscapeUnit(u)| <= |t| && (|EscapeUnit(u)| == |t| ==> EscapeUnit(u) == t)
  {
    if t[0] != BACKSLASH {
      assert t == [t[0]] + t[1..];
    } else if t[1] == 0x75 {
      assert t == t[..6] + t[6..] && t[..6] == [BACKSLASH, 0x75] + [t[2], t[3], t[4], t[5]];
      Hex4Unique(t[2], t[3], t[4], t[5]);
    } else {
      assert t == t[..2] + t[2..] && t[..2] == [t[0], t[1]];
    }
  }

  lemma {:induction false} NoLeadingZero(n: nat)
    requires n > 0
    ensures Digits(n)[0] != 0x30
  {
    if n >= 10 { NoLeadingZero(n / 10); }
  }

  lemma UnitRoundTrip(u: Unit, rest: Text)
    ensures ParseUnit(EscapeUnit(u) + rest) == Ok(u, rest)
    ensures EscapeUnit(u) != [] && EscapeUnit(u)[0] != QUOTE
  {
    var e := EscapeUnit(u);
    if |e| == 6 {
      HexRoundTrip(u, rest);
    } else {
      assert (e + rest)[|e|..] == rest;
    }
  }

  lemma {:induction false} CharsRoundTrip(s: Text, rest: Text)
    ensures ParseChars(EscapeAll(s) + [QUOTE] + rest) == Ok(s, rest)
  {
    hide ParseUnit, EscapeUnit;
    if s == [] {
      assert EscapeAll(s) + [QUOTE] + rest == [QUOTE] + rest;
    } else {
      var tail := EscapeAll(s[1..]) + [QUOTE] + rest;
      assert EscapeAll(s) + [QUOTE] + rest == EscapeUnit(s[0]) + tail;
      UnitRoundTrip(s[0], tail);
      CharsRoundTrip(s[1..], rest);
      assert s == [s[0]] + s[1..];
    }
  }

  // ---------- integers ----------

  function SpanDigits(t: Text): (n: nat)
    ensures n <= |t| && forall i :: 0 <= i < n ==> IsDigit(t[i])
  {
    if t == [] || !IsDigit(t[0]) then 0 else 1 + SpanDigits(t[1..])
  }

  function Decimal(t: Text): nat
    requires forall i :: 0 <= i < |t| ==> IsDigit(t[i])
  {
    if t == [] then 0
    else
      assert IsDigit(t[|t| - 1]);
      10 * Decimal(t[..|t| - 1]) + (t[|t| - 1] as int - 0x30)
  }

  function ParseNat(t: Text): (r: Parsed<nat>)
    ensures r.Ok? ==> |r.rest| < |t|
  {
    var n := SpanDigits(t);
    if n == 0 then Fail else Ok(Decimal(t[..n]), t[n..])
  }

  function SpanNumber(t: Text): (n: nat)
    ensures n <= |t|
  {
    if t == [] || !NumberUnit(t[0]) then 0 else 1 + SpanNumber(t[1..])
  }

  function ParseNumber(t: Text): (r: Parsed<Value>)
    requires t != []
    ensures r.Ok? ==> |r.rest| < |t|
  {
    var n := SpanNumber(t);
    if IsDecimal(t[..n]) then Ok(Dec(t[..n]), t[n..])
    else if t[0] == MINUS then Negated(ParseNat(t[1..]))
    else Whole(ParseNat(t))
  }

  function Whole(p: Parsed<nat>): Parsed<Value> {
    match p
    case Fail => Fail
    case Ok(n, rest) => Ok(Num(n), rest)
  }

  function Negated(p: Parsed<nat>): Parsed<Value> {
    match p
    case Fail => Fail
    case Ok(n, rest) => Ok(Num(0 - n), rest)
  }

  /** What may follow a value inside a larger text: a number must not run on. */
  predicate Ends(rest: Text) {
    rest == [] || rest[0] in {COMMA, RBRACKET, RBRACE}
  }

  lemma {:induction false} SpanExact(d: Text, rest: Text)
    requires Ends(rest) && forall i :: 0 <= i < |d| ==> IsDigit(d[i])
    ensures SpanDigits(d + rest) == |d|
  {
    if d == [] {
      assert d + rest == rest;
    } else {
      assert (d + rest)[1..] == d[1..] + rest;
      SpanExact(d[1..], rest);
    }
  }

  lemma {:induction false} SpanNumberExact(d: Text, rest: Text)
    requires Ends(rest) && forall i :: 0 <= i < |d| ==> NumberUnit(d[i])
    ensures SpanNumber(d + rest) == |d|
    ensures (d + rest)[..|d|] == d && (d + rest)[|d|..] == rest
  {
    if d == [] {
      assert d + rest == rest;
    } else {
      assert (d + rest)[1..] == d[1..] + rest;
      SpanNumberExact(d[1..], rest);
    }
  }

  /** The printed form of an integer is no decimal. */
  lemma IntegerNotDecimal(t: Text)
    requires IsInteger(t)
    ensures !IsDecimal(t) && forall i :: 0 <= i < |t| ==> NumberUnit(t[i])
  {
    if IsDecimal(t) { DecimalUnits(t); }
    if !AllDigits(t) {
      forall i | 1 <= i < |t| ensures NumberUnit(t[i]) { assert t[1..][i - 1] == t[i]; }
    }
  }

  lemma {:induction false} DecimalDigits(n: nat)
    ensures Decimal(Digits(n)) == n
  {
    if n < 10 {
      assert Digits(n)[..0] == [];
    } else {
      DecimalDigits(n / 10);
      assert Digits(n)[..|Digits(n)| - 1] == Digits(n / 10);
    }
  }

  lemma NatRoundTrip(n: nat, rest: Text)
    requires Ends(rest)
    ensures ParseNat(Digits(n) + rest) == Ok(n, rest)
  {
    SpanExact(Digits(n), rest);
    DecimalDigits(n);
    assert (Digits(n) + rest)[..|Digits(n)|] == Digits(n);
    assert (Digits(n) + rest)[|Digits(n)|..] == rest;
  }

  // ---------- values ----------

  predicate StartsWith(t: Text, prefix: Text) {
    |prefix| <= |t| && t[..|prefix|] == prefix
  }

  function ParseValue(t: Text): (r: Parsed<Value>)
    ensures r.Ok? ==> |r.rest| < |t|
    decreases |t|, 1
  {
    if t == [] then Fail
    else if t[0] == QUOTE then
      match ParseChars(t[1..])
      case Fail => Fail
      case Ok(s, rest) => Ok(Str(s), rest)
    else if t[0] == LBRACKET then
      if |t| >= 2 && t[1] == RBRACKET then Ok(Arr([]), t[2..])
      else match ParseItems(t[1..])
        case Fail => Fail
        case Ok(items, rest) => Ok(Arr(items), rest)
    else if t[0] == LBRACE then
      if |t| >= 2 && t[1] == RBRACE then Ok(Obj([]), t[2..])
      else match ParseMembers(t[1..])
        case Fail => Fail
        case Ok(fields, rest) => Ok(Obj(fields), rest)
    else if t[0] == MINUS || IsDigit(t[0]) then ParseNumber(t)
    else if StartsWith(t, NULL_TEXT) then Ok(Null, t[4..])
    else if StartsWith(t, TRUE_TEXT) then Ok(Bool(true), t[4..])
    else if StartsWith(t, FALSE_TEXT) then Ok(Bool(false), t[5..])
    else Fail
  }

  /** One or more values up to and including the closing bracket. */
  function ParseItems(t: Text): (r: Parsed<seq<Value>>)
    ensures r.Ok? ==> |r.rest| < |t|
    decreases |t|, 2
  {
    match ParseValue(t)
    case Fail => Fail
    case Ok(v, rest) =>
      if rest == [] then Fail
      else if rest[0] == RBRACKET then Ok([v], rest[1..])
      else if rest[0] == COMMA then
        match ParseItems(rest[1..])
        case Fail => Fail
        case Ok(vs, rest') => Ok([v] + vs, rest')
      else Fail
  }

  /** One or more members up to and including the closing brace. */
  function ParseMembers(t: Text): (r: Parsed<seq<Field>>)
    ensures r.Ok? ==> |r.rest| < |t|
    decreases |t|, 2
  {
    match ParseMember(t)
    case Fail => Fail
    case Ok(f, rest) =>
      if rest == [] then Fail
      else if rest[0] == RBRACE then Ok([f], rest[1..])
      else if rest[0] == COMMA then
        match ParseMembers(rest[1..])
        case Fail => Fail
        case Ok(fs, rest') => Ok([f] + fs, rest')
      else Fail
  }

  function ParseMember(t: Text): (r: Parsed<Field>)
    ensures r.Ok? ==> |r.rest| < |t|
    decreases |t|, 0
  {
    if t == [] || t[0] != QUOTE then Fail
    else match ParseChars(t[1..])
      case Fail => Fail
      case Ok(k, rest) =>
        if rest == [] || rest[0] != COLON then Fail
        else match ParseValue(rest[1..])
          case Fail => Fail
          case Ok(v, rest') => Ok(Field(k, v), rest')
  }

  // ---------- what the parser gives back: the value with its members in key order ----------

  function Norm(v: Value): Value
    decreases v
  {
    match v
    case Arr(items) => Arr(NormItems(items))
    case Obj(fields) => Obj(NormMembers(SortKeys(Keys(fields)), fields))
    case _ => v
  }

  function NormItems(items: seq<Value>): (r: seq<Value>)
    ensures |r| == |items| && forall i :: 0 <= i < |items| ==> r[i] == Norm(items[i])
    decreases items
  {
    if items == [] then [] else [Norm(items[0])] + NormItems(items[1..])
  }

  function NormMembers(ks: seq<Text>, fields: seq<Field>): (r: seq<Field>)
    requires forall k :: k in ks ==> k in Keys(fields)
    ensures |r| == |ks|
    ensures forall i :: 0 <= i < |ks| ==> r[i] == Field(ks[i], Norm(Lookup(fields, ks[i])))
    decreases fields, |ks|
  {
    if ks == [] then []
    else [Field(ks[0], Norm(Lookup(fields, ks[0])))] + NormMembers(ks[1..], fields)
  }

  // ---------- the parser inverts the printer ----------

  lemma DigitsFirst(n: nat)
    ensures IsDigit(Digits(n)[0])
  {
  }

  lemma {:induction false} PrintFirst(v: Value)
    ensures Print(v) != [] && Print(v)[0] !in {RBRACKET, RBRACE}
  {
    if v.Num? {
      if v.n < 0 { DigitsFirst(-v.n); } else { DigitsFirst(v.n); }
    } else if v.Dec? {
      DecimalUnits(v.text);
    }
  }

  lemma LiteralRoundTrip(v: Value, rest: Text)
    requires v.Null? || v.Bool?
    ensures ParseValue(Print(v) + rest) == Ok(v, rest)
  {
    var t := Print(v) + rest;
    assert t[..|Print(v)|] == Print(v) && t[|Print(v)|..] == rest;
    assert t[0] == Print(v)[0];
  }

  lemma NumberToken(t: Text, token: Text, rest: Text)
    requires t == token + rest && IsInteger(token) && Ends(rest)
    ensures ParseNumber(t) == if t[0] == MINUS then Negated(ParseNat(t[1..])) else Whole(ParseNat(t))
  {
    hide IsDecimal, IsInteger, ParseNat, NumberUnit, SpanNumber;
    IntegerNotDecimal(token);
    SpanNumberExact(token, rest);
  }

  lemma NegativeRoundTrip(n: nat, rest: Text)
    requires Ends(rest)
    ensures ParseValue([MINUS] + Digits(n) + rest) == Ok(Num(0 - n), rest)
  {
    hide ParseNumber, ParseNat, Digits, Ends;
    var token := [MINUS] + Digits(n);
    var t := token + rest;
    assert t[0] == MINUS && t[1..] == Digits(n) + rest && token[1..] == Digits(n);
    NumberToken(t, token, rest);
    NatRoundTrip(n, rest);
  }

  lemma NumberRoundTrip(n: int, rest: Text)
    requires Ends(rest)
    ensures ParseValue(PrintInt(n) + rest) == Ok(Num(n), rest)
  {
    hide ParseNumber, ParseNat, Digits, Ends;
    if n < 0 {
      NegativeRoundTrip(-n, rest);
    } else {
      DigitsFirst(n);
      NatRoundTrip(n, rest);
      NumberToken(Digits(n) + rest, Digits(n), rest);
    }
  }

  lemma DecimalRoundTrip(text: Decimal, rest: Text)
    requires Ends(rest)
    ensures ParseValue(text + rest) == Ok(Dec(text), rest)
  {
    DecimalUnits(text);
    SpanNumberExact(text, rest);
  }

  lemma StringRoundTrip(s: Text, rest: Text)
    ensures ParseValue(Quote(s) + rest) == Ok(Str(s), rest)
  {
    var t := Quote(s) + rest;
    assert t[0] == QUOTE && t[1..] == EscapeAll(s) + [QUOTE] + rest;
    CharsRoundTrip(s, rest);
  }

  lemma EmptyRoundTrip(rest: Text)
    ensures ParseValue([LBRACKET] + [] + [RBRACKET] + rest) == Ok(Arr([]), rest)
    ensures ParseValue([LBRACE] + [] + [RBRACE] + rest) == Ok(Obj([]), rest)
  {
    var a, o := [LBRACKET] + [] + [RBRACKET] + rest, [LBRACE] + [] + [RBRACE] + rest;
    assert a[0] == LBRACKET && a[1] == RBRACKET && a[2..] == rest;
    assert o[0] == LBRACE && o[1] == RBRACE && o[2..] == rest;
  }

  /** A container parses as its body does. */
  lemma BodyRoundTrip(body: Text, rest: Text)
    requires body != [] && body[0] != RBRACKET && body[0] != RBRACE
    ensures ParseItems(body + [RBRACKET] + rest).Ok? ==>
      var r := ParseItems(body + [RBRACKET] + rest);
      ParseValue([LBRACKET] + body + [RBRACKET] + rest) == Ok(Arr(r.value), r.rest)
    ensures ParseMembers(body + [RBRACE] + rest).Ok? ==>
      var r := ParseMembers(body + [RBRACE] + rest);
      ParseValue([LBRACE] + body + [RBRACE] + rest) == Ok(Obj(r.value), r.rest)
  {
    var a, o := [LBRACKET] + body + [RBRACKET] + rest, [LBRACE] + body + [RBRACE] + rest;
    assert a[0] == LBRACKET && a[1] == body[0] && a[1..] == body + [RBRACKET] + rest;
    assert o[0] == LBRACE && o[1] == body[0] && o[1..] == body + [RBRACE] + rest;
  }

  lemma {:induction false} ValueRoundTrip(v: Value, rest: Text)
    requires Ends(rest)
    ensures ParseValue(Print(v) + rest) == Ok(Norm(v), rest)
    decreases v
  {
    match v
    case Num(n) => NumberRoundTrip(n, rest);
    case Dec(text) => DecimalRoundTrip(text, rest);
    case Str(s) => StringRoundTrip(s, rest);
    case Arr(items) =>
      if items == [] {
        EmptyRoundTrip(rest);
      } else {
        PrintFirst(items[0]);
        ItemsRoundTrip(items, rest);
        BodyRoundTrip(PrintItems(items), rest);
      }
    case Obj(fields) =>
      var ks := SortKeys(Keys(fields));
      if ks == [] {
        EmptyRoundTrip(rest);
      } else {
        assert PrintMembers(ks, fields)[0] == QUOTE;
        MembersRoundTrip(ks, fields, rest);
        BodyRoundTrip(PrintMembers(ks, fields), rest);
      }
    case _ => LiteralRoundTrip(v, rest);
  }

  lemma {:induction false} ItemsRoundTrip(items: seq<Value>, rest: Text)
    requires items != []
    ensures ParseItems(PrintItems(items) + [RBRACKET] + rest) == Ok(NormItems(items), rest)
    decreases items
  {
    var t := PrintItems(items) + [RBRACKET] + rest;
    if |items| == 1 {
      var tail := [RBRACKET] + rest;
      assert t == Print(items[0]) + tail;
      ValueRoundTrip(items[0], tail);
      assert tail[1..] == rest;
      assert NormItems(items) == [Norm(items[0])];
    } else {
      var after := PrintItems(items[1..]) + [RBRACKET] + rest;
      var tail := [COMMA] + after;
      assert t == Print(items[0]) + tail;
      ValueRoundTrip(items[0], tail);
      assert tail[1..] == after;
      ItemsRoundTrip(items[1..], rest);
    }
  }

  lemma {:induction false} MemberRoundTrip(k: Text, v: Value, rest: Text)
    requires ParseValue(Print(v) + rest) == Ok(Norm(v), rest)
    ensures ParseMember(Quote(k) + [COLON] + Print(v) + rest) == Ok(Field(k, Norm(v)), rest)
  {
    hide Print, Norm, ParseValue, ParseChars, EscapeAll;
    var t := Quote(k) + [COLON] + Print(v) + rest;
    var tail := [COLON] + (Print(v) + rest);
    assert t[0] == QUOTE && t[1..] == EscapeAll(k) + [QUOTE] + tail;
    CharsRoundTrip(k, tail);
    assert tail[1..] == Print(v) + rest;
  }

  /** How a member list parses once its first member and what follows are known. */
  lemma MembersStep(t: Text, f: Field, tail: Text)
    requires ParseMember(t) == Ok(f, tail) && tail != []
    ensures tail[0] == RBRACE ==> ParseMembers(t) == Ok([f], tail[1..])
    ensures tail[0] == COMMA && ParseMembers(tail[1..]).Ok? ==>
      ParseMembers(t) == Ok([f] + ParseMembers(tail[1..]).value, ParseMembers(tail[1..]).rest)
  {
  }

  lemma {:induction false} MembersRoundTrip(ks: seq<Text>, fields: seq<Field>, rest: Text)
    requires ks != [] && forall k :: k in ks ==> k in Keys(fields)
    ensures ParseMembers(PrintMembers(ks, fields) + [RBRACE] + rest) == Ok(NormMembers(ks, fields), rest)
    decreases fields, |ks|
  {
    hide Print, Norm, Quote, ParseMember, ParseMembers, ParseValue;
    var v := Lookup(fields, ks[0]);
    var member := Quote(ks[0]) + [COLON] + Print(v);
    var t := PrintMembers(ks, fields) + [RBRACE] + rest;
    var after := if |ks| == 1 then rest else PrintMembers(ks[1..], fields) + [RBRACE] + rest;
    var tail := [if |ks| == 1 then RBRACE else COMMA] + after;
    assert t == member + tail;
    ValueRoundTrip(v, tail);
    MemberRoundTrip(ks[0], v, tail);
    MembersStep(t, Field(ks[0], Norm(v)), tail);
    assert tail[1..] == after;
    if |ks| == 1 {
      assert NormMembers(ks, fields) == [Field(ks[0], Norm(v))];
    } else {
      MembersRoundTrip(ks[1..], fields, rest);
    }
  }

  // ---------- key order does not matter, and nothing else is lost ----------

  lemma {:induction false} LeqTotal(a: Text, b: Text)
    ensures Leq(a, b) || Leq(b, a)
  {
    if a != [] && b != [] && a[0] == b[0] { LeqTotal(a[1..], b[1..]); }
  }

  lemma {:induction false} LeqAntisymmetric(a: Text, b: Text)
    requires Leq(a, b) && Leq(b, a)
    ensures a == b
  {
    if a != [] && b != [] {
      LeqAntisymmetric(a[1..], b[1..]);
      assert a == [a[0]] + a[1..] && b == [b[0]] + b[1..];
    }
  }

  lemma {:induction false} LeqTransitive(a: Text, b: Text, c: Text)
    requires Leq(a, b) && Leq(b, c)
    ensures Leq(a, c)
  {
    if a != [] && a[0] == b[0] && b[0] == c[0] { LeqTransitive(a[1..], b[1..], c[1..]); }
  }

  ghost predicate Sorted(ks: seq<Text>) {
    forall i, j :: 0 <= i < j < |ks| ==> Leq(ks[i], ks[j])
  }

  lemma {:induction false} InsertSorted(k: Text, ks: seq<Text>)
    requires Sorted(ks)
    ensures Sorted(InsertKey(k, ks))
  {
    if ks == [] {
    } else if Leq(k, ks[0]) {
      forall j | 0 <= j < |ks| ensures Leq(k, ks[j]) {
        if j > 0 { LeqTransitive(k, ks[0], ks[j]); }
      }
    } else {
      LeqTotal(k, ks[0]);
      InsertSorted(k, ks[1..]);
      InsertKeyMembers(k, ks[1..]);
      var r := InsertKey(k, ks[1..]);
      forall j | 0 <= j < |r| ensures Leq(ks[0], r[j]) {
        assert r[j] in r;
      }
    }
  }

  lemma {:induction false} SortKeysSorted(ks: seq<Text>)
    ensures Sorted(SortKeys(ks)) && multiset(SortKeys(ks)) == multiset(ks)
  {
    if ks != [] {
      SortKeysSorted(ks[1..]);
      InsertSorted(ks[0], SortKeys(ks[1..]));
      InsertKeyMembers(ks[0], SortKeys(ks[1..]));
      assert ks == [ks[0]] + ks[1..];
    }
  }

  lemma SortedHead(a: seq<Text>, b: seq<Text>)
    requires a != [] && b != [] && Sorted(a) && Sorted(b) && a[0] in b && b[0] in a
    ensures a[0] == b[0]
  {
    var i :| 0 <= i < |b| && b[i] == a[0];
    var j :| 0 <= j < |a| && a[j] == b[0];
    if i > 0 && j > 0 { LeqAntisymmetric(a[0], b[0]); }
  }

  /** A sorted sequence is determined by its multiset of elements. */
  lemma {:induction false} SortedUnique(a: seq<Text>, b: seq<Text>)
    requires Sorted(a) && Sorted(b) && multiset(a) == multiset(b)
    ensures a == b
  {
    assert |multiset(a)| == |a| && |multiset(b)| == |b|;
    if a != [] {
      assert a[0] in multiset(b) && b[0] in multiset(a);
      SortedHead(a, b);
      assert a == [a[0]] + a[1..] && b == [b[0]] + b[1..];
      assert multiset(a[1..]) == multiset(a) - multiset{a[0]};
      assert multiset(b[1..]) == multiset(b) - multiset{b[0]};
      SortedTail(a);
      SortedTail(b);
      SortedUnique(a[1..], b[1..]);
    }
  }

  lemma SortedTail(a: seq<Text>)
    requires a != [] && Sorted(a)
    ensures Sorted(a[1..])
  {
  }

  lemma {:induction false} DistinctMultiplicity<T>(s: seq<T>)
    requires Distinct(s)
    ensures forall x :: multiset(s)[x] == if x in s then 1 else 0
  {
    if s != [] {
      assert s == [s[0]] + s[1..];
      DistinctMultiplicity(s[1..]);
      assert s[0] !in s[1..];
    }
  }

  /** The order in which an object received its members is not visible in its sorted keys. */
  lemma SortKeysCanonical(a: seq<Text>, b: seq<Text>)
    requires Distinct(a) && Distinct(b) && forall k :: k in a <==> k in b
    ensures SortKeys(a) == SortKeys(b)
  {
    DistinctMultiplicity(a);
    DistinctMultiplicity(b);
    SortKeysSorted(a);
    SortKeysSorted(b);
    SortedUnique(SortKeys(a), SortKeys(b));
  }

  lemma LookupWellFormed(fields: seq<Field>, k: Text)
    requires WellFormed(Obj(fields)) && k in Keys(fields)
    ensures WellFormed(Lookup(fields, k))
  {
  }

  lemma {:induction false} SameNorm(v: Value, w: Value)
    requires WellFormed(v) && WellFormed(w) && Same(v, w)
    ensures Norm(v) == Norm(w)
    decreases v
  {
    match v
    case Arr(items) =>
      forall i | 0 <= i < |items| ensures Norm(items[i]) == Norm(w.items[i]) {
        SameNorm(items[i], w.items[i]);
      }
    case Obj(fields) =>
      SortKeysCanonical(Keys(fields), Keys(w.fields));
      forall k | k in Keys(fields) ensures Norm(Lookup(fields, k)) == Norm(Lookup(w.fields, k)) {
        LookupWellFormed(fields, k);
        LookupWellFormed(w.fields, k);
        SameNorm(Lookup(fields, k), Lookup(w.fields, k));
      }
    case _ =>
  }

  lemma {:induction false} NormSame(v: Value, w: Value)
    requires Norm(v) == Norm(w)
    ensures Same(v, w)
    decreases v
  {
    match v
    case Arr(items) =>
      forall i | 0 <= i < |items| ensures Same(items[i], w.items[i]) {
        assert NormItems(items)[i] == NormItems(w.items)[i];
        NormSame(items[i], w.items[i]);
      }
    case Obj(fields) =>
      var ks, js := SortKeys(Keys(fields)), SortKeys(Keys(w.fields));
      var a, b := NormMembers(ks, fields), NormMembers(js, w.fields);
      assert a == b;
      forall i | 0 <= i < |ks| ensures ks[i] == js[i] { assert a[i] == b[i]; }
      assert ks == js;
      forall k | k in Keys(fields) ensures Same(Lookup(fields, k), Lookup(w.fields, k)) {
        var i :| 0 <= i < |ks| && ks[i] == k;
        assert a[i].value == b[i].value;
        NormSame(Lookup(fields, k), Lookup(w.fields, k));
      }
    case _ =>
  }

  lemma {:induction false} SamePrint(v: Value, w: Value)
    requires WellFormed(v) && WellFormed(w) && Same(v, w)
    ensures Print(v) == Print(w)
    decreases v
  {
    match v
    case Arr(items) => SamePrintItems(items, w.items);
    case Obj(fields) =>
      var ks := SortKeys(Keys(fields));
      SortKeysCanonical(Keys(fields), Keys(w.fields));
      SamePrintMembers(ks, fields, w.fields);
    case _ =>
  }

  lemma {:induction false} SamePrintItems(items: seq<Value>, others: seq<Value>)
    requires |items| == |others|
    requires forall i :: 0 <= i < |items| ==>
      WellFormed(items[i]) && WellFormed(others[i]) && Same(items[i], others[i])
    ensures PrintItems(items) == PrintItems(others)
    decreases items
  {
    if |items| > 0 {
      SamePrint(items[0], others[0]);
      SamePrintItems(items[1..], others[1..]);
    }
  }

  lemma {:induction false} SamePrintMembers(ks: seq<Text>, fields: seq<Field>, others: seq<Field>)
    requires WellFormed(Obj(fields)) && WellFormed(Obj(others)) && Same(Obj(fields), Obj(others))
    requires forall k :: k in ks ==> k in Keys(fields)
    ensures PrintMembers(ks, fields) == PrintMembers(ks, others)
    decreases fields, |ks|
  {
    if |ks| > 0 {
      LookupWellFormed(fields, ks[0]);
      LookupWellFormed(others, ks[0]);
      SamePrint(Lookup(fields, ks[0]), Lookup(others, ks[0]));
      SamePrintMembers(ks[1..], fields, others);
    }
  }

  lemma {:induction false} SameAsNorm(v: Value)
    requires WellFormed(v)
    ensures Same(v, Norm(v))
    decreases v
  {
    match v
    case Arr(items) =>
      forall i | 0 <= i < |items| ensures Same(items[i], Norm(items[i])) { SameAsNorm(items[i]); }
    case Obj(fields) =>
      var ks := SortKeys(Keys(fields));
      var members := NormMembers(ks, fields);
      SortKeysDistinct(Keys(fields));
      assert Keys(members) == ks;
      forall k | k in Keys(fields) ensures Same(Lookup(fields, k), Lookup(members, k)) {
        var i :| 0 <= i < |ks| && ks[i] == k;
        LookupAt(members, i);
        LookupWellFormed(fields, k);
        SameAsNorm(Lookup(fields, k));
      }
    case _ =>
  }

  lemma {:induction false} SortKeysDistinct(ks: seq<Text>)
    requires Distinct(ks)
    ensures Distinct(SortKeys(ks))
  {
    if ks != [] {
      SortKeysDistinct(ks[1..]);
      InsertDistinct(ks[0], SortKeys(ks[1..]));
    }
  }

  lemma {:induction false} InsertDistinct(k: Text, ks: seq<Text>)
    requires Distinct(ks) && k !in ks
    ensures Distinct(InsertKey(k, ks))
  {
    if ks != [] && !Leq(k, ks[0]) {
      InsertDistinct(k, ks[1..]);
      InsertKeyMembers(k, ks[1..]);
      var r := InsertKey(k, ks[1..]);
      assert forall i :: 0 <= i < |r| ==> r[i] in r;
    }
  }

  /** Canonical text is parsed back completely, up to the order of members. */
  lemma RoundTrip(v: Value)
    requires WellFormed(v)
    ensures ParseValue(Print(v)).Ok? && ParseValue(Print(v)).rest == []
    ensures Same(v, ParseValue(Print(v)).value)
  {
    assert Print(v) + [] == Print(v);
    ValueRoundTrip(v, []);
    SameAsNorm(v);
  }

  /** Equal texts come from values that are equal with objects taken as maps. */
  lemma PrintedAlike(v: Value, w: Value)
    requires Print(v) == Print(w)
    ensures Same(v, w)
  {
    assert Print(v) + [] == Print(v) && Print(w) + [] == Print(w);
    ValueRoundTrip(v, []);
    ValueRoundTrip(w, []);
    NormSame(v, w);
  }

  /** Two values print the same text exactly when they are equal with objects taken as maps. */
  lemma PrintInjective(v: Value, w: Value)
    requires WellFormed(v) && WellFormed(w)
    ensures Print(v) == Print(w) <==> Same(v, w)
  {
    if Print(v) == Print(w) { PrintedAlike(v, w); }
    if Same(v, w) { SamePrint(v, w); }
  }

  // ---------- the text itself ----------

  /** How words and numbers are written: `null`, `true`, `false`, digits without a leading zero, and a
      minus sign before them. */
  lemma WordsWritten(n: int)
    requires n > 0
    ensures Print(Null) == [0x6e, 0x75, 0x6c, 0x6c] && Print(Bool(true)) == [0x74, 0x72, 0x75, 0x65]
    ensures Print(Bool(false)) == [0x66, 0x61, 0x6c, 0x73, 0x65]
    ensures Print(Num(-n)) == [0x2d] + Print(Num(n)) && Print(Num(n))[0] != 0x30
  {
    NoLeadingZero(n);
  }

  /** Lists have square brackets and commas, and nothing else around their items. */
  lemma ListsWritten(a: Value, b: Value)
    ensures Print(Arr([])) == [0x5b, 0x5d]
    ensures Print(Arr([a, b])) == [0x5b] + (Print(a) + [0x2c] + Print(b)) + [0x5d]
  {
    assert [a, b][1..] == [b];
    assert PrintItems([b]) == Print(b);
  }

  /** Objects have braces, and a colon after each quoted key. */
  lemma ObjectsWritten(k: Text, a: Value)
    ensures Print(Obj([])) == [0x7b, 0x7d]
    ensures Print(Obj([Field(k, a)])) == [0x7b] + (([0x22] + EscapeAll(k) + [0x22]) + [0x3a] + Print(a)) + [0x7d]
  {
    var fields := [Field(k, a)];
    assert Keys(fields) == [k] && [k][1..] == [];
    assert SortKeys([k]) == InsertKey(k, []) == [k];
    assert Lookup(fields, k) == a;
  }
}
