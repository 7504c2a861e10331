/** JSON values as JSON.parse yields them, and the text JSON.stringify gives to scalars and strings. */
module Json {
  import opened Utf16
  import opened Decimal

  /** JSON.parse turns a literal that is out of range, such as 1e999, into an infinity. */
  datatype Number = Zero(neg: bool) | Finite(neg: bool, digits: Str, point: int) | Infinite(neg: bool)

  datatype Json =
    | Null
    | Bool(b: bool)
    | Num(n: Number)
    | String(s: Str)
    | Array(items: seq<Json>)
    | Object(entries: seq<Entry>)

  datatype Entry = Entry(key: Str, value: Json)

  predicate ValidNumber(n: Number) {
    n.Finite? ==> Significant(n.digits)
  }

  ghost predicate DistinctKeys(es: seq<Entry>) {
    forall i, j :: 0 <= i < j < |es| ==> es[i].key != es[j].key
  }

  /** What every parsed value satisfies: proper numbers, and one entry for each key of an object. */
  ghost predicate Valid(v: Json) {
    match v
    case Num(n) => ValidNumber(n)
    case Array(items) => forall i :: 0 <= i < |items| ==> Valid(items[i])
    case Object(es) => DistinctKeys(es) && forall i :: 0 <= i < |es| ==> Valid(es[i].value)
    case _ => true
  }

  ghost predicate AllFinite(v: Json) {
    match v
    case Num(n) => !n.Infinite?
    case Array(items) => forall i :: 0 <= i < |items| ==> AllFinite(items[i])
    case Object(es) => forall i :: 0 <= i < |es| ==> AllFinite(es[i].value)
    case _ => true
  }

  // ----- JSON values compared as the language compares their scalars, objects up to key order

  predicate SameNumber(m: Number, n: Number) {
    m == n || (m.Zero? && n.Zero?)
  }

  function Keys(es: seq<Entry>): (r: seq<Str>)
    ensures |r| == |es|
  {
    seq(|es|, i requires 0 <= i < |es| => es[i].key)
  }

  ghost function KeySet(es: seq<Entry>): set<Str> {
    Elements(Keys(es))
  }

  ghost predicate Same(v: Json, w: Json) {
    match (v, w)
    case (Num(m), Num(n)) => SameNumber(m, n)
    case (Array(a), Array(b)) =>
      |a| == |b| && forall i :: 0 <= i < |a| ==> Same(a[i], b[i])
    case (Object(a), Object(b)) =>
      && KeySet(a) == KeySet(b)
      && forall i, j :: 0 <= i < |a| && 0 <= j < |b| && a[i].key == b[j].key ==> Same(a[i].value, b[j].value)
    case _ => v == w
  }

  /** The value that JSON text can carry: an infinity is written as null. */
  ghost function Written(v: Json): Json {
    match v
    case Num(n) => if n.Infinite? then Null else v
    case Array(items) => Array(seq(|items|, i requires 0 <= i < |items| => Written(items[i])))
    case Object(es) => Object(seq(|es|, i requires 0 <= i < |es| => Entry(es[i].key, Written(es[i].value))))
    case _ => v
  }

  lemma {:induction false} WrittenFinite(v: Json)
    requires AllFinite(v)
    ensures Written(v) == v
  {
    match v
    case Array(items) =>
      forall i | 0 <= i < |items| ensures Written(items[i]) == items[i] { WrittenFinite(items[i]); }
      assert Written(v).items == items;
    case Object(es) =>
      forall i | 0 <= i < |es| ensures Written(es[i].value) == es[i].value { WrittenFinite(es[i].value); }
      assert Written(v).entries == es;
    case _ =>
  }

  // ----- strings

  predicate IsHigh(c: Unit) { 0xD800 <= c < 0xDC00 }
  predicate IsLow(c: Unit) { 0xDC00 <= c < 0xE000 }

  function Hex(d: nat): Unit
    requires d < 16
  {
    if d < 10 then 48 + d else 87 + d
  }

  function HexEscape(c: Unit): Str {
    [92, 117, Hex(c / 4096), Hex(c / 256 % 16), Hex(c / 16 % 16), Hex(c % 16)]
  }

  /** The short escapes of section 7 of RFC 8259. */
  function ShortEscape(c: Unit): Str {
    match c
    case 0x22 => [92, 0x22]
    case 0x5C => [92, 92]
    case 0x08 => [92, 98]
    case 0x09 => [92, 116]
    case 0x0A => [92, 110]
    case 0x0C => [92, 102]
    case 0x0D => [92, 114]
    case _ => []
  }

  predicate Plain(c: Unit) {
    c >= 0x20 && c != 0x22 && c != 0x5C && !(IsHigh(c) || IsLow(c))
  }

  /** Surrogate pairs are copied; a surrogate on its own is escaped. */
  predicate Paired(s: Str) {
    |s| >= 2 && IsHigh(s[0]) && IsLow(s[1])
  }

  function EscapeUnit(c: Unit): Str {
    if Plain(c) then [c] else if ShortEscape(c) != [] then ShortEscape(c) else HexEscape(c)
  }

  function Step(s: Str): nat { if Paired(s) then 2 else 1 }

  function StepText(s: Str): Str
    requires s != []
  {
    if Paired(s) then s[..2] else EscapeUnit(s[0])
  }

  function Escape(s: Str): Str {
    if s == [] then [] else StepText(s) + Escape(s[Step(s)..])
  }

  const QUOTE: Unit := 0x22

  function Quote(s: Str): Str {
    [QUOTE] + Escape(s) + [QUOTE]
  }

  lemma HexInjective(a: nat, b: nat)
    requires a < 16 && b < 16 && Hex(a) == Hex(b)
    ensures a == b
  {
  }

  lemma HexEscapeInjective(c: Unit, d: Unit)
    requires HexEscape(c) == HexEscape(d)
    ensures c == d
  {
    assert HexEscape(c)[2] == HexEscape(d)[2] && HexEscape(c)[3] == HexEscape(d)[3];
    assert HexEscape(c)[4] == HexEscape(d)[4] && HexEscape(c)[5] == HexEscape(d)[5];
    HexInjective(c / 4096, d / 4096);
    HexInjective(c / 256 % 16, d / 256 % 16);
    HexInjective(c / 16 % 16, d / 16 % 16);
    HexInjective(c % 16, d % 16);
    FourDigits(c);
    FourDigits(d);
  }

  lemma FourDigits(c: Unit)
    ensures c == 4096 * (c / 4096) + 256 * (c / 256 % 16) + 16 * (c / 16 % 16) + c % 16
  {
    assert c / 256 == c / 16 / 16 && c / 4096 == c / 16 / 16 / 16;
  }

  /** Escapes of single units form a prefix code. */
  lemma EscapePrefix(c: Unit, d: Unit, x: Str, y: Str)
    requires EscapeUnit(c) + x == EscapeUnit(d) + y
    ensures c == d && x == y
  {
    var t := EscapeUnit(c) + x;
    assert t[0] == EscapeUnit(c)[0] == EscapeUnit(d)[0];
    if !Plain(c) {
      assert t[1] == EscapeUnit(c)[1] == EscapeUnit(d)[1];
      if t[1] == 117 {
        assert t[..6] == HexEscape(c) && t[..6] == HexEscape(d);
        HexEscapeInjective(c, d);
      }
    }
    var n := |EscapeUnit(c)|;
    assert x == t[n..] && y == t[n..];
  }

  lemma StepPrefix(s: Str, t: Str, x: Str, y: Str)
    requires s != [] && t != [] && StepText(s) + x == StepText(t) + y
    ensures Step(s) == Step(t) && s[..Step(s)] == t[..Step(t)] && x == y
  {
    var u := StepText(s) + x;
    assert u[0] == StepText(s)[0] == StepText(t)[0];
    assert IsHigh(u[0]) <==> Paired(s);
    assert IsHigh(u[0]) <==> Paired(t);
    if Paired(s) {
      assert s[..2] == u[..2] == t[..2] && x == u[2..] == y;
    } else {
      EscapePrefix(s[0], t[0], x, y);
    }
  }

  lemma StepStart(s: Str)
    requires s != []
    ensures StepText(s) != [] && StepText(s)[0] != QUOTE
  {
  }

  lemma Reassociate(a: Str, b: Str, c: Str)
    ensures a + b + c == a + (b + c)
  {
  }

  lemma EscapeStep(s: Str, z: Str)
    requires s != []
    ensures Escape(s) + z == StepText(s) + (Escape(s[Step(s)..]) + z)
    ensures (Escape(s) + z)[0] != QUOTE
  {
    Reassociate(StepText(s), Escape(s[Step(s)..]), z);
    StepStart(s);
    assert (Escape(s) + z)[0] == StepText(s)[0];
  }

  /** A quoted string ends at its closing quote and its contents can be read back. */
  lemma {:induction false} QuoteRead(s: Str, t: Str, x: Str, y: Str)
    requires Escape(s) + ([QUOTE] + x) == Escape(t) + ([QUOTE] + y)
    ensures s == t && x == y
  {
    if s != [] { EscapeStep(s, [QUOTE] + x); }
    if t != [] { EscapeStep(t, [QUOTE] + y); }
    if s == [] || t == [] {
      assert s == [] && t == [];
      assert x == (Escape(s) + ([QUOTE] + x))[1..] == (Escape(t) + ([QUOTE] + y))[1..] == y;
    } else {
      var v, w := s[Step(s)..], t[Step(t)..];
      StepPrefix(s, t, Escape(v) + ([QUOTE] + x), Escape(w) + ([QUOTE] + y));
      QuoteRead(v, w, x, y);
      assert s == s[..Step(s)] + v && t == t[..Step(t)] + w;
    }
  }

  // ----- null, booleans and numbers

  const NULL_TEXT: Str := [110, 117, 108, 108]
  const TRUE_TEXT: Str := [116, 114, 117, 101]
  const FALSE_TEXT: Str := [102, 97, 108, 115, 101]

  predicate IsAtom(v: Json) { v.Null? || v.Bool? || v.Num? }

  /** JSON.stringify of a number; String(n) differs from it only at the infinities. */
  function NumberText(n: Number): Str
    requires ValidNumber(n)
  {
    match n
    case Zero(_) => [48]
    case Finite(neg, d, p) => (if neg then [MINUS] else []) + FiniteText(d, p)
    case Infinite(_) => NULL_TEXT
  }

  function AtomText(v: Json): Str
    requires IsAtom(v) && (v.Num? ==> ValidNumber(v.n))
  {
    match v
    case Null => NULL_TEXT
    case Bool(b) => if b then TRUE_TEXT else FALSE_TEXT
    case Num(n) => NumberText(n)
  }

  /** The characters that can follow a value inside JSON text: comma, bracket, brace. */
  predicate IsDelimiter(c: Unit) { c == 44 || c == 93 || c == 125 }

  predicate NumberUnit(c: Unit) { IsDigit(c) || c == POINT || c == EXP || c == MINUS || c == PLUS }

  lemma FiniteTextUnits(d: Str, p: int)
    requires Significant(d)
    ensures var t := FiniteText(d, p);
            t != [] && IsDigit(t[0]) && (forall i :: 0 <= i < |t| ==> NumberUnit(t[i])) && t != [48]
  {
    var t := FiniteText(d, p);
    if |d| <= p <= 21 {
    } else if 0 < p <= 21 {
    } else if -6 < p <= 0 {
      assert |t| > 1;
    } else {
      assert |t| > 1;
    }
  }

  /** Scalar text is never empty, holds no delimiter and does not look like a string, array or object. */
  lemma AtomUnits(v: Json)
    requires IsAtom(v) && (v.Num? ==> ValidNumber(v.n))
    ensures var t := AtomText(v);
            t != [] && t[0] != QUOTE && t[0] != 91 && t[0] != 123 && forall i :: 0 <= i < |t| ==> !IsDelimiter(t[i])
  {
    if v.Num? && v.n.Finite? {
      FiniteTextUnits(v.n.digits, v.n.point);
    }
  }

  lemma FiniteInjective(m: Number, n: Number)
    requires m.Finite? && n.Finite? && ValidNumber(m) && ValidNumber(n) && NumberText(m) == NumberText(n)
    ensures m == n
  {
    FiniteTextUnits(m.digits, m.point);
    FiniteTextUnits(n.digits, n.point);
    assert m.neg <==> NumberText(m)[0] == MINUS;
    assert n.neg <==> NumberText(n)[0] == MINUS;
    var k := if m.neg then 1 else 0;
    assert FiniteText(m.digits, m.point) == NumberText(m)[k..] == FiniteText(n.digits, n.point);
    ReadBack(m.digits, m.point);
    ReadBack(n.digits, n.point);
  }

  lemma AtomInjective(v: Json, w: Json)
    requires IsAtom(v) && IsAtom(w) && Valid(v) && Valid(w) && AllFinite(v) && AllFinite(w)
    requires AtomText(v) == AtomText(w)
    ensures Same(v, w)
  {
    if v.Num? && v.n.Finite? { FiniteTextUnits(v.n.digits, v.n.point); }
    if w.Num? && w.n.Finite? { FiniteTextUnits(w.n.digits, w.n.point); }
    if v.Num? && w.Num? && v.n.Finite? && w.n.Finite? {
      FiniteInjective(v.n, w.n);
    } else {
      assert AtomText(v)[0] == AtomText(w)[0] && |AtomText(v)| == |AtomText(w)|;
    }
  }

  function TokenLength(t: Str): (n: nat)
    ensures n <= |t| && forall i :: 0 <= i < n ==> !IsDelimiter(t[i])
    ensures n < |t| ==> IsDelimiter(t[n])
  {
    if t == [] || IsDelimiter(t[0]) then 0 else 1 + TokenLength(t[1..])
  }

  lemma TokenEnd(a: Str, x: Str)
    requires forall i :: 0 <= i < |a| ==> !IsDelimiter(a[i])
    requires x == [] || IsDelimiter(x[0])
    ensures TokenLength(a + x) == |a|
  {
    assert forall i :: 0 <= i < |a| ==> (a + x)[i] == a[i];
    if x != [] {
      assert (a + x)[|a|] == x[0];
    }
  }

  /** Text without delimiters is the longest such prefix of what it starts. */
  lemma ReadToken(a: Str, b: Str, x: Str, y: Str)
    requires forall i :: 0 <= i < |a| ==> !IsDelimiter(a[i])
    requires forall i :: 0 <= i < |b| ==> !IsDelimiter(b[i])
    requires (x == [] || IsDelimiter(x[0])) && (y == [] || IsDelimiter(y[0]))
    requires a + x == b + y
    ensures a == b && x == y
  {
    var t := a + x;
    TokenEnd(a, x);
    TokenEnd(b, y);
    assert a == t[..|a|] && b == t[..|b|] && x == t[|a|..] && y == t[|b|..];
  }
}
