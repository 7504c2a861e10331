/** Decimal text of natural numbers, and the text ECMAScript gives to a finite number. */
module Decimal {
  import opened Utf16

  predicate IsDigit(c: Unit) { 48 <= c <= 57 }

  predicate AllDigits(s: Str) { forall i :: 0 <= i < |s| ==> IsDigit(s[i]) }

  function Digits(n: nat): (s: Str)
    ensures s != [] && AllDigits(s)
    ensures n != 0 ==> s[0] != 48
    ensures n == 0 ==> s == [48]
  {
    if n < 10 then [48 + n] else Digits(n / 10) + [48 + n % 10]
  }

  function Value(s: Str): nat
    requires AllDigits(s)
  {
    if s == [] then 0 else 10 * Value(s[..|s| - 1]) + (s[|s| - 1] - 48)
  }

  /** Canonical decimal text: digits without a superfluous leading zero. */
  predicate Canonical(s: Str) {
    s != [] && AllDigits(s) && (|s| == 1 || s[0] != 48)
  }

  lemma {:induction false} ValueOfDigits(n: nat)
    ensures Value(Digits(n)) == n
  {
    if n < 10 {
      assert Value([48 + n]) == 10 * Value([]) + n;
    } else {
      ValueOfDigits(n / 10);
      var s := Digits(n);
      assert s[..|s| - 1] == Digits(n / 10);
    }
  }

  lemma {:induction false} LeadingDigit(s: Str)
    requires AllDigits(s) && s != [] && s[0] != 48
    ensures Value(s) > 0
  {
    var t := s[..|s| - 1];
    if t != [] {
      LeadingDigit(t);
    }
  }

  lemma {:induction false} DigitsOfValue(s: Str)
    requires Canonical(s)
    ensures Digits(Value(s)) == s
  {
    var t := s[..|s| - 1];
    if t == [] {
      assert Value(t) == 0;
    } else {
      DigitsOfValue(t);
      LeadingDigit(t);
      assert Value(s) >= 10 && Value(s) / 10 == Value(t) && Value(s) % 10 == s[|s| - 1] - 48;
      assert s == t + [s[|s| - 1]];
    }
  }

  // ----- splitting at the first occurrence of a character

  function IndexOf(t: Str, c: Unit): (i: nat)
    ensures i <= |t|
    ensures i < |t| ==> t[i] == c
    ensures forall j :: 0 <= j < i ==> t[j] != c
  {
    if t == [] || t[0] == c then 0 else 1 + IndexOf(t[1..], c)
  }

  lemma SplitPoint(a: Str, c: Unit, b: Str)
    requires c !in a
    ensures IndexOf(a + [c] + b, c) == |a|
    ensures IndexOf(a, c) == |a|
  {
    var t := a + [c] + b;
    assert t[|a|] == c;
    assert forall j :: 0 <= j < |a| ==> t[j] == a[j] && t[j] in a;
  }

  // ----- ECMAScript Number::toString for a number digits[0].digits[1..] with its decimal point moved

  /** The significant digits of a finite non-zero number: no zero at either end. */
  predicate Significant(d: Str) {
    d != [] && AllDigits(d) && d[0] != 48 && d[|d| - 1] != 48
  }

  function Zeros(n: nat): Str { seq(n, _ => 48) }

  const POINT: Unit := 46
  const EXP: Unit := 101
  const MINUS: Unit := 45
  const PLUS: Unit := 43

  function Exponent(e: int): Str {
    if e < 0 then [MINUS] + Digits(-e) else [PLUS] + Digits(e)
  }

  /** The text of 0.d1d2d3... x 10^point, in the four layouts the language defines. */
  function FiniteText(d: Str, point: int): Str
    requires Significant(d)
  {
    if |d| <= point <= 21 then d + Zeros(point - |d|)
    else if 0 < point <= 21 then d[..point] + [POINT] + d[point..]
    else if -6 < point <= 0 then [48, POINT] + Zeros(-point) + d
    else (if |d| == 1 then d else d[..1] + [POINT] + d[1..]) + [EXP] + Exponent(point - 1)
  }

  function StripLeading(d: Str, point: int): (Str, int) {
    if d != [] && d[0] == 48 then StripLeading(d[1..], point - 1) else (d, point)
  }

  function StripTrailing(d: Str): Str {
    if d != [] && d[|d| - 1] == 48 then StripTrailing(d[..|d| - 1]) else d
  }

  function Strip(d: Str, point: int): (Str, int) {
    var (e, p) := StripLeading(d, point);
    (StripTrailing(e), p)
  }

  function ReadExponent(t: Str): int {
    if t == [] || !AllDigits(t[1..]) then 0
    else if t[0] == MINUS then 0 - Value(t[1..]) else Value(t[1..])
  }

  function ReadMantissa(m: Str, e: int): (Str, int) {
    var j := IndexOf(m, POINT);
    if j == |m| then Strip(m, j + e) else Strip(m[..j] + m[j + 1..], j + e)
  }

  /** Reads a number text back into significant digits and point position. */
  function ReadFinite(t: Str): (Str, int) {
    var i := IndexOf(t, EXP);
    if i == |t| then ReadMantissa(t, 0) else ReadMantissa(t[..i], ReadExponent(t[i + 1..]))
  }

  lemma {:induction false} StripZeros(n: nat, d: Str, point: int)
    requires d == [] || d[0] != 48
    ensures StripLeading(Zeros(n) + d, point) == (d, point - n)
    decreases n
  {
    if n == 0 {
      assert Zeros(0) + d == d;
    } else {
      assert (Zeros(n) + d)[1..] == Zeros(n - 1) + d;
      StripZeros(n - 1, d, point - 1);
    }
  }

  lemma {:induction false} StripTail(d: Str, n: nat)
    requires d == [] || d[|d| - 1] != 48
    ensures StripTrailing(d + Zeros(n)) == d
    decreases n
  {
    if n == 0 {
      assert d + Zeros(0) == d;
    } else {
      var t := d + Zeros(n);
      assert t[..|t| - 1] == d + Zeros(n - 1);
      StripTail(d, n - 1);
    }
  }

  lemma ReadDotted(whole: Str, fraction: Str, e: int)
    requires POINT !in whole
    ensures ReadMantissa(whole + [POINT] + fraction, e) == Strip(whole + fraction, |whole| + e)
  {
    var m := whole + [POINT] + fraction;
    SplitPoint(whole, POINT, fraction);
    assert m[..|whole|] == whole && m[|whole| + 1..] == fraction;
  }

  lemma ReadWhole(whole: Str, e: int)
    requires POINT !in whole
    ensures ReadMantissa(whole, e) == Strip(whole, |whole| + e)
  {
    SplitPoint(whole, POINT, []);
  }

  lemma ReadUnscaled(m: Str)
    requires EXP !in m
    ensures ReadFinite(m) == ReadMantissa(m, 0)
  {
    SplitPoint(m, EXP, []);
  }

  lemma ReadScaled(m: Str, e: int)
    requires EXP !in m
    ensures ReadFinite(m + [EXP] + Exponent(e)) == ReadMantissa(m, e)
  {
    var t := m + [EXP] + Exponent(e);
    SplitPoint(m, EXP, Exponent(e));
    assert t[..|m|] == m && t[|m| + 1..] == Exponent(e);
    var n := if e < 0 then -e else e;
    assert Exponent(e)[1..] == Digits(n);
    ValueOfDigits(n);
  }

  lemma StripSignificant(leading: nat, d: Str, trailing: nat, point: int)
    requires Significant(d)
    ensures Strip(Zeros(leading) + d + Zeros(trailing), point) == (d, point - leading)
  {
    assert Zeros(leading) + d + Zeros(trailing) == Zeros(leading) + (d + Zeros(trailing));
    StripZeros(leading, d + Zeros(trailing), point);
    StripTail(d, trailing);
  }

  lemma ReadInteger(d: Str, point: int)
    requires Significant(d) && |d| <= point
    ensures ReadFinite(d + Zeros(point - |d|)) == (d, point)
  {
    var t := d + Zeros(point - |d|);
    ReadUnscaled(t);
    ReadWhole(t, 0);
    StripSignificant(0, d, point - |d|, point);
    assert Zeros(0) + d + Zeros(point - |d|) == t;
  }

  lemma ReadPoint(whole: Str, fraction: Str)
    requires Significant(whole + fraction)
    ensures ReadFinite(whole + [POINT] + fraction) == (whole + fraction, |whole|)
  {
    var d := whole + fraction;
    assert forall u :: u in whole ==> u in d;
    assert forall u :: u in fraction ==> u in d;
    ReadUnscaled(whole + [POINT] + fraction);
    ReadDotted(whole, fraction, 0);
    StripSignificant(0, d, 0, |whole|);
    assert Zeros(0) + d + Zeros(0) == d;
  }

  lemma ReadDecimal(d: Str, point: int)
    requires Significant(d) && 0 < point < |d|
    ensures ReadFinite(d[..point] + [POINT] + d[point..]) == (d, point)
  {
    assert d == d[..point] + d[point..];
    ReadPoint(d[..point], d[point..]);
  }

  lemma ReadSmall(d: Str, zeros: int)
    requires Significant(d) && zeros >= 0
    ensures ReadFinite([48, POINT] + Zeros(zeros) + d) == (d, -zeros)
  {
    var t := [48, POINT] + Zeros(zeros) + d;
    assert t == [48] + [POINT] + (Zeros(zeros) + d);
    ReadUnscaled(t);
    ReadDotted([48], Zeros(zeros) + d, 0);
    StripSignificant(1 + zeros, d, 0, 1);
    assert [48] + (Zeros(zeros) + d) == Zeros(1 + zeros) + d + Zeros(0);
  }

  lemma ReadOneDigit(d: Str, e: int)
    requires Significant(d) && |d| == 1
    ensures ReadFinite(d + [EXP] + Exponent(e)) == (d, e + 1)
  {
    ReadScaled(d, e);
    ReadWhole(d, e);
    StripSignificant(0, d, 0, e + 1);
    assert Zeros(0) + d + Zeros(0) == d;
  }

  lemma ReadManyDigits(first: Str, rest: Str, e: int)
    requires Significant(first + rest) && |first| == 1
    ensures POINT !in first && EXP !in first + [POINT] + rest
    ensures ReadFinite(first + [POINT] + rest + [EXP] + Exponent(e)) == (first + rest, e + 1)
  {
    var d := first + rest;
    assert forall u :: u in first ==> u in d;
    assert forall u :: u in rest ==> u in d;
    ReadScaled(first + [POINT] + rest, e);
    ReadDotted(first, rest, e);
    StripSignificant(0, d, 0, e + 1);
    assert Zeros(0) + d + Zeros(0) == d;
  }

  lemma ReadScientific(d: Str, point: int)
    requires Significant(d)
    ensures ReadFinite((if |d| == 1 then d else d[..1] + [POINT] + d[1..]) + [EXP] + Exponent(point - 1)) == (d, point)
  {
    if |d| == 1 {
      ReadOneDigit(d, point - 1);
    } else {
      assert d[..1] + d[1..] == d;
      ReadManyDigits(d[..1], d[1..], point - 1);
    }
  }

  /** Number text loses nothing: digits and point position can be read back from it. */
  lemma ReadBack(d: Str, point: int)
    requires Significant(d)
    ensures ReadFinite(FiniteText(d, point)) == (d, point)
  {
    if |d| <= point <= 21 {
      ReadInteger(d, point);
    } else if 0 < point <= 21 {
      ReadDecimal(d, point);
    } else if -6 < point <= 0 {
      ReadSmall(d, -point);
    } else {
      ReadScientific(d, point);
    }
  }
}
