/** UTF-8 as Buffer reads and writes it: lossy decoding with U+FFFD, encoding, and the line-ending canonical form. */
module Utf8 {

  type Byte = n: int | 0 <= n < 0x100
  type Bytes = seq<Byte>

  /** A Unicode scalar value; text is a sequence of them. */
  type Scalar = c: int | 0 <= c < 0x11_0000 && !(0xD800 <= c < 0xE000)
  type Text = seq<Scalar>

  const REPLACEMENT: Scalar := 0xFFFD
  const LF := 0x0A
  const CR := 0x0D

  // ----- decoding

  /** Between characters, or inside one with so many bytes to come, the next between lower and upper. */
  datatype State = Start | Inside(needed: nat, cp: nat, lower: Byte, upper: Byte)

  predicate ValidState(st: State) {
    st.Start? || (0x80 <= st.lower <= st.upper <= 0xBF &&
    match st.needed
    case 1 => 2 <= st.cp < 0x4400 && !(0x360 <= st.cp < 0x380)
    case 2 =>
      || (st.cp == 0 && st.lower == 0xA0)
      || (1 <= st.cp < 0x10 && (st.cp == 0xD ==> st.upper == 0x9F))
      || 0x10 <= st.cp < 0x110
    case 3 => st.cp <= 4 && (st.cp == 0 ==> st.lower == 0x90) && (st.cp == 4 ==> st.upper == 0x8F)
    case _ => false)
  }

  datatype Step = Emit(c: Scalar) | Continue(st: State) | Again

  /** What one byte does; Again means that the byte is no continuation and is read afresh. */
  function StepOf(st: State, b: Byte): (r: Step)
    requires ValidState(st)
    ensures r.Continue? ==> r.st.Inside? && ValidState(r.st)
    ensures r.Again? ==> st.Inside?
    ensures r.Emit? && st.Inside? ==> r.c >= 0x80
    ensures b < 0x80 ==> r == if st.Start? then Emit(b) else Again
    ensures r.Emit? && r.c < 0x80 ==> st.Start? && b == r.c
  {
    match st
    case Start =>
      if b < 0x80 then Emit(b)
      else if 0xC2 <= b <= 0xDF then Continue(Inside(1, b - 0xC0, 0x80, 0xBF))
      else if 0xE0 <= b <= 0xEF then
        Continue(Inside(2, b - 0xE0, if b == 0xE0 then 0xA0 else 0x80, if b == 0xED then 0x9F else 0xBF))
      else if 0xF0 <= b <= 0xF4 then
        Continue(Inside(3, b - 0xF0, if b == 0xF0 then 0x90 else 0x80, if b == 0xF4 then 0x8F else 0xBF))
      else Emit(REPLACEMENT)
    case Inside(needed, cp, lower, upper) =>
      if b < lower || upper < b then Again
      else if needed == 1 then Emit(cp * 64 + (b - 0x80))
      else Continue(Inside(needed - 1, cp * 64 + (b - 0x80), 0x80, 0xBF))
  }

  function DecodeFrom(st: State, bytes: Bytes): Text
    requires ValidState(st)
    decreases |bytes|, if st.Start? then 0 else 1
  {
    if bytes == [] then (if st.Start? then [] else [REPLACEMENT])
    else
      match StepOf(st, bytes[0])
      case Emit(c) => [c] + DecodeFrom(Start, bytes[1..])
      case Continue(next) => DecodeFrom(next, bytes[1..])
      case Again => [REPLACEMENT] + DecodeFrom(Start, bytes)
  }

  function Decode(bytes: Bytes): Text { DecodeFrom(Start, bytes) }

  // ----- encoding

  lemma Divide(c: int, bound: int)
    requires 0 <= c
    ensures c < 64 * bound <==> c / 64 < bound
    ensures c == 64 * (c / 64) + c % 64 && 0 <= c % 64 < 64
  {
  }

  lemma ScalarParts(c: Scalar)
    ensures var high := c / 64; var top := high / 64;
            && (c < 0x800 <==> high < 32) && (c < 0x1_0000 <==> top < 16) && (c < 0x1000 <==> top < 1)
            && (c < 0x1_0000 ==> !(0x360 <= high < 0x380)) && top < 0x110 && high < 0x4400
            && (c < 0x80 <==> high < 2) && (high < 32 <==> top * 64 + high % 64 < 32)
            && high == top * 64 + high % 64 && (c < 0x4_0000 <==> top < 64) && (c < 0x10_0000 <==> top < 256)
            && (top / 64 < 1 <==> top < 64) && (top / 64 < 4 <==> top < 256) && 0 <= top / 64 < 5
            && top == top / 64 * 64 + top % 64
  {
    var high := c / 64;
    Divide(c, 32);
    Divide(c, 2);
    Divide(c, 0x360);
    Divide(c, 0x380);
    Divide(c, 0x4400);
    Divide(c, 0x400);
    Divide(c, 64);
    Divide(c, 0x1000);
    Divide(c, 0x4000);
    Divide(high, 16);
    Divide(high, 1);
    Divide(high, 64);
    Divide(high, 256);
    Divide(high, 0x110);
    Divide(high / 64, 1);
    Divide(high / 64, 4);
    Divide(high / 64, 5);
  }

  function EncodeScalar(c: Scalar): Bytes {
    ScalarParts(c);
    var high := c / 64;
    var top := high / 64;
    if c < 0x80 then [c]
    else if c < 0x800 then [0xC0 + high, 0x80 + c % 64]
    else if c < 0x1_0000 then [0xE0 + top, 0x80 + high % 64, 0x80 + c % 64]
    else [0xF0 + top / 64, 0x80 + top % 64, 0x80 + high % 64, 0x80 + c % 64]
  }

  function Encode(t: Text): Bytes {
    if t == [] then [] else EncodeScalar(t[0]) + Encode(t[1..])
  }

  lemma DecodeScalar(c: Scalar, rest: Bytes)
    ensures DecodeFrom(Start, EncodeScalar(c) + rest) == [c] + DecodeFrom(Start, rest)
  {
    var e := EncodeScalar(c) + rest;
    if c < 0x80 {
      assert e[1..] == rest;
    } else if c < 0x800 {
      Decode2(c, e, rest);
    } else if c < 0x1_0000 {
      Decode3(c, e, rest);
    } else {
      Decode4(c, e, rest);
    }
  }

  lemma Decode2(c: Scalar, e: Bytes, rest: Bytes)
    requires 0x80 <= c < 0x800 && e == EncodeScalar(c) + rest
    ensures DecodeFrom(Start, e) == [c] + DecodeFrom(Start, rest)
  {
    ScalarParts(c);
    assert StepOf(Start, e[0]) == Continue(Inside(1, c / 64, 0x80, 0xBF));
    assert e[1..][0] == 0x80 + c % 64 && e[1..][1..] == rest;
  }

  /** The last byte of a character. */
  lemma DecodeLast(st: State, high: nat, low: nat, c: Scalar, e: Bytes, rest: Bytes)
    requires st == Inside(1, high, 0x80, 0xBF) && ValidState(st) && low < 64 && c == high * 64 + low
    requires e == [0x80 + low] + rest
    ensures DecodeFrom(st, e) == [c] + DecodeFrom(Start, rest)
  {
    assert e[1..] == rest;
    assert StepOf(st, e[0]) == Emit(c);
  }

  /** The two last bytes of a character. */
  lemma DecodeTwo(st: State, top: nat, high: nat, c: Scalar, e: Bytes, rest: Bytes)
    requires ValidState(st) && st.Inside? && st.needed == 2 && st.cp == top == high / 64 && high == c / 64 && 0x800 <= c
    requires st.lower <= 0x80 + high % 64 <= st.upper
    requires e == [0x80 + high % 64, 0x80 + c % 64] + rest
    ensures DecodeFrom(st, e) == [c] + DecodeFrom(Start, rest)
  {
    ScalarParts(c);
    var next := Inside(1, high, 0x80, 0xBF);
    assert StepOf(st, e[0]) == Continue(next);
    assert e[1..] == [0x80 + c % 64] + rest;
    DecodeLast(next, high, c % 64, c, e[1..], rest);
  }

  lemma Decode3(c: Scalar, e: Bytes, rest: Bytes)
    requires 0x800 <= c < 0x1_0000 && e == EncodeScalar(c) + rest
    ensures DecodeFrom(Start, e) == [c] + DecodeFrom(Start, rest)
  {
    ScalarParts(c);
    var high := c / 64;
    var top := high / 64;
    var lower, upper := if top == 0 then 0xA0 else 0x80, if top == 0xD then 0x9F else 0xBF;
    var st := Inside(2, top, lower, upper);
    assert e[0] == 0xE0 + top && 0 <= top < 16;
    assert StepOf(Start, e[0]) == Continue(st);
    assert e[1..] == [0x80 + high % 64, 0x80 + c % 64] + rest;
    DecodeTwo(st, top, high, c, e[1..], rest);
  }

  lemma Decode4(c: Scalar, e: Bytes, rest: Bytes)
    requires 0x1_0000 <= c && e == EncodeScalar(c) + rest
    ensures DecodeFrom(Start, e) == [c] + DecodeFrom(Start, rest)
  {
    ScalarParts(c);
    var high := c / 64;
    var top := high / 64;
    var lead := top / 64;
    var st := Inside(3, lead, if lead == 0 then 0x90 else 0x80, if lead == 4 then 0x8F else 0xBF);
    assert e[0] == 0xF0 + lead && 0 <= lead <= 4;
    assert StepOf(Start, e[0]) == Continue(st);
    var next := Inside(2, top, 0x80, 0xBF);
    assert e[1..][0] == 0x80 + top % 64;
    assert StepOf(st, e[1..][0]) == Continue(next);
    assert e[1..][1..] == [0x80 + high % 64, 0x80 + c % 64] + rest;
    DecodeTwo(next, top, high, c, e[1..][1..], rest);
  }

  /** Decoding undoes encoding, so encoded texts are equal only if the texts are. */
  lemma {:induction false} DecodeEncode(t: Text)
    ensures Decode(Encode(t)) == t
  {
    if t != [] {
      DecodeEncode(t[1..]);
      DecodeScalar(t[0], Encode(t[1..]));
    }
  }

  // ----- line endings

  /** replace(/\r\n/g, "\n"): one pass from the left. */
  function Replace(t: Text): Text {
    if t == [] then []
    else if |t| >= 2 && t[0] == CR && t[1] == LF then [LF] + Replace(t[2..])
    else [t[0]] + Replace(t[1..])
  }

  function LfCanonical(bytes: Bytes): Bytes { Encode(Replace(Decode(bytes))) }

  /** What a checkout with CRLF line endings does to a file: every LF byte becomes CR LF. */
  function Rewrite(bytes: Bytes): Bytes {
    if bytes == [] then [] else (if bytes[0] == LF then [CR, LF] else [bytes[0]]) + Rewrite(bytes[1..])
  }

  function Expand(t: Text): Text {
    if t == [] then [] else (if t[0] == LF then [CR, LF] else [t[0]]) + Expand(t[1..])
  }

  predicate HasCrLf(s: seq<int>) {
    exists i :: 0 <= i < |s| - 1 && s[i] == CR && s[i + 1] == LF
  }

  /** Canonical forms are equal iff the texts are equal up to line endings. */
  lemma LfEqualMeans(a: Bytes, b: Bytes)
    ensures LfCanonical(a) == LfCanonical(b) <==> Replace(Decode(a)) == Replace(Decode(b))
  {
    DecodeEncode(Replace(Decode(a)));
    DecodeEncode(Replace(Decode(b)));
  }

  /** Replacing undoes expanding, even next to lone CRs: the CR before an LF is always the inserted one. */
  lemma {:induction false} ReplaceExpand(t: Text)
    ensures Replace(Expand(t)) == t
  {
    if t != [] {
      var e, rest := Expand(t), Expand(t[1..]);
      ReplaceExpand(t[1..]);
      assert t == [t[0]] + t[1..];
      if t[0] == LF {
        assert e[2..] == rest;
      } else {
        assert e[1..] == rest;
        assert rest != [] ==> rest[0] != LF;
      }
    }
  }

  lemma {:induction false} ReplaceKeeps(t: Text)
    ensures |Replace(t)| <= |t|
    ensures Replace(t) == t <==> !HasCrLf(t)
  {
    if t != [] {
      if |t| >= 2 && t[0] == CR && t[1] == LF {
        ReplaceKeeps(t[2..]);
      } else {
        ReplaceKeeps(t[1..]);
        assert t == [t[0]] + t[1..];
        assert Replace(t)[1..] == Replace(t[1..]);
        assert HasCrLf(t) ==> HasCrLf(t[1..]) by {
          if HasCrLf(t) {
            var i :| 0 <= i < |t| - 1 && t[i] == CR && t[i + 1] == LF;
            assert t[1..][i - 1] == CR && t[1..][i] == LF;
          }
        }
        assert HasCrLf(t[1..]) ==> HasCrLf(t) by {
          if HasCrLf(t[1..]) {
            var i :| 0 <= i < |t[1..]| - 1 && t[1..][i] == CR && t[1..][i + 1] == LF;
            assert t[i + 1] == CR && t[i + 2] == LF;
          }
        }
      }
    }
  }

  /** Rewriting bytes is rewriting text: an LF byte ends whatever ill-formed sequence came before it. */
  lemma {:induction false} DecodeRewrite(st: State, bytes: Bytes)
    requires ValidState(st)
    ensures DecodeFrom(st, Rewrite(bytes)) == Expand(DecodeFrom(st, bytes))
    decreases |bytes|, if st.Start? then 0 else 1
  {
    if bytes != [] {
      var b, rest, r := bytes[0], bytes[1..], Rewrite(bytes);
      match StepOf(st, b)
      case Emit(c) =>
        DecodeRewrite(Start, rest);
        EmitRewrite(st, c, bytes);
      case Continue(next) =>
        DecodeRewrite(next, rest);
        assert r == [b] + Rewrite(rest) && r[1..] == Rewrite(rest);
      case Again =>
        DecodeRewrite(Start, bytes);
        AgainRewrite(st, bytes);
    }
  }

  lemma EmitOther(st: State, c: Scalar, b: Byte, bytes: Bytes)
    requires ValidState(st) && StepOf(st, b) == Emit(c)
    ensures DecodeFrom(st, [b] + bytes) == [c] + DecodeFrom(Start, bytes)
  {
    assert ([b] + bytes)[1..] == bytes;
  }

  lemma ExpandHead(c: Scalar, t: Text)
    ensures Expand([c] + t) == (if c == LF then [CR, LF] else [c]) + Expand(t)
  {
    assert ([c] + t)[1..] == t;
  }

  lemma EmitNewline(bytes: Bytes)
    ensures DecodeFrom(Start, [CR, LF] + bytes) == [CR, LF] + DecodeFrom(Start, bytes)
  {
    assert [CR, LF] + bytes == [CR] + ([LF] + bytes);
    EmitOther(Start, CR, CR, [LF] + bytes);
    EmitOther(Start, LF, LF, bytes);
    var d := DecodeFrom(Start, bytes);
    assert [CR] + ([LF] + d) == [CR, LF] + d;
  }

  lemma EmitRewrite(st: State, c: Scalar, bytes: Bytes)
    requires ValidState(st) && bytes != [] && StepOf(st, bytes[0]) == Emit(c)
    requires DecodeFrom(Start, Rewrite(bytes[1..])) == Expand(DecodeFrom(Start, bytes[1..]))
    ensures DecodeFrom(st, Rewrite(bytes)) == Expand(DecodeFrom(st, bytes))
  {
    var b, rest := bytes[0], Rewrite(bytes[1..]);
    EmitOther(st, c, b, bytes[1..]);
    assert [b] + bytes[1..] == bytes;
    ExpandHead(c, DecodeFrom(Start, bytes[1..]));
    if c == LF {
      EmitNewline(rest);
    } else {
      EmitOther(st, c, b, rest);
    }
  }

  lemma AgainRewrite(st: State, bytes: Bytes)
    requires ValidState(st) && bytes != [] && StepOf(st, bytes[0]).Again?
    requires DecodeFrom(Start, Rewrite(bytes)) == Expand(DecodeFrom(Start, bytes))
    ensures DecodeFrom(st, Rewrite(bytes)) == Expand(DecodeFrom(st, bytes))
  {
    var r, d := Rewrite(bytes), DecodeFrom(Start, bytes);
    assert r[0] == bytes[0] || (bytes[0] == LF && r[0] == CR);
    assert StepOf(st, r[0]).Again?;
    assert DecodeFrom(st, bytes) == [REPLACEMENT] + d && ([REPLACEMENT] + d)[1..] == d;
  }

  lemma {:induction false} CrLfDecoded(st: State, bytes: Bytes)
    requires ValidState(st)
    ensures HasCrLf(DecodeFrom(st, bytes)) <==> HasCrLf(bytes)
    ensures bytes != [] && bytes[0] == LF && st.Start? ==> DecodeFrom(st, bytes) != [] && DecodeFrom(st, bytes)[0] == LF
    ensures DecodeFrom(st, bytes) != [] && DecodeFrom(st, bytes)[0] == LF ==> st.Start? && bytes != [] && bytes[0] == LF
    decreases |bytes|, if st.Start? then 0 else 1
  {
    if bytes != [] {
      match StepOf(st, bytes[0])
      case Emit(c) =>
        CrLfDecoded(Start, bytes[1..]);
        CrLfHead(c, DecodeFrom(Start, bytes[1..]));
        CrLfHead(bytes[0], bytes[1..]);
        assert bytes == [bytes[0]] + bytes[1..];
      case Continue(next) =>
        CrLfDecoded(next, bytes[1..]);
        CrLfHead(bytes[0], bytes[1..]);
        assert bytes == [bytes[0]] + bytes[1..];
      case Again =>
        CrLfDecoded(Start, bytes);
        CrLfHead(REPLACEMENT, DecodeFrom(Start, bytes));
    }
  }

  lemma CrLfHead(c: int, s: seq<int>)
    ensures HasCrLf([c] + s) <==> (c == CR && s != [] && s[0] == LF) || HasCrLf(s)
  {
    var t := [c] + s;
    if HasCrLf(t) {
      var i :| 0 <= i < |t| - 1 && t[i] == CR && t[i + 1] == LF;
      if i > 0 { assert s[i - 1] == CR && s[i] == LF; }
    }
    if HasCrLf(s) {
      var i :| 0 <= i < |s| - 1 && s[i] == CR && s[i + 1] == LF;
      assert t[i + 1] == CR && t[i + 2] == LF;
    }
    if c == CR && s != [] && s[0] == LF {
      assert t[0] == CR && t[1] == LF;
    }
  }

  /** Rewriting every LF of a file as CRLF leaves its canonical form alone iff the file held no CRLF before. */
  lemma RewriteInvisible(bytes: Bytes)
    ensures LfCanonical(Rewrite(bytes)) == LfCanonical(bytes) <==> !HasCrLf(bytes)
  {
    LfEqualMeans(Rewrite(bytes), bytes);
    DecodeRewrite(Start, bytes);
    ReplaceExpand(Decode(bytes));
    ReplaceKeeps(Decode(bytes));
    CrLfDecoded(Start, bytes);
  }
}
