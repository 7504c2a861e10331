/** SQL text by dialect: quoted identifiers, placeholders, and a reader of such text (src/sqlDialect.ts). */
module SqlText {
  import opened Utf16
  import opened Decimal

  datatype Dialect = Sqlite | Postgresql | Mysql | Mssql | BigQuery

  /** How a driver names parameters: by position, as $n, or as @pn. */
  datatype Style = Positional | Dollar | AtP

  function RelationalStyle(d: Dialect): Style {
    match d
    case Postgresql => Dollar
    case Mssql => AtP
    case _ => Positional
  }

  function RowStyle(d: Dialect): Style {
    match d
    case Postgresql => Dollar
    case BigQuery => AtP
    case _ => Positional
  }

  function Open(d: Dialect): Unit { if d.Mysql? || d.BigQuery? then 96 else if d.Mssql? then 91 else 34 }
  function Close(d: Dialect): Unit { if d.Mssql? then 93 else Open(d) }

  /** Every occurrence of the closing quote is doubled. */
  function Double(id: Str, close: Unit): Str {
    if id == [] then []
    else (if id[0] == close then [close, close] else [id[0]]) + Double(id[1..], close)
  }

  function QuoteIdent(d: Dialect, id: Str): Str {
    [Open(d)] + Double(id, Close(d)) + [Close(d)]
  }

  datatype Ident = NoIdent | ReadAs(id: Str, rest: Str)

  /** Reads a delimited identifier after its opening quote; a doubled closing quote stands for one. */
  function ReadIdent(t: Str, close: Unit): Ident {
    if t == [] then NoIdent
    else if t[0] == close && (|t| == 1 || t[1] != close) then ReadAs([], t[1..])
    else
      match ReadIdent(if t[0] == close then t[2..] else t[1..], close)
      case NoIdent => NoIdent
      case ReadAs(id, rest) => ReadAs([t[0]] + id, rest)
  }

  /** One more unit in front of what can be read. */
  lemma ReadNext(c: Unit, close: Unit, u: Str)
    requires ReadIdent(u, close).ReadAs?
    ensures ReadIdent((if c == close then [close, close] else [c]) + u, close) ==
            ReadAs([c] + ReadIdent(u, close).id, ReadIdent(u, close).rest)
  {
    if c == close {
      assert ([close, close] + u)[2..] == u;
    } else {
      assert ([c] + u)[1..] == u;
    }
  }

  /** Reading back a quoted identifier returns the original, whatever quotes it contains. */
  lemma {:induction false} QuotedReadBack(id: Str, close: Unit, rest: Str)
    requires rest == [] || rest[0] != close
    ensures ReadIdent(Double(id, close) + [close] + rest, close) == ReadAs(id, rest)
  {
    var t := Double(id, close) + [close] + rest;
    if id == [] {
      assert t == [close] + rest && t[1..] == rest;
    } else {
      var u := Double(id[1..], close) + [close] + rest;
      QuotedReadBack(id[1..], close, rest);
      ReadNext(id[0], close, u);
      assert t == (if id[0] == close then [close, close] else [id[0]]) + u;
      assert id == [id[0]] + id[1..];
    }
  }

  // ----- tokens

  datatype Token = Word(text: string) | Name(id: Str) | Param(n: nat)

  function ParamText(style: Style, n: nat): Str {
    match style
    case Positional => [63]
    case Dollar => [36] + Digits(n)
    case AtP => [64, 112] + Digits(n)
  }

  function TokenText(d: Dialect, style: Style, t: Token): Str {
    match t
    case Word(text) => Ascii(text)
    case Name(id) => QuoteIdent(d, id)
    case Param(n) => ParamText(style, n)
  }

  function Render(d: Dialect, style: Style, ts: seq<Token>): Str {
    if ts == [] then [] else TokenText(d, style, ts[0]) + Render(d, style, ts[1..])
  }

  lemma {:induction false} RenderConcat(d: Dialect, style: Style, a: seq<Token>, b: seq<Token>)
    ensures Render(d, style, a + b) == Render(d, style, a) + Render(d, style, b)
  {
    if a == [] {
      assert a + b == b;
    } else {
      assert (a + b)[0] == a[0] && (a + b)[1..] == a[1..] + b;
      RenderConcat(d, style, a[1..], b);
    }
  }

  // ----- reading SQL text as a database driver does

  datatype Lexeme = Raw(c: Unit) | Identifier(id: Str) | Placeholder(n: nat)
  datatype Lexemes = Malformed | Lexed(list: seq<Lexeme>)

  function Prepend(l: Lexeme, r: Lexemes): Lexemes {
    match r
    case Malformed => Malformed
    case Lexed(list) => Lexed([l] + list)
  }

  function DigitRun(t: Str): (n: nat)
    ensures n <= |t| && AllDigits(t[..n]) && (n < |t| ==> !IsDigit(t[n]))
  {
    if t == [] || !IsDigit(t[0]) then 0 else
    var n := 1 + DigitRun(t[1..]);
    assert t[..n] == [t[0]] + t[1..][..n - 1];
    n
  }

  /** Length of the placeholder mark that t starts with, or zero. */
  function Mark(style: Style, t: Str): (n: nat)
    ensures n <= |t|
  {
    match style
    case Positional => if t != [] && t[0] == 63 then 1 else 0
    case Dollar => if t != [] && t[0] == 36 then 1 else 0
    case AtP => if |t| > 1 && t[0] == 64 && t[1] == 112 then 2 else 0
  }

  /** next is the number a positional placeholder gets here. */
  function Lex(d: Dialect, style: Style, t: Str, next: nat): Lexemes
    decreases |t|
  {
    if t == [] then Lexed([])
    else if t[0] == Open(d) then
      match ReadIdent(t[1..], Close(d))
      case NoIdent => Malformed
      case ReadAs(id, rest) => if |rest| < |t| then Prepend(Identifier(id), Lex(d, style, rest, next)) else Malformed
    else if Mark(style, t) > 0 then
      var u := t[Mark(style, t)..];
      if style.Positional? then Prepend(Placeholder(next), Lex(d, style, u, next + 1))
      else Prepend(Placeholder(Value(u[..DigitRun(u)])), Lex(d, style, u[DigitRun(u)..], next + 1))
    else Prepend(Raw(t[0]), Lex(d, style, t[1..], next))
  }

  predicate Special(c: char) { c in "\"`[]?$@" }

  /** Fixed SQL words contain no quote and no placeholder mark, and do not continue a number. */
  predicate SafeWord(w: string) {
    w != "" && !('0' <= w[0] <= '9') && forall i :: 0 <= i < |w| ==> !Special(w[i]) && w[i] < 128 as char
  }

  /** The characters of which keywords, numbers and aliases are made. */
  predicate WordChar(c: char) { 'A' <= c <= 'Z' || 'a' <= c <= 'z' || '0' <= c <= '9' || c == '_' }

  predicate StartsInWord(w: string) { w != "" && WordChar(w[0]) }
  predicate EndsInWord(w: string) { w != "" && WordChar(w[|w| - 1]) }

  /** A word that runs together with nothing before it; a gap runs together with nothing on either side. */
  predicate Lead(w: string) { SafeWord(w) && !StartsInWord(w) }
  predicate Gap(w: string) { Lead(w) && !EndsInWord(w) }

  /** Names and parameters are separated by words, and words do not run together. */
  ghost predicate Spaced(ts: seq<Token>) {
    && (forall i :: 0 <= i < |ts| && ts[i].Word? ==> SafeWord(ts[i].text))
    && (forall i :: 0 <= i < |ts| - 1 && !ts[i].Word? ==> ts[i + 1].Word?)
    && (forall i :: 0 <= i < |ts| - 1 ==> Apart(ts[i], ts[i + 1]))
  }

  predicate Apart(t: Token, u: Token) { t.Word? && u.Word? ==> !(EndsInWord(t.text) && StartsInWord(u.text)) }

  function Params(ts: seq<Token>): seq<nat> {
    if ts == [] then [] else (if ts[0].Param? then [ts[0].n] else []) + Params(ts[1..])
  }

  function From(first: nat, count: nat): (r: seq<nat>)
    ensures |r| == count
  {
    seq(count, i requires 0 <= i < count => first + i)
  }

  function LexemesOf(ts: seq<Token>): seq<Lexeme> {
    if ts == [] then [] else
    (match ts[0]
     case Word(text) => seq(|text|, i requires 0 <= i < |text| => Raw(Ascii(text)[i]))
     case Name(id) => [Identifier(id)]
     case Param(n) => [Placeholder(n)]) + LexemesOf(ts[1..])
  }

  function Append(ls: seq<Lexeme>, r: Lexemes): Lexemes {
    match r
    case Malformed => Malformed
    case Lexed(list) => Lexed(ls + list)
  }

  function Raws(w: Str): (r: seq<Lexeme>)
    ensures |r| == |w|
  {
    seq(|w|, i requires 0 <= i < |w| => Raw(w[i]))
  }

  predicate Harmless(c: Unit) { c !in [34, 96, 91, 93, 63, 36, 64] }

  lemma LexHarmless(d: Dialect, style: Style, c: Unit, t: Str, next: nat)
    requires Harmless(c)
    ensures Lex(d, style, [c] + t, next) == Prepend(Raw(c), Lex(d, style, t, next))
  {
    assert ([c] + t)[1..] == t;
  }

  lemma RawsCons(w: Str, r: Lexemes)
    requires w != []
    ensures Prepend(Raw(w[0]), Append(Raws(w[1..]), r)) == Append(Raws(w), r)
  {
    assert Raws(w) == [Raw(w[0])] + Raws(w[1..]);
    if r.Lexed? { assert [Raw(w[0])] + (Raws(w[1..]) + r.list) == Raws(w) + r.list; }
  }

  lemma {:induction false} LexWord(d: Dialect, style: Style, w: Str, rest: Str, next: nat)
    requires forall i :: 0 <= i < |w| ==> Harmless(w[i])
    ensures Lex(d, style, w + rest, next) == Append(Raws(w), Lex(d, style, rest, next))
  {
    var last := Lex(d, style, rest, next);
    if w == [] {
      assert w + rest == rest;
      assert last.Lexed? ==> Raws(w) + last.list == last.list;
    } else {
      var tail := w[1..] + rest;
      assert w + rest == [w[0]] + tail;
      LexWord(d, style, w[1..], rest, next);
      LexHarmless(d, style, w[0], tail, next);
      RawsCons(w, last);
    }
  }

  lemma LexName(d: Dialect, style: Style, id: Str, rest: Str, next: nat)
    requires rest == [] || rest[0] != Close(d)
    ensures Lex(d, style, QuoteIdent(d, id) + rest, next) == Prepend(Identifier(id), Lex(d, style, rest, next))
  {
    var t := QuoteIdent(d, id) + rest;
    assert t[1..] == Double(id, Close(d)) + [Close(d)] + rest;
    QuotedReadBack(id, Close(d), rest);
  }

  lemma DigitRunEnds(a: Str, rest: Str)
    requires AllDigits(a) && (rest == [] || !IsDigit(rest[0]))
    ensures DigitRun(a + rest) == |a|
  {
    var n := DigitRun(a + rest);
    assert forall i :: 0 <= i < |a| ==> (a + rest)[i] == a[i];
    assert rest != [] ==> (a + rest)[|a|] == rest[0];
    assert forall i :: 0 <= i < n ==> IsDigit((a + rest)[..n][i]);
  }

  lemma DigitsRead(n: nat, rest: Str)
    requires rest == [] || !IsDigit(rest[0])
    ensures var u := Digits(n) + rest;
            u[..DigitRun(u)] == Digits(n) && u[DigitRun(u)..] == rest && Value(u[..DigitRun(u)]) == n
  {
    var u := Digits(n) + rest;
    DigitRunEnds(Digits(n), rest);
    assert u[..|Digits(n)|] == Digits(n) && u[|Digits(n)|..] == rest;
    ValueOfDigits(n);
  }

  function MarkText(style: Style): Str {
    match style
    case Positional => [63]
    case Dollar => [36]
    case AtP => [64, 112]
  }

  lemma LexMark(d: Dialect, style: Style, u: Str, next: nat)
    requires !style.Positional?
    ensures Lex(d, style, MarkText(style) + u, next) ==
            Prepend(Placeholder(Value(u[..DigitRun(u)])), Lex(d, style, u[DigitRun(u)..], next + 1))
  {
    var t := MarkText(style) + u;
    assert t[|MarkText(style)|..] == u;
    assert Mark(style, t) == |MarkText(style)|;
  }

  lemma LexParam(d: Dialect, style: Style, n: nat, rest: Str)
    requires rest == [] || !IsDigit(rest[0])
    ensures Lex(d, style, ParamText(style, n) + rest, n) == Prepend(Placeholder(n), Lex(d, style, rest, n + 1))
  {
    if style.Positional? {
      assert ([63] + rest)[1..] == rest;
    } else {
      assert ParamText(style, n) + rest == MarkText(style) + (Digits(n) + rest);
      DigitsRead(n, rest);
      LexMark(d, style, Digits(n) + rest, n);
    }
  }

  lemma WordStart(d: Dialect, style: Style, ts: seq<Token>)
    requires Spaced(ts) && (ts != [] ==> ts[0].Word?)
    ensures var r := Render(d, style, ts); r == [] || (Harmless(r[0]) && !IsDigit(r[0]))
  {
    if ts != [] {
      SafeWordUnits(ts[0].text);
      assert Render(d, style, ts)[0] == Ascii(ts[0].text)[0];
    }
  }

  lemma SafeWordUnits(w: string)
    requires SafeWord(w)
    ensures forall i :: 0 <= i < |w| ==> Harmless(Ascii(w)[i])
    ensures !IsDigit(Ascii(w)[0])
  {
    forall i | 0 <= i < |w| ensures Harmless(Ascii(w)[i]) {
      assert !Special(w[i]);
    }
  }

  lemma LexParamThen(d: Dialect, style: Style, ts: seq<Token>, next: nat)
    requires ts != [] && ts[0].Param? && Spaced(ts) && Params(ts) == From(next, |Params(ts)|)
    requires Lex(d, style, Render(d, style, ts[1..]), next + 1) == Lexed(LexemesOf(ts[1..]))
    ensures Lex(d, style, Render(d, style, ts), next) == Lexed(LexemesOf(ts))
  {
    assert Params(ts)[0] == ts[0].n == next;
    WordStart(d, style, ts[1..]);
    LexParam(d, style, next, Render(d, style, ts[1..]));
  }

  lemma LexNameThen(d: Dialect, style: Style, ts: seq<Token>, next: nat)
    requires ts != [] && ts[0].Name? && Spaced(ts)
    requires Lex(d, style, Render(d, style, ts[1..]), next) == Lexed(LexemesOf(ts[1..]))
    ensures Lex(d, style, Render(d, style, ts), next) == Lexed(LexemesOf(ts))
  {
    WordStart(d, style, ts[1..]);
    LexName(d, style, ts[0].id, Render(d, style, ts[1..]), next);
  }

  /** Rendered SQL text reads back as the tokens it was made from, placeholders numbered in reading order. */
  lemma {:induction false} LexRendered(d: Dialect, style: Style, ts: seq<Token>, next: nat)
    requires Spaced(ts) && Params(ts) == From(next, |Params(ts)|)
    ensures Lex(d, style, Render(d, style, ts), next) == Lexed(LexemesOf(ts))
    decreases |ts|
  {
    if ts != [] {
      var rest := ts[1..];
      if ts[0].Param? {
        assert Params(rest) == Params(ts)[1..] == From(next + 1, |Params(rest)|);
        LexRendered(d, style, rest, next + 1);
        LexParamThen(d, style, ts, next);
      } else {
        assert Params(rest) == Params(ts);
        LexRendered(d, style, rest, next);
        if ts[0].Word? {
          SafeWordUnits(ts[0].text);
          LexWord(d, style, Ascii(ts[0].text), Render(d, style, rest), next);
        } else {
          LexNameThen(d, style, ts, next);
        }
      }
    }
  }
}
