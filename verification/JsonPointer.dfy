/** JSON Pointers (sections 3 and 4 of RFC 6901) as src/jsonPointer.ts evaluates them. */
module JsonPointer {
  import opened Utf16
  import opened Decimal
  import opened Json
  import opened LogicalSteps

  const SLASH: Unit := 47
  const TILDE: Unit := 126

  // ----- text

  /** replace(/~d/g, plain): one pass from the left. */
  function ReplacePair(t: Str, digit: Unit, plain: Unit): Str {
    if t == [] then []
    else if |t| >= 2 && t[0] == TILDE && t[1] == digit then [plain] + ReplacePair(t[2..], digit, plain)
    else [t[0]] + ReplacePair(t[1..], digit, plain)
  }

  /** First ~1, then ~0. */
  function Unescape(t: Str): Str { ReplacePair(ReplacePair(t, 49, SLASH), 48, TILDE) }

  function Escape(t: Str): Str {
    if t == [] then []
    else (if t[0] == TILDE then [TILDE, 48] else if t[0] == SLASH then [TILDE, 49] else [t[0]]) + Escape(t[1..])
  }

  function UnescapeAll(parts: seq<Str>): (r: seq<Str>)
    ensures |r| == |parts|
  {
    seq(|parts|, i requires 0 <= i < |parts| => Unescape(parts[i]))
  }

  /** The reference tokens of a pointer that starts with a slash. */
  function Tokens(pointer: Str): seq<Str>
    requires pointer != []
  {
    UnescapeAll(Split(pointer[1..], SLASH))
  }

  function PointerText(tokens: seq<Str>): Str {
    if tokens == [] then [] else [SLASH] + Escape(tokens[0]) + PointerText(tokens[1..])
  }

  // ----- values

  /** What the walk can stand on: a value of the document, or what every object inherits. */
  datatype Cur = Doc(v: Json) | Prototype | Function | Undefined

  const PROTO: Str := Ascii("__proto__")

  /** The members of Object.prototype other than the __proto__ accessor; all are functions. */
  const METHODS: seq<Str> := [
    Ascii("constructor"), Ascii("toString"), Ascii("toLocaleString"), Ascii("valueOf"), Ascii("hasOwnProperty"),
    Ascii("isPrototypeOf"), Ascii("propertyIsEnumerable"), Ascii("__defineGetter__"), Ascii("__defineSetter__"),
    Ascii("__lookupGetter__"), Ascii("__lookupSetter__")]

  function Own(es: seq<Entry>, key: Str): Option<Json> {
    if es == [] then None else if es[0].key == key then Some(es[0].value) else Own(es[1..], key)
  }

  predicate IsSpace(c: Unit) {
    9 <= c <= 13 || c == 32 || c == 0xA0 || c == 0x1680 || 0x2000 <= c <= 0x200A || c == 0x2028 || c == 0x2029
    || c == 0x202F || c == 0x205F || c == 0x3000 || c == 0xFEFF
  }

  function TrimStart(t: Str): Str { if t != [] && IsSpace(t[0]) then TrimStart(t[1..]) else t }

  function DigitPrefix(t: Str): (r: Str)
    ensures AllDigits(r) && r <= t && (|r| < |t| ==> !IsDigit(t[|r|]))
  {
    if t == [] || !IsDigit(t[0]) then [] else
    var rest := DigitPrefix(t[1..]);
    assert [t[0]] + rest <= t by { assert t == [t[0]] + t[1..]; }
    [t[0]] + rest
  }

  datatype Int = NaN | Int(neg: bool, n: nat)

  /** Number.parseInt(t, 10), exactly; a double could only differ far beyond every array length. */
  function ParseInt(t: Str): Int {
    var u := TrimStart(t);
    var neg := u != [] && u[0] == 45;
    var digits := DigitPrefix(if u != [] && (u[0] == 45 || u[0] == 43) then u[1..] else u);
    if digits == [] then NaN else Int(neg, Value(digits))
  }

  /** String(idx). */
  function IntText(i: Int): Str {
    match i
    case NaN => Ascii("NaN")
    case Int(neg, n) => if neg && n > 0 then [45] + Digits(n) else Digits(n)
  }

  /** cur[idx], after the code's guard; the token NaN passes the guard and finds nothing. */
  function Item(items: seq<Json>, tok: Str): Cur {
    var idx := ParseInt(tok);
    if IntText(idx) != tok || (idx.Int? && ((idx.neg && idx.n > 0) || idx.n >= |items|)) then Undefined
    else if idx.NaN? then Undefined
    else Doc(items[idx.n])
  }

  function Inherited(tok: Str): Cur {
    if tok == PROTO then Prototype else if tok in METHODS then Function else Undefined
  }

  function Member(es: seq<Entry>, tok: Str): Cur {
    match Own(es, tok)
    case Some(v) => Doc(v)
    case None => Inherited(tok)
  }

  /** One token; scalars, functions and nothing lead nowhere. The prototype's own __proto__ is null. */
  function StepInto(cur: Cur, tok: Str): Cur {
    match cur
    case Doc(Array(items)) => Item(items, tok)
    case Doc(Object(es)) => Member(es, tok)
    case Prototype => if tok == PROTO then Doc(Null) else if tok in METHODS then Function else Undefined
    case _ => Undefined
  }

  predicate IsObject(cur: Cur) { (cur.Doc? && (cur.v.Array? || cur.v.Object?)) || cur.Prototype? }

  function Walk(cur: Cur, tokens: seq<Str>): Cur
    decreases |tokens|
  {
    if tokens == [] then cur else Walk(StepInto(cur, tokens[0]), tokens[1..])
  }

  datatype Result = Thrown | Found(cur: Cur)

  function Eval(doc: Json, pointer: Str): Result {
    if pointer == [] then Found(Doc(doc))
    else if pointer[0] != SLASH then Thrown
    else Found(Walk(Doc(doc), Tokens(pointer)))
  }

  method GetPointer(doc: Json, pointer: Str) returns (r: Result)
    ensures r == Eval(doc, pointer)
  {
    if pointer == [] {
      return Found(Doc(doc));
    }
    if pointer[0] != SLASH {
      return Thrown;
    }
    var parts := Tokens(pointer);
    var cur := Doc(doc);
    for i := 0 to |parts|
      invariant Walk(Doc(doc), parts) == Walk(cur, parts[i..])
    {
      assert parts[i..][1..] == parts[i + 1..];
      if !IsObject(cur) {
        WalkEnds(parts[i + 1..]);
        return Found(Undefined);
      }
      cur := StepInto(cur, parts[i]);
    }
    return Found(cur);
  }

  lemma {:induction false} WalkEnds(tokens: seq<Str>)
    ensures Walk(Undefined, tokens) == Undefined
  {
    if tokens != [] { WalkEnds(tokens[1..]); }
  }

  // ----- escaping

  function Half(t: Str): Str {
    if t == [] then [] else (if t[0] == TILDE then [TILDE, 48] else [t[0]]) + Half(t[1..])
  }

  lemma {:induction false} UnescapeSlashes(t: Str)
    ensures ReplacePair(Escape(t), 49, SLASH) == Half(t)
  {
    if t != [] {
      var e := Escape(t[1..]);
      UnescapeSlashes(t[1..]);
      if t[0] == TILDE {
        assert ([TILDE, 48] + e)[1..] == [48] + e && ([48] + e)[1..] == e;
      } else if t[0] == SLASH {
        assert ([TILDE, 49] + e)[2..] == e;
      } else {
        assert ([t[0]] + e)[1..] == e;
      }
    }
  }

  lemma {:induction false} UnescapeTildes(t: Str)
    ensures ReplacePair(Half(t), 48, TILDE) == t
  {
    if t != [] {
      var h := Half(t[1..]);
      UnescapeTildes(t[1..]);
      if t[0] == TILDE {
        assert ([TILDE, 48] + h)[2..] == h;
      } else {
        assert ([t[0]] + h)[1..] == h;
      }
      assert t == [t[0]] + t[1..];
    }
  }

  /** Unescaping undoes escaping, for every token. */
  lemma UnescapeEscape(t: Str)
    ensures Unescape(Escape(t)) == t
  {
    UnescapeSlashes(t);
    UnescapeTildes(t);
  }

  lemma {:induction false} EscapedPlain(t: Str)
    ensures SLASH !in Escape(t)
  {
    if t != [] { EscapedPlain(t[1..]); }
  }

  lemma TextTail(tokens: seq<Str>)
    requires tokens != []
    ensures PointerText(tokens)[1..] == Escape(tokens[0]) + PointerText(tokens[1..])
  {
  }

  lemma SplitCons(a: Str, rest: Str)
    requires SLASH !in a && rest != [] && rest[0] == SLASH
    ensures Split(a + rest, SLASH) == [a] + Split(rest[1..], SLASH)
  {
    assert a + rest == a + [SLASH] + rest[1..];
    SplitFirst(a, rest[1..], SLASH);
  }

  lemma TokensOfOne(tok: Str)
    ensures Tokens(PointerText([tok])) == [tok]
  {
    TextTail([tok]);
    assert Escape(tok) + PointerText([tok][1..]) == Escape(tok);
    EscapedPlain(tok);
    SplitPlain(Escape(tok), SLASH);
    UnescapeEscape(tok);
  }

  /** Reading back the text of any list of tokens gives the list. */
  lemma {:induction false} TokensOfText(tokens: seq<Str>)
    requires tokens != []
    ensures Tokens(PointerText(tokens)) == tokens
  {
    assert tokens == [tokens[0]] + tokens[1..];
    if |tokens| == 1 {
      TokensOfOne(tokens[0]);
    } else {
      var a, rest := Escape(tokens[0]), PointerText(tokens[1..]);
      TextTail(tokens);
      TokensOfText(tokens[1..]);
      UnescapeEscape(tokens[0]);
      EscapedPlain(tokens[0]);
      SplitCons(a, rest);
      UnescapeFirst(a, Split(rest[1..], SLASH));
    }
  }

  lemma UnescapeFirst(a: Str, parts: seq<Str>)
    ensures UnescapeAll([a] + parts) == [Unescape(a)] + UnescapeAll(parts)
  {
  }

  // ----- array indices

  /** The index an array token stands for: canonical decimal and in range. */
  function Index(tok: Str, length: nat): Option<nat> {
    if Canonical(tok) && Value(tok) < length then Some(Value(tok)) else None
  }

  lemma {:induction false} AllPrefix(s: Str)
    requires AllDigits(s)
    ensures DigitPrefix(s) == s
  {
    if s != [] {
      AllPrefix(s[1..]);
      assert s == [s[0]] + s[1..];
    }
  }

  lemma CanonicalParses(tok: Str)
    requires Canonical(tok)
    ensures ParseInt(tok) == Int(false, Value(tok)) && IntText(ParseInt(tok)) == tok
  {
    assert IsDigit(tok[0]);
    AllPrefix(tok);
    DigitsOfValue(tok);
  }

  /** Array tokens are accepted only in canonical decimal and in range. */
  lemma ItemMeans(items: seq<Json>, tok: Str)
    ensures Item(items, tok) == match Index(tok, |items|) case Some(i) => Doc(items[i]) case None => Undefined
  {
    if Canonical(tok) {
      CanonicalParses(tok);
    } else {
      var idx := ParseInt(tok);
      if idx.Int? {
        assert Canonical(Digits(idx.n));
      }
    }
  }

  // ----- the walk and the direct walk

  /** The value reached step by step as the RFC defines it. */
  function Direct(v: Json, tokens: seq<Str>): Option<Json>
    decreases |tokens|
  {
    if tokens == [] then Some(v) else
    match v
    case Array(items) =>
      var i := Index(tokens[0], |items|);
      if i.Some? then Direct(items[i.value], tokens[1..]) else None
    case Object(es) =>
      var member := Own(es, tokens[0]);
      if member.Some? then Direct(member.value, tokens[1..]) else None
    case _ => None
  }

  /** The walk leaves the document for something that every object inherits, and ends there with a result. */
  predicate EndsInherited(v: Json, tokens: seq<Str>)
    decreases |tokens|
  {
    tokens != [] &&
    match v
    case Array(items) =>
      var i := Index(tokens[0], |items|);
      i.Some? && EndsInherited(items[i.value], tokens[1..])
    case Object(es) =>
      var member := Own(es, tokens[0]);
      if member.Some? then EndsInherited(member.value, tokens[1..])
      else (|tokens| == 1 && (tokens[0] == PROTO || tokens[0] in METHODS))
           || (|tokens| == 2 && tokens[0] == PROTO && (tokens[1] == PROTO || tokens[1] in METHODS))
    case _ => false
  }

  function Reached(r: Option<Json>): Cur { match r case Some(v) => Doc(v) case None => Undefined }

  lemma WalkInherited(tokens: seq<Str>)
    requires tokens != []
    ensures Walk(Inherited(tokens[0]), tokens[1..]) != Undefined <==>
            (|tokens| == 1 && (tokens[0] == PROTO || tokens[0] in METHODS))
            || (|tokens| == 2 && tokens[0] == PROTO && (tokens[1] == PROTO || tokens[1] in METHODS))
  {
    var rest := tokens[1..];
    if rest != [] {
      var next := rest[1..];
      WalkEnds(next);
      if next != [] {
        WalkEnds(next[1..]);
        assert tokens[0] == PROTO && rest[0] == PROTO ==> Walk(Doc(Null), next) == Undefined;
      }
    }
  }

  /** The walk gives the value reached step by step, for every document and path, unless it ends on an inherited name. */
  lemma {:induction false} WalkMatches(v: Json, tokens: seq<Str>)
    ensures Walk(Doc(v), tokens) == Reached(Direct(v, tokens)) <==> !EndsInherited(v, tokens)
    decreases |tokens|
  {
    if tokens != [] {
      var tok, rest := tokens[0], tokens[1..];
      match v
      case Array(items) =>
        ItemMeans(items, tok);
        var i := Index(tok, |items|);
        if i.Some? { WalkMatches(items[i.value], rest); } else { WalkEnds(rest); }
      case Object(es) =>
        var member := Own(es, tok);
        if member.Some? { WalkMatches(member.value, rest); } else { WalkInherited(tokens); }
      case _ =>
        WalkEnds(rest);
    }
  }

  /** Escaping any list of tokens, joining them and evaluating gives the value reached step by step. */
  lemma EvalMatches(doc: Json, tokens: seq<Str>)
    ensures Eval(doc, PointerText(tokens)) == Found(Reached(Direct(doc, tokens))) <==> !EndsInherited(doc, tokens)
  {
    WalkMatches(doc, tokens);
    if tokens != [] { TokensOfText(tokens); }
  }

  /** A path without a value that still yields something: the constructor of an empty object. */
  lemma InheritedExample()
    ensures Direct(Object([]), [Ascii("constructor")]) == None
    ensures Eval(Object([]), PointerText([Ascii("constructor")])) == Found(Function)
  {
    var tokens := [Ascii("constructor")];
    TokensOfText(tokens);
    assert METHODS[0] == Ascii("constructor") && Ascii("constructor") in METHODS;
    assert |PROTO| != |Ascii("constructor")|;
    assert tokens[1..] == [];
    assert Walk(Doc(Object([])), tokens) == Walk(Function, tokens[1..]);
  }
}
