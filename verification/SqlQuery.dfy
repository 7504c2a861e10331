/** Conditions of generated queries: their tokens, their placeholders, and the loops that push them. */
module SqlQuery {
  import opened Utf16
  import opened SqlText

  datatype Eq = Eq(column: Str, value: Str)

  /** A column is named through its table (a path of name segments) or through a join alias. */
  datatype Source = Table(path: seq<Str>) | A | L | R
  datatype Col = Col(source: Source, name: Str)
  datatype Cond = ParamEq(col: Col, n: nat) | ColEq(a: Col, b: Col) | IsNull(col: Col)

  function ParamConds(source: Source, eqs: seq<Eq>, first: nat): (r: seq<Cond>)
    ensures |r| == |eqs|
  {
    seq(|eqs|, i requires 0 <= i < |eqs| => ParamEq(Col(source, eqs[i].column), first + i))
  }

  function EqValues(eqs: seq<Eq>): (r: seq<Str>)
    ensures |r| == |eqs|
  {
    seq(|eqs|, i requires 0 <= i < |eqs| => eqs[i].value)
  }

  function EqColumns(eqs: seq<Eq>): set<Str> { set e | e in eqs :: e.column }

  // ----- tokens

  function TableTokens(path: seq<Str>): seq<Token> {
    if path == [] then []
    else if |path| == 1 then [Name(path[0])]
    else [Name(path[0]), Word(".")] + TableTokens(path[1..])
  }

  function SourceTokens(s: Source): seq<Token> {
    match s
    case Table(path) => TableTokens(path) + [Word(".")]
    case A => [Word("A.")]
    case L => [Word("L.")]
    case R => [Word("R.")]
  }

  function ColTokens(c: Col): seq<Token> { SourceTokens(c.source) + [Name(c.name)] }

  function CondTokens(c: Cond): seq<Token> {
    match c
    case ParamEq(col, n) => ColTokens(col) + [Word(" = "), Param(n)]
    case ColEq(a, b) => ColTokens(a) + [Word(" = ")] + ColTokens(b)
    case IsNull(col) => ColTokens(col) + [Word(" IS NULL")]
  }

  function JoinTokens(parts: seq<seq<Token>>, separator: string): seq<Token> {
    if parts == [] then []
    else if |parts| == 1 then parts[0]
    else parts[0] + [Word(separator)] + JoinTokens(parts[1..], separator)
  }

  function CondParts(cs: seq<Cond>): (r: seq<seq<Token>>)
    ensures |r| == |cs|
  {
    seq(|cs|, i requires 0 <= i < |cs| => CondTokens(cs[i]))
  }

  function AndTokens(cs: seq<Cond>): seq<Token> { JoinTokens(CondParts(cs), " AND ") }

  function WhereTokens(cs: seq<Cond>): seq<Token> {
    if cs == [] then [] else [Word(" WHERE ")] + AndTokens(cs)
  }

  function ColumnParts(source: Source, columns: seq<Str>): (r: seq<seq<Token>>)
    ensures |r| == |columns|
  {
    seq(|columns|, i requires 0 <= i < |columns| => ColTokens(Col(source, columns[i])))
  }

  function ListTokens(source: Source, columns: seq<Str>): seq<Token> { JoinTokens(ColumnParts(source, columns), ", ") }

  // ----- names and placeholders stay apart

  ghost predicate OpenEnd(ts: seq<Token>) { ts != [] && !ts[|ts| - 1].Word? }
  ghost predicate OpenStart(ts: seq<Token>) { ts != [] && !ts[0].Word? }

  ghost predicate Meet(a: seq<Token>, b: seq<Token>) {
    a != [] && b != [] ==> !(OpenEnd(a) && OpenStart(b)) && Apart(a[|a| - 1], b[0])
  }

  lemma SpacedConcat(a: seq<Token>, b: seq<Token>)
    requires Spaced(a) && Spaced(b) && Meet(a, b)
    ensures Spaced(a + b)
  {
    var r := a + b;
    forall i | 0 <= i < |r| - 1 ensures (!r[i].Word? ==> r[i + 1].Word?) && Apart(r[i], r[i + 1]) {
      if i == |a| - 1 {
        assert r[i] == a[|a| - 1] && r[i + 1] == b[0];
      } else if i < |a| {
        assert r[i] == a[i] && r[i + 1] == a[i + 1];
      } else {
        assert r[i] == b[i - |a|] && r[i + 1] == b[i - |a| + 1];
      }
    }
  }

  lemma WordSpaced(w: string)
    requires SafeWord(w)
    ensures Spaced([Word(w)])
  {
  }

  lemma {:induction false} TableSpaced(path: seq<Str>)
    ensures Spaced(TableTokens(path)) && (path != [] ==> OpenStart(TableTokens(path)))
  {
    if |path| > 1 {
      TableSpaced(path[1..]);
      assert Spaced([Name(path[0]), Word(".")]);
      SpacedConcat([Name(path[0]), Word(".")], TableTokens(path[1..]));
    }
  }

  lemma SourceSpaced(s: Source)
    ensures Spaced(SourceTokens(s)) && SourceTokens(s) != [] && !OpenEnd(SourceTokens(s))
  {
    match s
    case Table(path) =>
      TableSpaced(path);
      WordSpaced(".");
      SpacedConcat(TableTokens(path), [Word(".")]);
    case _ =>
  }

  lemma ColSpaced(c: Col)
    ensures Spaced(ColTokens(c)) && ColTokens(c) != []
  {
    SourceSpaced(c.source);
    SpacedConcat(SourceTokens(c.source), [Name(c.name)]);
  }

  lemma ParamEqSpaced(col: Col, link: string, n: nat)
    requires Gap(link)
    ensures Spaced(ColTokens(col) + [Word(link), Param(n)])
  {
    ColSpaced(col);
    assert Spaced([Word(link), Param(n)]);
    SpacedConcat(ColTokens(col), [Word(link), Param(n)]);
  }

  lemma ColEqSpaced(a: Col, link: string, b: Col)
    requires Gap(link)
    ensures Spaced(ColTokens(a) + [Word(link)] + ColTokens(b))
  {
    ColSpaced(a);
    ColSpaced(b);
    WordSpaced(link);
    SpacedConcat(ColTokens(a), [Word(link)]);
    SpacedConcat(ColTokens(a) + [Word(link)], ColTokens(b));
  }

  lemma IsNullSpaced(col: Col, word: string)
    requires Lead(word)
    ensures Spaced(ColTokens(col) + [Word(word)])
  {
    ColSpaced(col);
    WordSpaced(word);
    SpacedConcat(ColTokens(col), [Word(word)]);
  }

  lemma CondSpaced(c: Cond)
    ensures Spaced(CondTokens(c)) && CondTokens(c) != []
  {
    assert Gap(" = ") && Lead(" IS NULL");
    match c
    case ParamEq(col, n) => ParamEqSpaced(col, " = ", n);
    case ColEq(a, b) => ColEqSpaced(a, " = ", b);
    case IsNull(col) => IsNullSpaced(col, " IS NULL");
  }

  lemma {:induction false} JoinSpaced(parts: seq<seq<Token>>, separator: string)
    requires Gap(separator) && forall i :: 0 <= i < |parts| ==> Spaced(parts[i])
    ensures Spaced(JoinTokens(parts, separator))
  {
    if |parts| > 1 {
      JoinSpaced(parts[1..], separator);
      WordSpaced(separator);
      SpacedConcat(parts[0], [Word(separator)]);
      SpacedConcat(parts[0] + [Word(separator)], JoinTokens(parts[1..], separator));
    }
  }

  lemma AndSpaced(cs: seq<Cond>)
    ensures Spaced(AndTokens(cs))
  {
    forall i | 0 <= i < |cs| ensures Spaced(CondParts(cs)[i]) { CondSpaced(cs[i]); }
    assert Gap(" AND ");
    JoinSpaced(CondParts(cs), " AND ");
  }

  lemma ListSpaced(source: Source, columns: seq<Str>)
    ensures Spaced(ListTokens(source, columns))
  {
    forall i | 0 <= i < |columns| ensures Spaced(ColumnParts(source, columns)[i]) { ColSpaced(Col(source, columns[i])); }
    assert Gap(", ");
    JoinSpaced(ColumnParts(source, columns), ", ");
  }

  lemma WhereSpaced(cs: seq<Cond>)
    ensures Spaced(WhereTokens(cs)) && !OpenStart(WhereTokens(cs))
    ensures WhereTokens(cs) != [] ==> Lead(WhereTokens(cs)[0].text)
  {
    if cs != [] {
      AndSpaced(cs);
      assert Gap(" WHERE ");
      WordSpaced(" WHERE ");
      SpacedConcat([Word(" WHERE ")], AndTokens(cs));
    }
  }

  // ----- placeholders in reading order

  lemma {:induction false} ParamsConcat(a: seq<Token>, b: seq<Token>)
    ensures Params(a + b) == Params(a) + Params(b)
  {
    if a == [] {
      assert a + b == b;
    } else {
      assert (a + b)[0] == a[0] && (a + b)[1..] == a[1..] + b;
      ParamsConcat(a[1..], b);
    }
  }

  function ParamNos(cs: seq<Cond>): seq<nat> {
    if cs == [] then [] else (if cs[0].ParamEq? then [cs[0].n] else []) + ParamNos(cs[1..])
  }

  lemma {:induction false} TableParams(path: seq<Str>)
    ensures Params(TableTokens(path)) == []
  {
    if |path| > 1 {
      TableParams(path[1..]);
      ParamsConcat([Name(path[0]), Word(".")], TableTokens(path[1..]));
    }
  }

  lemma OneParam(t: Token)
    ensures Params([t]) == if t.Param? then [t.n] else []
  {
    assert [t][1..] == [];
  }

  lemma ColParams(c: Col)
    ensures Params(ColTokens(c)) == []
  {
    ParamsConcat(SourceTokens(c.source), [Name(c.name)]);
    OneParam(Name(c.name));
    match c.source
    case Table(path) =>
      TableParams(path);
      ParamsConcat(TableTokens(path), [Word(".")]);
      OneParam(Word("."));
    case _ =>
      assert SourceTokens(c.source)[1..] == [];
  }

  lemma CondParams(c: Cond)
    ensures Params(CondTokens(c)) == if c.ParamEq? then [c.n] else []
  {
    match c
    case ParamEq(col, n) =>
      ColParams(col);
      assert [Word(" = "), Param(n)][1..] == [Param(n)];
      OneParam(Param(n));
      ParamsConcat(ColTokens(col), [Word(" = "), Param(n)]);
    case ColEq(a, b) =>
      ColParams(a);
      ColParams(b);
      OneParam(Word(" = "));
      ParamsConcat(ColTokens(a), [Word(" = ")]);
      ParamsConcat(ColTokens(a) + [Word(" = ")], ColTokens(b));
    case IsNull(col) =>
      ColParams(col);
      OneParam(Word(" IS NULL"));
      ParamsConcat(ColTokens(col), [Word(" IS NULL")]);
  }

  function PartsParams(parts: seq<seq<Token>>): seq<nat> {
    if parts == [] then [] else Params(parts[0]) + PartsParams(parts[1..])
  }

  lemma JoinCons(first: seq<Token>, separator: string, rest: seq<Token>)
    ensures Params(first + [Word(separator)] + rest) == Params(first) + Params(rest)
  {
    OneParam(Word(separator));
    ParamsConcat(first, [Word(separator)]);
    ParamsConcat(first + [Word(separator)], rest);
    assert Params(first) + [] == Params(first);
  }

  /** Separators add no placeholders. */
  lemma {:induction false} JoinParams(parts: seq<seq<Token>>, separator: string)
    ensures Params(JoinTokens(parts, separator)) == PartsParams(parts)
  {
    if |parts| == 1 {
      assert PartsParams(parts[1..]) == [];
    } else if |parts| > 1 {
      JoinParams(parts[1..], separator);
      JoinCons(parts[0], separator, JoinTokens(parts[1..], separator));
    }
  }

  lemma {:induction false} CondPartsParams(cs: seq<Cond>)
    ensures PartsParams(CondParts(cs)) == ParamNos(cs)
  {
    if cs != [] {
      CondPartsParams(cs[1..]);
      CondParams(cs[0]);
      assert CondParts(cs)[1..] == CondParts(cs[1..]);
    }
  }

  lemma AndParams(cs: seq<Cond>)
    ensures Params(AndTokens(cs)) == ParamNos(cs)
  {
    JoinParams(CondParts(cs), " AND ");
    CondPartsParams(cs);
  }

  lemma WhereParams(cs: seq<Cond>)
    ensures Params(WhereTokens(cs)) == ParamNos(cs)
  {
    AndParams(cs);
    OneParam(Word(" WHERE "));
    ParamsConcat([Word(" WHERE ")], AndTokens(cs));
  }

  lemma {:induction false} ColumnPartsParams(source: Source, columns: seq<Str>)
    ensures PartsParams(ColumnParts(source, columns)) == []
    decreases |columns|
  {
    if columns != [] {
      ColumnPartsParams(source, columns[1..]);
      ColParams(Col(source, columns[0]));
      assert ColumnParts(source, columns)[1..] == ColumnParts(source, columns[1..]);
    }
  }

  lemma ListParams(source: Source, columns: seq<Str>)
    ensures Params(ListTokens(source, columns)) == []
  {
    JoinParams(ColumnParts(source, columns), ", ");
    ColumnPartsParams(source, columns);
  }

  lemma {:induction false} ParamCondNos(source: Source, eqs: seq<Eq>, first: nat)
    ensures ParamNos(ParamConds(source, eqs, first)) == From(first, |eqs|)
    decreases |eqs|
  {
    if eqs != [] {
      ParamCondNos(source, eqs[1..], first + 1);
      assert ParamConds(source, eqs, first)[1..] == ParamConds(source, eqs[1..], first + 1);
    }
  }

  lemma {:induction false} ParamNosConcat(a: seq<Cond>, b: seq<Cond>)
    ensures ParamNos(a + b) == ParamNos(a) + ParamNos(b)
  {
    if a == [] {
      assert a + b == b;
    } else {
      assert (a + b)[0] == a[0] && (a + b)[1..] == a[1..] + b;
      ParamNosConcat(a[1..], b);
    }
  }

  // ----- building the text

  function CondTexts(d: Dialect, style: Style, cs: seq<Cond>): (r: seq<Str>)
    ensures |r| == |cs|
  {
    seq(|cs|, i requires 0 <= i < |cs| => Render(d, style, CondTokens(cs[i])))
  }

  /** Array.prototype.join. */
  function JoinText(parts: seq<Str>, separator: Str): Str {
    if parts == [] then []
    else if |parts| == 1 then parts[0]
    else parts[0] + separator + JoinText(parts[1..], separator)
  }

  function Rendered(d: Dialect, style: Style, parts: seq<seq<Token>>): (r: seq<Str>)
    ensures |r| == |parts|
  {
    seq(|parts|, i requires 0 <= i < |parts| => Render(d, style, parts[i]))
  }

  lemma RenderOne(d: Dialect, style: Style, t: Token)
    ensures Render(d, style, [t]) == TokenText(d, style, t)
  {
    assert [t][1..] == [];
    assert TokenText(d, style, t) + [] == TokenText(d, style, t);
  }

  lemma RenderSeparated(d: Dialect, style: Style, a: seq<Token>, separator: string, b: seq<Token>)
    ensures Render(d, style, a + [Word(separator)] + b) == Render(d, style, a) + Ascii(separator) + Render(d, style, b)
  {
    RenderOne(d, style, Word(separator));
    RenderConcat(d, style, a, [Word(separator)]);
    RenderConcat(d, style, a + [Word(separator)], b);
  }

  /** Joining rendered parts is rendering the joined parts. */
  lemma {:induction false} RenderJoin(d: Dialect, style: Style, parts: seq<seq<Token>>, separator: string)
    ensures Render(d, style, JoinTokens(parts, separator)) == JoinText(Rendered(d, style, parts), Ascii(separator))
  {
    if |parts| > 1 {
      RenderJoin(d, style, parts[1..], separator);
      RenderSeparated(d, style, parts[0], separator, JoinTokens(parts[1..], separator));
      assert Rendered(d, style, parts)[1..] == Rendered(d, style, parts[1..]);
    }
  }

  lemma RenderAnd(d: Dialect, style: Style, cs: seq<Cond>)
    ensures Render(d, style, AndTokens(cs)) == JoinText(CondTexts(d, style, cs), Ascii(" AND "))
  {
    RenderJoin(d, style, CondParts(cs), " AND ");
    assert Rendered(d, style, CondParts(cs)) == CondTexts(d, style, cs);
  }

  lemma RenderParamEq(d: Dialect, style: Style, source: Source, column: Str, n: nat)
    ensures Render(d, style, CondTokens(ParamEq(Col(source, column), n))) ==
            Render(d, style, SourceTokens(source)) + QuoteIdent(d, column) + (Ascii(" = ") + ParamText(style, n))
  {
    var col := Col(source, column);
    RenderConcat(d, style, ColTokens(col), [Word(" = "), Param(n)]);
    RenderConcat(d, style, SourceTokens(source), [Name(column)]);
    RenderOne(d, style, Name(column));
    RenderConcat(d, style, [Word(" = ")], [Param(n)]);
    assert [Word(" = ")] + [Param(n)] == [Word(" = "), Param(n)];
    RenderOne(d, style, Word(" = "));
    RenderOne(d, style, Param(n));
  }

  function EqText(d: Dialect, style: Style, prefix: Str, column: Str, n: nat): Str {
    prefix + QuoteIdent(d, column) + (Ascii(" = ") + ParamText(style, n))
  }

  function EqTexts(d: Dialect, style: Style, prefix: Str, eqs: seq<Eq>, first: nat): (r: seq<Str>)
    ensures |r| == |eqs|
    ensures forall i :: 0 <= i < |eqs| ==> r[i] == EqText(d, style, prefix, eqs[i].column, first + i)
  {
    seq(|eqs|, i requires 0 <= i < |eqs| => EqText(d, style, prefix, eqs[i].column, first + i))
  }

  lemma EqTextsMean(d: Dialect, style: Style, source: Source, eqs: seq<Eq>, first: nat)
    ensures CondTexts(d, style, ParamConds(source, eqs, first)) == EqTexts(d, style, Render(d, style, SourceTokens(source)), eqs, first)
  {
    var prefix, cs := Render(d, style, SourceTokens(source)), ParamConds(source, eqs, first);
    forall i | 0 <= i < |eqs| ensures Render(d, style, CondTokens(cs[i])) == EqText(d, style, prefix, eqs[i].column, first + i) {
      RenderParamEq(d, style, source, eqs[i].column, first + i);
    }
  }

  lemma PushNext<T>(front: seq<T>, all: seq<T>, i: nat)
    requires i < |all|
    ensures front + all[..i] + [all[i]] == front + all[..i + 1]
  {
  }

  method PushTexts(d: Dialect, style: Style, prefix: Str, eqs: seq<Eq>, conds0: seq<Str>, values0: seq<Str>, pn0: nat)
    returns (conds: seq<Str>, values: seq<Str>, pn: nat)
    ensures conds == conds0 + EqTexts(d, style, prefix, eqs, pn0)
    ensures values == values0 + EqValues(eqs)
    ensures pn == pn0 + |eqs|
  {
    conds, values, pn := conds0, values0, pn0;
    ghost var all, vals := EqTexts(d, style, prefix, eqs, pn0), EqValues(eqs);
    for i := 0 to |eqs|
      invariant conds == conds0 + all[..i] && values == values0 + vals[..i] && pn == pn0 + i
    {
      var cond := EqText(d, style, prefix, eqs[i].column, pn);
      PushNext(conds0, all, i);
      PushNext(values0, vals, i);
      conds, values, pn := conds + [cond], values + [eqs[i].value], pn + 1;
    }
  }

  /** The loop that pushes one condition and one value for each equality and counts up the placeholder number. */
  method PushEqualities(d: Dialect, style: Style, source: Source, prefix: Str, eqs: seq<Eq>,
                        conds0: seq<Str>, values0: seq<Str>, pn0: nat)
    returns (conds: seq<Str>, values: seq<Str>, pn: nat)
    requires prefix == Render(d, style, SourceTokens(source))
    ensures conds == conds0 + CondTexts(d, style, ParamConds(source, eqs, pn0))
    ensures values == values0 + EqValues(eqs)
    ensures pn == pn0 + |eqs|
  {
    conds, values, pn := PushTexts(d, style, prefix, eqs, conds0, values0, pn0);
    EqTextsMean(d, style, source, eqs, pn0);
  }
}
