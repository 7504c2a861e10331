/** The SQL text of relational checks: the builders render the compiled query, and the text reads back as that query. */
module RelationalSql {
  import opened Sorting
  import opened Utf16
  import opened SqlText
  import opened SqlQuery
  import opened RelationalCheck
  import opened SqlReader
  import LogicalSteps

  // ----- the tokens of a query

  function Pair(word: string, id: Str): seq<Token> { [Word(word), Name(id)] }

  function JoinHead(first: seq<Token>, left: Str, link: string, right: Str, alias: string): seq<Token> {
    first + [Name(left)] + Pair(link, right) + [Word(alias)]
  }

  function SampleHead(projection: seq<Str>): seq<Token> {
    [Word("SELECT ")] + ListTokens(A, projection) + [Word(" FROM ")]
  }

  function OuterTokens(first: seq<Token>, l: Str, r: Str, on: seq<Cond>, where: seq<Cond>): seq<Token> {
    JoinHead(first, l, " AS A LEFT JOIN ", r, " AS L ON ") + AndTokens(on) + [Word(" WHERE ")] + AndTokens(where)
  }

  function QueryTokens(q: Query): seq<Token> {
    match q
    case SelectExists(t, where) =>
      Pair("SELECT EXISTS (SELECT 1 FROM ", t) + [Word(" WHERE ")] + AndTokens(where) + [Word(" LIMIT 1) AS v")]
    case SelectCount(t, where) => Pair("SELECT COUNT(*) AS v FROM ", t) + WhereTokens(where)
    case SelectSum(t, column, where) =>
      Pair("SELECT COALESCE(SUM(", column) + Pair("), 0) AS v FROM ", t) + WhereTokens(where)
    case LeftJoin(projection, l, r, on, where) =>
      if projection == [] then OuterTokens([Word("SELECT COUNT(*) AS v FROM ")], l, r, on, where)
      else OuterTokens(SampleHead(projection), l, r, on, where) + [Word(" LIMIT 3")]
    case InnerJoin(l, r, on, where) =>
      JoinHead([Word("SELECT COUNT(*) AS v FROM ")], l, " AS L INNER JOIN ", r, " AS R ON ") + AndTokens(on) + WhereTokens(where)
  }

  // ----- rendering the pieces

  lemma RenderPair(d: Dialect, style: Style, word: string, id: Str)
    ensures Render(d, style, Pair(word, id)) == Ascii(word) + QuoteIdent(d, id)
  {
    assert [Word(word)] + [Name(id)] == Pair(word, id);
    RenderConcat(d, style, [Word(word)], [Name(id)]);
    RenderOne(d, style, Word(word));
    RenderOne(d, style, Name(id));
  }

  lemma RenderThen(d: Dialect, style: Style, ts: seq<Token>, t: Token)
    ensures Render(d, style, ts + [t]) == Render(d, style, ts) + TokenText(d, style, t)
  {
    RenderConcat(d, style, ts, [t]);
    RenderOne(d, style, t);
  }

  lemma RenderExists(d: Dialect, style: Style, t: Str, where: seq<Cond>)
    ensures Render(d, style, QueryTokens(SelectExists(t, where))) ==
            Ascii("SELECT EXISTS (SELECT 1 FROM ") + QuoteIdent(d, t) + Ascii(" WHERE ")
            + JoinText(CondTexts(d, style, where), Ascii(" AND ")) + Ascii(" LIMIT 1) AS v")
  {
    var a := Pair("SELECT EXISTS (SELECT 1 FROM ", t);
    RenderPair(d, style, "SELECT EXISTS (SELECT 1 FROM ", t);
    RenderThen(d, style, a, Word(" WHERE "));
    RenderAnd(d, style, where);
    RenderConcat(d, style, a + [Word(" WHERE ")], AndTokens(where));
    RenderThen(d, style, a + [Word(" WHERE ")] + AndTokens(where), Word(" LIMIT 1) AS v"));
  }

  function WhereText(conds: seq<Str>): Str {
    if conds == [] then [] else Ascii(" WHERE ") + JoinText(conds, Ascii(" AND "))
  }

  lemma RenderWhere(d: Dialect, style: Style, where: seq<Cond>)
    ensures Render(d, style, WhereTokens(where)) == WhereText(CondTexts(d, style, where))
  {
    if where != [] {
      RenderAnd(d, style, where);
      RenderOne(d, style, Word(" WHERE "));
      RenderConcat(d, style, [Word(" WHERE ")], AndTokens(where));
    }
  }

  lemma RenderCount(d: Dialect, style: Style, t: Str, where: seq<Cond>)
    ensures Render(d, style, QueryTokens(SelectCount(t, where))) ==
            Ascii("SELECT COUNT(*) AS v FROM ") + QuoteIdent(d, t) + WhereText(CondTexts(d, style, where))
  {
    RenderPair(d, style, "SELECT COUNT(*) AS v FROM ", t);
    RenderWhere(d, style, where);
    RenderConcat(d, style, Pair("SELECT COUNT(*) AS v FROM ", t), WhereTokens(where));
  }

  lemma RenderSum(d: Dialect, style: Style, t: Str, column: Str, where: seq<Cond>)
    ensures Render(d, style, QueryTokens(SelectSum(t, column, where))) ==
            Ascii("SELECT COALESCE(SUM(") + QuoteIdent(d, column) + (Ascii("), 0) AS v FROM ") + QuoteIdent(d, t))
            + WhereText(CondTexts(d, style, where))
  {
    var a, b := Pair("SELECT COALESCE(SUM(", column), Pair("), 0) AS v FROM ", t);
    RenderPair(d, style, "SELECT COALESCE(SUM(", column);
    RenderPair(d, style, "), 0) AS v FROM ", t);
    RenderConcat(d, style, a, b);
    RenderWhere(d, style, where);
    RenderConcat(d, style, a + b, WhereTokens(where));
  }

  lemma RenderJoinHead(d: Dialect, style: Style, first: seq<Token>, left: Str, link: string, right: Str, alias: string)
    ensures Render(d, style, JoinHead(first, left, link, right, alias)) ==
            Render(d, style, first) + QuoteIdent(d, left) + (Ascii(link) + QuoteIdent(d, right)) + Ascii(alias)
  {
    RenderThen(d, style, first, Name(left));
    RenderPair(d, style, link, right);
    RenderConcat(d, style, first + [Name(left)], Pair(link, right));
    RenderThen(d, style, first + [Name(left)] + Pair(link, right), Word(alias));
  }

  function LeftJoinText(d: Dialect, first: Str, l: Str, r: Str, condsOn: seq<Str>, whereParts: seq<Str>): Str {
    first + QuoteIdent(d, l) + (Ascii(" AS A LEFT JOIN ") + QuoteIdent(d, r)) + Ascii(" AS L ON ")
    + JoinText(condsOn, Ascii(" AND ")) + Ascii(" WHERE ") + JoinText(whereParts, Ascii(" AND "))
  }

  lemma RenderLeftJoin(d: Dialect, style: Style, first: seq<Token>, l: Str, r: Str, on: seq<Cond>, where: seq<Cond>)
    ensures Render(d, style, OuterTokens(first, l, r, on, where)) ==
            LeftJoinText(d, Render(d, style, first), l, r, CondTexts(d, style, on), CondTexts(d, style, where))
  {
    var a := JoinHead(first, l, " AS A LEFT JOIN ", r, " AS L ON ");
    RenderJoinHead(d, style, first, l, " AS A LEFT JOIN ", r, " AS L ON ");
    RenderAnd(d, style, on);
    RenderAnd(d, style, where);
    RenderConcat(d, style, a, AndTokens(on));
    RenderThen(d, style, a + AndTokens(on), Word(" WHERE "));
    RenderConcat(d, style, a + AndTokens(on) + [Word(" WHERE ")], AndTokens(where));
  }

  function ListText(d: Dialect, prefix: Str, columns: seq<Str>): (r: seq<Str>)
    ensures |r| == |columns|
  {
    seq(|columns|, i requires 0 <= i < |columns| => prefix + QuoteIdent(d, columns[i]))
  }

  lemma RenderList(d: Dialect, style: Style, source: Source, columns: seq<Str>)
    ensures Render(d, style, ListTokens(source, columns)) ==
            JoinText(ListText(d, Render(d, style, SourceTokens(source)), columns), Ascii(", "))
  {
    var parts := ColumnParts(source, columns);
    RenderJoin(d, style, parts, ", ");
    forall i | 0 <= i < |columns| ensures Render(d, style, parts[i]) == Render(d, style, SourceTokens(source)) + QuoteIdent(d, columns[i]) {
      RenderThen(d, style, SourceTokens(source), Name(columns[i]));
    }
    assert Rendered(d, style, parts) == ListText(d, Render(d, style, SourceTokens(source)), columns);
  }

  lemma RenderSampleHead(d: Dialect, style: Style, projection: seq<Str>)
    ensures Render(d, style, SampleHead(projection)) ==
            Ascii("SELECT ") + JoinText(ListText(d, Ascii("A."), projection), Ascii(", ")) + Ascii(" FROM ")
  {
    RenderOne(d, style, Word("SELECT "));
    RenderOne(d, style, Word("A."));
    RenderList(d, style, A, projection);
    RenderConcat(d, style, [Word("SELECT ")], ListTokens(A, projection));
    RenderThen(d, style, [Word("SELECT ")] + ListTokens(A, projection), Word(" FROM "));
  }

  lemma RenderInnerJoin(d: Dialect, style: Style, l: Str, r: Str, on: seq<Cond>, where: seq<Cond>)
    ensures Render(d, style, QueryTokens(InnerJoin(l, r, on, where))) ==
            Ascii("SELECT COUNT(*) AS v FROM ") + QuoteIdent(d, l) + (Ascii(" AS L INNER JOIN ") + QuoteIdent(d, r)) + Ascii(" AS R ON ")
            + JoinText(CondTexts(d, style, on), Ascii(" AND ")) + WhereText(CondTexts(d, style, where))
  {
    var first := [Word("SELECT COUNT(*) AS v FROM ")];
    var a := JoinHead(first, l, " AS L INNER JOIN ", r, " AS R ON ");
    RenderOne(d, style, first[0]);
    RenderJoinHead(d, style, first, l, " AS L INNER JOIN ", r, " AS R ON ");
    RenderAnd(d, style, on);
    RenderWhere(d, style, where);
    RenderConcat(d, style, a, AndTokens(on));
    RenderConcat(d, style, a + AndTokens(on), WhereTokens(where));
  }

  // ----- the builders

  lemma RenderColEq(d: Dialect, style: Style, a: Col, b: Col)
    ensures Render(d, style, CondTokens(ColEq(a, b))) ==
            Render(d, style, SourceTokens(a.source)) + QuoteIdent(d, a.name) + Ascii(" = ")
            + (Render(d, style, SourceTokens(b.source)) + QuoteIdent(d, b.name))
  {
    RenderThen(d, style, SourceTokens(a.source), Name(a.name));
    RenderThen(d, style, SourceTokens(b.source), Name(b.name));
    RenderThen(d, style, ColTokens(a), Word(" = "));
    RenderConcat(d, style, ColTokens(a) + [Word(" = ")], ColTokens(b));
  }

  lemma RenderIsNull(d: Dialect, style: Style, a: Col)
    ensures Render(d, style, CondTokens(IsNull(a))) ==
            Render(d, style, SourceTokens(a.source)) + QuoteIdent(d, a.name) + Ascii(" IS NULL")
  {
    RenderThen(d, style, SourceTokens(a.source), Name(a.name));
    RenderThen(d, style, ColTokens(a), Word(" IS NULL"));
  }

  lemma RenderAliases(d: Dialect, style: Style)
    ensures Render(d, style, SourceTokens(A)) == Ascii("A.")
    ensures Render(d, style, SourceTokens(L)) == Ascii("L.")
    ensures Render(d, style, SourceTokens(R)) == Ascii("R.")
  {
    RenderOne(d, style, Word("A."));
    RenderOne(d, style, Word("L."));
    RenderOne(d, style, Word("R."));
  }

  lemma RenderTable(d: Dialect, style: Style, t: Str)
    ensures Render(d, style, SourceTokens(Table([t]))) == QuoteIdent(d, t) + Ascii(".")
  {
    RenderOne(d, style, Name(t));
    RenderThen(d, style, [Name(t)], Word("."));
  }

  lemma ConsTexts(d: Dialect, style: Style, cs: seq<Cond>)
    requires cs != []
    ensures CondTexts(d, style, cs) == [Render(d, style, CondTokens(cs[0]))] + CondTexts(d, style, cs[1..])
  {
  }

  function LinkText(d: Dialect, left: string, a: Str, right: string, b: Str): Str {
    Ascii(left) + QuoteIdent(d, a) + Ascii(" = ") + (Ascii(right) + QuoteIdent(d, b))
  }

  lemma OnTexts(d: Dialect, style: Style, c: Check)
    requires c.AntiJoin?
    ensures CondTexts(d, style, AntiJoinQuery(c, []).on) ==
            [LinkText(d, "A.", c.anchorColumn, "L.", c.lookupColumn)] + CondTexts(d, style, ParamConds(L, c.filterLookup, 1))
  {
    var on := AntiJoinQuery(c, []).on;
    RenderAliases(d, style);
    RenderColEq(d, style, Col(A, c.anchorColumn), Col(L, c.lookupColumn));
    ConsTexts(d, style, on);
    assert on[1..] == ParamConds(L, c.filterLookup, 1);
  }

  lemma WhereTexts(d: Dialect, style: Style, c: Check)
    requires c.AntiJoin?
    ensures CondTexts(d, style, AntiJoinQuery(c, []).where) ==
            [Ascii("L.") + QuoteIdent(d, c.presence) + Ascii(" IS NULL")]
            + CondTexts(d, style, ParamConds(A, c.filterAnchor, 1 + |c.filterLookup|))
  {
    var where := AntiJoinQuery(c, []).where;
    RenderAliases(d, style);
    RenderIsNull(d, style, Col(L, c.presence));
    ConsTexts(d, style, where);
    assert where[1..] == ParamConds(A, c.filterAnchor, 1 + |c.filterLookup|);
  }

  /** The ON and WHERE conditions shared by the anti-join count and its sample. */
  method AntiJoinConditions(d: Dialect, c: Check) returns (condsOn: seq<Str>, whereParts: seq<Str>, values: seq<Str>)
    requires c.AntiJoin?
    ensures condsOn == CondTexts(d, RelationalStyle(d), AntiJoinQuery(c, []).on)
    ensures whereParts == CondTexts(d, RelationalStyle(d), AntiJoinQuery(c, []).where)
    ensures values == Values(c)
  {
    var style := RelationalStyle(d);
    var l, a := Ascii("L."), Ascii("A.");
    RenderAliases(d, style);
    var pn := 1;
    condsOn := [LinkText(d, "A.", c.anchorColumn, "L.", c.lookupColumn)];
    condsOn, values, pn := PushEqualities(d, style, L, l, c.filterLookup, condsOn, [], pn);
    assert condsOn == CondTexts(d, style, AntiJoinQuery(c, []).on) by { OnTexts(d, style, c); }
    assert values == EqValues(c.filterLookup);
    whereParts := [Ascii("L.") + QuoteIdent(d, c.presence) + Ascii(" IS NULL")];
    whereParts, values, pn := PushEqualities(d, style, A, a, c.filterAnchor, whereParts, values, pn);
    assert whereParts == CondTexts(d, style, AntiJoinQuery(c, []).where) by { WhereTexts(d, style, c); }
  }

  function SideText(d: Dialect, style: Style, w: SideEq, n: nat): Str {
    Ascii(if w.left then "L." else "R.") + QuoteIdent(d, w.column) + (Ascii(" = ") + ParamText(style, n))
  }

  lemma SideTextMeans(d: Dialect, style: Style, eqs: seq<SideEq>, i: nat)
    requires i < |eqs|
    ensures CondTexts(d, style, SideConds(eqs, 1))[i] == SideText(d, style, eqs[i], 1 + i)
  {
    RenderAliases(d, style);
    RenderParamEq(d, style, if eqs[i].left then L else R, eqs[i].column, 1 + i);
  }

  lemma SideStep(d: Dialect, style: Style, eqs: seq<SideEq>, i: nat)
    requires i < |eqs|
    ensures var all := CondTexts(d, style, SideConds(eqs, 1)); all[..i + 1] == all[..i] + [SideText(d, style, eqs[i], 1 + i)]
    ensures SideValues(eqs)[..i + 1] == SideValues(eqs)[..i] + [eqs[i].value]
  {
    SideTextMeans(d, style, eqs, i);
    TakeOneMore(CondTexts(d, style, SideConds(eqs, 1)), i);
    TakeOneMore(SideValues(eqs), i);
  }

  lemma TakeOneMore<T>(s: seq<T>, i: nat)
    requires i < |s|
    ensures s[..i + 1] == s[..i] + [s[i]]
  {
  }

  method JoinConditions(d: Dialect, eqs: seq<SideEq>) returns (conds: seq<Str>, values: seq<Str>)
    ensures conds == CondTexts(d, RelationalStyle(d), SideConds(eqs, 1)) && values == SideValues(eqs)
  {
    var style := RelationalStyle(d);
    ghost var all := CondTexts(d, style, SideConds(eqs, 1));
    ghost var vals := SideValues(eqs);
    conds, values := [], [];
    var pn := 1;
    for i := 0 to |eqs|
      invariant conds == all[..i] && values == vals[..i] && pn == 1 + i
    {
      SideStep(d, style, eqs, i);
      conds, values, pn := conds + [SideText(d, style, eqs[i], pn)], values + [eqs[i].value], pn + 1;
    }
  }

  method BuildRelatedExists(d: Dialect, c: Check) returns (text: Str, values: seq<Str>)
    requires c.RelatedExists?
    ensures text == Render(d, RelationalStyle(d), QueryTokens(Compile(c))) && values == Values(c)
  {
    var style, t := RelationalStyle(d), QuoteIdent(d, c.childTable);
    RenderTable(d, style, c.childTable);
    var conds, vs, _ := PushEqualities(d, style, Table([c.childTable]), t + Ascii("."), c.matchEq, [], [], 1);
    assert conds == CondTexts(d, style, Compile(c).where) && vs == Values(c);
    RenderExists(d, style, c.childTable, Compile(c).where);
    text := Ascii("SELECT EXISTS (SELECT 1 FROM ") + t + Ascii(" WHERE ") + JoinText(conds, Ascii(" AND ")) + Ascii(" LIMIT 1) AS v");
    values := vs;
  }

  method BuildAntiJoin(d: Dialect, c: Check) returns (text: Str, values: seq<Str>)
    requires c.AntiJoin?
    ensures text == Render(d, RelationalStyle(d), QueryTokens(Compile(c))) && values == Values(c)
  {
    var condsOn, whereParts, vs := AntiJoinConditions(d, c);
    ghost var style, first, q := RelationalStyle(d), [Word("SELECT COUNT(*) AS v FROM ")], AntiJoinQuery(c, []);
    RenderOne(d, style, first[0]);
    RenderLeftJoin(d, style, first, c.anchorTable, c.lookupTable, q.on, q.where);
    text := LeftJoinText(d, Ascii("SELECT COUNT(*) AS v FROM "), c.anchorTable, c.lookupTable, condsOn, whereParts);
    values := vs;
  }

  method BuildAggregate(d: Dialect, c: Check) returns (text: Str, values: seq<Str>)
    requires c.Aggregate?
    ensures text == Render(d, RelationalStyle(d), QueryTokens(Compile(c))) && values == Values(c)
  {
    var style, tbl := RelationalStyle(d), QuoteIdent(d, c.table);
    RenderTable(d, style, c.table);
    var conds, vs, _ := PushEqualities(d, style, Table([c.table]), tbl + Ascii("."), c.aggregateEq, [], [], 1);
    assert conds == CondTexts(d, style, Compile(c).where) && vs == Values(c);
    var selectPart: Str;
    if c.fn.CountStar? {
      RenderCount(d, style, c.table, Compile(c).where);
      selectPart := Ascii("SELECT COUNT(*) AS v FROM ") + tbl;
    } else {
      RenderSum(d, style, c.table, c.fn.column, Compile(c).where);
      selectPart := Ascii("SELECT COALESCE(SUM(") + QuoteIdent(d, c.fn.column) + (Ascii("), 0) AS v FROM ") + tbl);
    }
    text := selectPart + WhereText(conds);
    values := vs;
  }

  method BuildJoinCount(d: Dialect, c: Check) returns (text: Str, values: seq<Str>)
    requires c.JoinCount?
    ensures text == Render(d, RelationalStyle(d), QueryTokens(Compile(c))) && values == Values(c)
  {
    var style := RelationalStyle(d);
    var conds, vs := JoinConditions(d, c.whereEq);
    ghost var q := Compile(c);
    RenderInnerJoin(d, style, c.leftTable, c.rightTable, q.on, q.where);
    var link := LinkText(d, "L.", c.leftColumn, "R.", c.rightColumn);
    assert CondTexts(d, style, q.on) == [link] by {
      RenderAliases(d, style);
      RenderColEq(d, style, Col(L, c.leftColumn), Col(R, c.rightColumn));
    }
    text := Ascii("SELECT COUNT(*) AS v FROM ") + QuoteIdent(d, c.leftTable) + (Ascii(" AS L INNER JOIN ") + QuoteIdent(d, c.rightTable))
            + Ascii(" AS R ON ") + link + WhereText(conds);
    values := vs;
  }

  /** The text asks any database what the check asks, and renders the compiled query with the values its placeholders bind. */
  method BuildRelationalScalarSql(d: Dialect, c: Check) returns (text: Str, values: seq<Str>)
    ensures forall db :: Ask(d, RelationalStyle(d), text, values, db) == Expected(db, c)
    ensures text == Render(d, RelationalStyle(d), QueryTokens(Compile(c))) && values == Values(c)
  {
    forall db ensures Ask(d, RelationalStyle(d), Render(d, RelationalStyle(d), QueryTokens(Compile(c))), Values(c), db) == Expected(db, c) {
      TextAnswers(d, c, db);
    }
    match c {
      case RelatedExists(_, _) => text, values := BuildRelatedExists(d, c);
      case AntiJoin(_, _, _, _, _, _, _) => text, values := BuildAntiJoin(d, c);
      case Aggregate(_, _, _, _, _) => text, values := BuildAggregate(d, c);
      case JoinCount(_, _, _, _, _, _, _) => text, values := BuildJoinCount(d, c);
    }
  }

  /** The columns a failing anti-join shows: those that identify the anchor row, each once, in code-unit order. */
  ghost predicate IsProjection(projection: seq<Str>, c: Check)
    requires c.AntiJoin?
  {
    Ascending(projection) && Elements(projection) == {c.anchorColumn} + set e | e in c.filterAnchor :: e.column
  }

  method Projection(c: Check) returns (projection: seq<Str>)
    requires c.AntiJoin?
    ensures IsProjection(projection, c) && projection != []
  {
    var cols := {c.anchorColumn};
    for i := 0 to |c.filterAnchor|
      invariant cols == {c.anchorColumn} + set e | e in c.filterAnchor[..i] :: e.column
    {
      assert c.filterAnchor[..i + 1] == c.filterAnchor[..i] + [c.filterAnchor[i]];
      cols := cols + {c.filterAnchor[i].column};
    }
    assert c.filterAnchor[..|c.filterAnchor|] == c.filterAnchor;
    projection := SortedKeys(cols);
    NoElements(projection);
  }

  method BuildAntiJoinSampleSql(d: Dialect, c: Check) returns (text: Str, values: seq<Str>, ghost projection: seq<Str>)
    requires c.AntiJoin?
    ensures IsProjection(projection, c) && projection != []
    ensures ReadSql(d, RelationalStyle(d), text) == LogicalSteps.Some(Plain(SampleSelect(c, projection)))
    ensures text == Render(d, RelationalStyle(d), QueryTokens(AntiJoinQuery(c, projection))) && values == Values(c)
  {
    var style := RelationalStyle(d);
    var condsOn, whereParts, vs := AntiJoinConditions(d, c);
    var proj := Projection(c);
    projection := proj;
    var selectList := JoinText(ListText(d, Ascii("A."), proj), Ascii(", "));
    var q := AntiJoinQuery(c, proj);
    RenderSampleHead(d, style, proj);
    RenderLeftJoin(d, style, SampleHead(proj), c.anchorTable, c.lookupTable, q.on, q.where);
    RenderThen(d, style, OuterTokens(SampleHead(proj), q.left, q.right, q.on, q.where), Word(" LIMIT 3"));
    text := LeftJoinText(d, Ascii("SELECT ") + selectList + Ascii(" FROM "), c.anchorTable, c.lookupTable, condsOn, whereParts)
            + Ascii(" LIMIT 3");
    values := vs;
    SampleRead(d, c, proj);
  }

  // ----- reading the text back

  lemma PairSpaced(word: string, id: Str)
    requires SafeWord(word)
    ensures Spaced(Pair(word, id)) && Params(Pair(word, id)) == []
  {
    assert Pair(word, id)[1..] == [Name(id)];
    OneParam(Name(id));
  }

  lemma AppendWord(ts: seq<Token>, word: string)
    requires Spaced(ts) && Lead(word)
    ensures Spaced(ts + [Word(word)]) && Params(ts + [Word(word)]) == Params(ts)
  {
    WordSpaced(word);
    SpacedConcat(ts, [Word(word)]);
    ParamsConcat(ts, [Word(word)]);
    OneParam(Word(word));
  }

  /** ts ends in a word, so anything may follow. */
  lemma AppendAnd(ts: seq<Token>, word: string, cs: seq<Cond>)
    requires Spaced(ts) && Gap(word)
    ensures var r := ts + [Word(word)] + AndTokens(cs); Spaced(r) && Params(r) == Params(ts) + ParamNos(cs)
  {
    AppendWord(ts, word);
    AndSpaced(cs);
    AndParams(cs);
    SpacedConcat(ts + [Word(word)], AndTokens(cs));
    ParamsConcat(ts + [Word(word)], AndTokens(cs));
  }

  lemma AppendWhere(ts: seq<Token>, cs: seq<Cond>)
    requires Spaced(ts)
    ensures Spaced(ts + WhereTokens(cs)) && Params(ts + WhereTokens(cs)) == Params(ts) + ParamNos(cs)
  {
    WhereSpaced(cs);
    WhereParams(cs);
    SpacedConcat(ts, WhereTokens(cs));
    ParamsConcat(ts, WhereTokens(cs));
  }

  lemma AppendPair(ts: seq<Token>, word: string, id: Str)
    requires Spaced(ts) && Lead(word)
    ensures Spaced(ts + Pair(word, id)) && Params(ts + Pair(word, id)) == Params(ts)
  {
    PairSpaced(word, id);
    SpacedConcat(ts, Pair(word, id));
    ParamsConcat(ts, Pair(word, id));
  }

  lemma AppendName(ts: seq<Token>, id: Str)
    requires Spaced(ts) && ts != [] && !OpenEnd(ts)
    ensures Spaced(ts + [Name(id)]) && Params(ts + [Name(id)]) == Params(ts)
  {
    SpacedConcat(ts, [Name(id)]);
    ParamsConcat(ts, [Name(id)]);
    OneParam(Name(id));
  }

  lemma JoinHeadReads(first: seq<Token>, left: Str, link: string, right: Str, alias: string, on: seq<Cond>)
    requires Spaced(first) && first != [] && !OpenEnd(first) && Params(first) == [] && Lead(link) && Gap(alias)
    ensures var r := JoinHead(first, left, link, right, alias) + AndTokens(on); Spaced(r) && Params(r) == ParamNos(on)
  {
    AppendName(first, left);
    AppendPair(first + [Name(left)], link, right);
    AppendAnd(first + [Name(left)] + Pair(link, right), alias, on);
    assert [] + ParamNos(on) == ParamNos(on);
  }

  lemma SampleHeadReads(projection: seq<Str>)
    ensures var r := SampleHead(projection); Spaced(r) && r != [] && !OpenEnd(r) && Params(r) == []
  {
    assert SafeWord("SELECT ") && !EndsInWord("SELECT ") && Lead(" FROM ");
    WordSpaced("SELECT ");
    OneParam(Word("SELECT "));
    ListSpaced(A, projection);
    ListParams(A, projection);
    SpacedConcat([Word("SELECT ")], ListTokens(A, projection));
    ParamsConcat([Word("SELECT ")], ListTokens(A, projection));
    AppendWord([Word("SELECT ")] + ListTokens(A, projection), " FROM ");
  }

  /** All conditions of a query in reading order. */
  function Conditions(q: Query): seq<Cond> {
    if q.LeftJoin? || q.InnerJoin? then q.on + q.where else q.where
  }

  lemma LeftJoinReads(first: seq<Token>, l: Str, link: string, r: Str, alias: string, on: seq<Cond>, word: string, where: seq<Cond>)
    requires Spaced(first) && first != [] && !OpenEnd(first) && Params(first) == []
    requires Lead(link) && Gap(alias) && Gap(word)
    ensures var ts := JoinHead(first, l, link, r, alias) + AndTokens(on) + [Word(word)] + AndTokens(where);
            Spaced(ts) && Params(ts) == ParamNos(on + where)
  {
    JoinHeadReads(first, l, link, r, alias, on);
    AppendAnd(JoinHead(first, l, link, r, alias) + AndTokens(on), word, where);
    ParamNosConcat(on, where);
  }

  lemma InnerJoinReads(first: string, l: Str, link: string, r: Str, alias: string, on: seq<Cond>, where: seq<Cond>)
    requires SafeWord(first) && Lead(link) && Gap(alias)
    ensures var ts := JoinHead([Word(first)], l, link, r, alias) + AndTokens(on) + WhereTokens(where);
            Spaced(ts) && Params(ts) == ParamNos(on + where)
  {
    OneParam(Word(first));
    WordSpaced(first);
    JoinHeadReads([Word(first)], l, link, r, alias, on);
    AppendWhere(JoinHead([Word(first)], l, link, r, alias) + AndTokens(on), where);
    ParamNosConcat(on, where);
  }

  lemma SumReads(first: string, column: Str, link: string, t: Str, where: seq<Cond>)
    requires SafeWord(first) && Lead(link)
    ensures var ts := Pair(first, column) + Pair(link, t) + WhereTokens(where); Spaced(ts) && Params(ts) == ParamNos(where)
  {
    PairSpaced(first, column);
    AppendPair(Pair(first, column), link, t);
    AppendWhere(Pair(first, column) + Pair(link, t), where);
    assert [] + ParamNos(where) == ParamNos(where);
  }

  lemma CountWords()
    ensures SafeWord("SELECT COUNT(*) AS v FROM ")
  {
  }

  lemma SumWords()
    ensures SafeWord("SELECT COALESCE(SUM(") && Lead("), 0) AS v FROM ")
  {
  }

  lemma LeftWords()
    ensures Lead(" AS A LEFT JOIN ") && Gap(" AS L ON ") && Gap(" WHERE ")
  {
  }

  lemma InnerWords()
    ensures Lead(" AS L INNER JOIN ") && Gap(" AS R ON ")
  {
  }

  lemma ExistsReads(first: string, t: Str, word: string, where: seq<Cond>, tail: string)
    requires SafeWord(first) && Gap(word) && Lead(tail)
    ensures var ts := Pair(first, t) + [Word(word)] + AndTokens(where) + [Word(tail)]; Spaced(ts) && Params(ts) == ParamNos(where)
  {
    PairSpaced(first, t);
    AppendAnd(Pair(first, t), word, where);
    AppendWord(Pair(first, t) + [Word(word)] + AndTokens(where), tail);
    assert [] + ParamNos(where) == ParamNos(where);
  }

  lemma ExistsWords()
    ensures SafeWord("SELECT EXISTS (SELECT 1 FROM ") && Lead(" LIMIT 1) AS v")
  {
  }

  lemma CountReads(t: Str, where: seq<Cond>)
    ensures var ts := QueryTokens(SelectCount(t, where)); Spaced(ts) && Params(ts) == ParamNos(where)
  {
    CountWords();
    PairSpaced("SELECT COUNT(*) AS v FROM ", t);
    AppendWhere(Pair("SELECT COUNT(*) AS v FROM ", t), where);
    assert [] + ParamNos(where) == ParamNos(where);
  }

  lemma OuterReads(first: seq<Token>, l: Str, r: Str, on: seq<Cond>, where: seq<Cond>)
    requires Spaced(first) && first != [] && !OpenEnd(first) && Params(first) == []
    ensures var ts := OuterTokens(first, l, r, on, where); Spaced(ts) && Params(ts) == ParamNos(on + where)
  {
    LeftWords();
    LeftJoinReads(first, l, " AS A LEFT JOIN ", r, " AS L ON ", on, " WHERE ", where);
  }

  lemma CountOuterReads(l: Str, r: Str, on: seq<Cond>, where: seq<Cond>)
    ensures var ts := OuterTokens([Word("SELECT COUNT(*) AS v FROM ")], l, r, on, where);
            Spaced(ts) && Params(ts) == ParamNos(on + where)
  {
    CountWords();
    var first := "SELECT COUNT(*) AS v FROM ";
    WordSpaced(first);
    OneParam(Word(first));
    OuterReads([Word(first)], l, r, on, where);
  }

  lemma LimitWords()
    ensures Lead(" LIMIT 3")
  {
  }

  lemma LimitedReads(head: seq<Token>, l: Str, r: Str, on: seq<Cond>, where: seq<Cond>, limit: string)
    requires Spaced(head) && head != [] && !OpenEnd(head) && Params(head) == [] && Lead(limit)
    ensures var ts := OuterTokens(head, l, r, on, where) + [Word(limit)]; Spaced(ts) && Params(ts) == ParamNos(on + where)
  {
    OuterReads(head, l, r, on, where);
    AppendWord(OuterTokens(head, l, r, on, where), limit);
  }

  lemma SampleReads(projection: seq<Str>, l: Str, r: Str, on: seq<Cond>, where: seq<Cond>)
    ensures var ts := OuterTokens(SampleHead(projection), l, r, on, where) + [Word(" LIMIT 3")];
            Spaced(ts) && Params(ts) == ParamNos(on + where)
  {
    SampleHeadReads(projection);
    LimitWords();
    LimitedReads(SampleHead(projection), l, r, on, where, " LIMIT 3");
  }

  lemma QueryReads(q: Query)
    ensures Spaced(QueryTokens(q)) && Params(QueryTokens(q)) == ParamNos(Conditions(q))
  {
    match q
    case SelectExists(t, where) =>
      ExistsWords();
      LeftWords();
      ExistsReads("SELECT EXISTS (SELECT 1 FROM ", t, " WHERE ", where, " LIMIT 1) AS v");
    case SelectCount(t, where) => CountReads(t, where);
    case SelectSum(t, column, where) =>
      SumWords();
      SumReads("SELECT COALESCE(SUM(", column, "), 0) AS v FROM ", t, where);
    case LeftJoin(projection, l, r, on, where) =>
      if projection == [] { CountOuterReads(l, r, on, where); } else { SampleReads(projection, l, r, on, where); }
    case InnerJoin(l, r, on, where) =>
      CountWords();
      InnerWords();
      InnerJoinReads("SELECT COUNT(*) AS v FROM ", l, " AS L INNER JOIN ", r, " AS R ON ", on, where);
  }

  /** An equality of a check as it appears in the query: a column and the value it is compared with. */
  datatype Binding = Binding(col: Col, value: Str)

  function EqBindings(source: Source, eqs: seq<Eq>): (r: seq<Binding>)
    ensures |r| == |eqs|
  {
    seq(|eqs|, i requires 0 <= i < |eqs| => Binding(Col(source, eqs[i].column), eqs[i].value))
  }

  function SideBindings(eqs: seq<SideEq>): (r: seq<Binding>)
    ensures |r| == |eqs|
  {
    seq(|eqs|, i requires 0 <= i < |eqs| => Binding(Col(if eqs[i].left then L else R, eqs[i].column), eqs[i].value))
  }

  /** The equalities of a check in the order in which the query states them. */
  function Bindings(c: Check): seq<Binding> {
    match c
    case RelatedExists(t, m) => EqBindings(Table([t]), m)
    case AntiJoin(_, _, _, _, _, fa, fl) => EqBindings(L, fl) + EqBindings(A, fa)
    case Aggregate(t, _, w, _, _) => EqBindings(Table([t]), w)
    case JoinCount(_, _, _, _, w, _, _) => SideBindings(w)
  }

  function ParamConditions(cs: seq<Cond>): seq<Cond> { Filter((c: Cond) => c.ParamEq?, cs) }

  function Numbered(bs: seq<Binding>, first: nat): (r: seq<Cond>)
    ensures |r| == |bs|
  {
    seq(|bs|, i requires 0 <= i < |bs| => ParamEq(bs[i].col, first + i))
  }

  lemma {:induction false} AllParams(cs: seq<Cond>)
    requires forall i :: 0 <= i < |cs| ==> cs[i].ParamEq?
    ensures ParamConditions(cs) == cs
  {
    if cs != [] {
      AllParams(cs[1..]);
      assert cs == [cs[0]] + cs[1..];
    }
  }

  lemma SkipOther(c: Cond, cs: seq<Cond>)
    requires !c.ParamEq?
    ensures ParamConditions([c] + cs) == ParamConditions(cs)
  {
    assert ([c] + cs)[1..] == cs;
  }

  lemma {:induction false} ParamConditionsConcat(a: seq<Cond>, b: seq<Cond>)
    ensures ParamConditions(a + b) == ParamConditions(a) + ParamConditions(b)
  {
    if a == [] {
      assert a + b == b;
    } else {
      assert (a + b)[0] == a[0] && (a + b)[1..] == a[1..] + b;
      ParamConditionsConcat(a[1..], b);
    }
  }

  lemma SkipTwo(k: Cond, x: seq<Cond>, m: Cond, y: seq<Cond>)
    requires !k.ParamEq? && !m.ParamEq?
    requires (forall i :: 0 <= i < |x| ==> x[i].ParamEq?) && forall i :: 0 <= i < |y| ==> y[i].ParamEq?
    ensures ParamConditions(([k] + x) + ([m] + y)) == x + y
  {
    ParamConditionsConcat([k] + x, [m] + y);
    SkipOther(k, x);
    SkipOther(m, y);
    AllParams(x);
    AllParams(y);
  }

  lemma AntiJoinBinds(c: Check)
    requires c.AntiJoin?
    ensures ParamConditions(Conditions(Compile(c))) == Numbered(Bindings(c), 1)
  {
    var x, y := ParamConds(L, c.filterLookup, 1), ParamConds(A, c.filterAnchor, 1 + |c.filterLookup|);
    SkipTwo(AntiJoinQuery(c, []).on[0], x, AntiJoinQuery(c, []).where[0], y);
    assert x + y == Numbered(Bindings(c), 1);
  }

  lemma JoinCountBinds(c: Check)
    requires c.JoinCount?
    ensures ParamConditions(Conditions(Compile(c))) == Numbered(Bindings(c), 1)
  {
    var q := Compile(c);
    SkipOther(q.on[0], q.where);
    assert [q.on[0]] + q.where == q.on + q.where;
    AllParams(q.where);
    assert q.where == Numbered(Bindings(c), 1);
  }

  /** The parametrised conditions of the query are the equalities of the check, numbered from 1 in reading order. */
  lemma ConditionsBind(c: Check)
    ensures ParamConditions(Conditions(Compile(c))) == Numbered(Bindings(c), 1)
    ensures |Bindings(c)| == |Values(c)| && forall i :: 0 <= i < |Values(c)| ==> Values(c)[i] == Bindings(c)[i].value
  {
    match c
    case RelatedExists(t, m) =>
      AllParams(Compile(c).where);
      assert Compile(c).where == Numbered(Bindings(c), 1);
    case AntiJoin(_, _, _, _, _, fa, fl) => AntiJoinBinds(c);
    case Aggregate(t, _, w, _, _) =>
      AllParams(Compile(c).where);
      assert Compile(c).where == Numbered(Bindings(c), 1);
    case JoinCount(_, _, _, _, w, _, _) => JoinCountBinds(c);
  }

  lemma {:induction false} NumbersOf(cs: seq<Cond>)
    ensures ParamNos(cs) == ParamNos(ParamConditions(cs))
  {
    if cs != [] {
      NumbersOf(cs[1..]);
      if cs[0].ParamEq? {
        assert ParamConditions(cs)[1..] == ParamConditions(cs[1..]);
      }
    }
  }

  lemma {:induction false} NumberedNos(bs: seq<Binding>, first: nat)
    ensures ParamNos(Numbered(bs, first)) == From(first, |bs|)
    decreases |bs|
  {
    if bs != [] {
      NumberedNos(bs[1..], first + 1);
      assert Numbered(bs, first)[1..] == Numbered(bs[1..], first + 1);
    }
  }

  /**
   * A driver that reads the generated text finds exactly the query: every identifier unescaped to the original name,
   * and in reading order the placeholders 1 to n, of which number i binds values[i - 1].
   */
  lemma QueryTextReadsBack(d: Dialect, c: Check)
    ensures Lex(d, RelationalStyle(d), Render(d, RelationalStyle(d), QueryTokens(Compile(c))), 1) ==
            Lexed(LexemesOf(QueryTokens(Compile(c))))
    ensures Params(QueryTokens(Compile(c))) == From(1, |Values(c)|)
  {
    QueryReads(Compile(c));
    ConditionsBind(c);
    NumbersOf(Conditions(Compile(c)));
    NumberedNos(Bindings(c), 1);
    LexRendered(d, RelationalStyle(d), QueryTokens(Compile(c)), 1);
  }

  /** The sample query reads back likewise and shares its binding list with the count query. */
  lemma SampleTextReadsBack(d: Dialect, c: Check, projection: seq<Str>)
    requires c.AntiJoin?
    ensures var ts := QueryTokens(AntiJoinQuery(c, projection));
            && Lex(d, RelationalStyle(d), Render(d, RelationalStyle(d), ts), 1) == Lexed(LexemesOf(ts))
            && Params(ts) == From(1, |Values(c)|)
    ensures Conditions(AntiJoinQuery(c, projection)) == Conditions(Compile(c))
  {
    QueryReads(AntiJoinQuery(c, projection));
    ConditionsBind(c);
    NumbersOf(Conditions(Compile(c)));
    NumberedNos(Bindings(c), 1);
    LexRendered(d, RelationalStyle(d), QueryTokens(AntiJoinQuery(c, projection)), 1);
  }

  // ----- reading the statement back from the grammar

  lemma SymsThenName(ts: seq<Token>, id: Str)
    ensures SymsOf(ts + [Name(id)]) == SymsOf(ts) + [Ident(id)]
  {
    SymsConcat(ts, [Name(id)]);
    SymsOne(Name(id));
  }

  lemma SymsThenWord(ts: seq<Token>, w: string, syms: Syms)
    requires Reads(w, syms)
    ensures SymsOf(ts + [Word(w)]) == SymsOf(ts) + syms
  {
    SymsConcat(ts, [Word(w)]);
    SymsOne(Word(w));
    ReadsToken(w, syms);
  }

  lemma SymsPair(w: string, syms: Syms, id: Str)
    requires Reads(w, syms)
    ensures SymsOf(Pair(w, id)) == syms + [Ident(id)]
  {
    TwoTokens(Word(w), Name(id));
    ReadsToken(w, syms);
  }

  lemma OneTable(t: Str)
    ensures SymsOf(TableTokens([t])) == [Ident(t)]
  {
    SymsOne(Name(t));
  }

  lemma NoLimit(s: Syms)
    ensures s + (LimitSyms("") + []) == s
  {
  }

  lemma CountSyms(t: Str, where: seq<Cond>)
    ensures SymsOf(QueryTokens(SelectCount(t, where))) ==
            HeadSyms([Key("COUNT"), OPEN, STAR, CLOSE] + AS_V) + (SymsOf(TableTokens([t])) + WhereSyms(where))
  {
    SelectCountWord();
    SymsPair("SELECT COUNT(*) AS v FROM ", HeadSyms([Key("COUNT"), OPEN, STAR, CLOSE] + AS_V), t);
    WhereSymsOf(where);
    SymsConcat(Pair("SELECT COUNT(*) AS v FROM ", t), WhereTokens(where));
    OneTable(t);
    Nest(HeadSyms([Key("COUNT"), OPEN, STAR, CLOSE] + AS_V), [Ident(t)], WhereSyms(where));
  }

  lemma CountStatement(t: Str, where: seq<Cond>)
    requires GoodConds(where)
    ensures ReadStatement(SymsOf(QueryTokens(SelectCount(t, where)))) ==
            LogicalSteps.Some(Plain(Select(CountAll, [t], LogicalSteps.None, NoJoin, where, LogicalSteps.None)))
  {
    var syms := [Key("COUNT"), OPEN, STAR, CLOSE] + AS_V;
    CountItems();
    CountSyms(t, where);
    NoLimit(WhereSyms(where));
    PlainRead(CountAll, syms, [t], where, "", []);
    CountIsPlain(syms);
    PlainStatement(syms, SymsOf(TableTokens([t])) + WhereSyms(where),
                   Select(CountAll, [t], LogicalSteps.None, NoJoin, where, LogicalSteps.None));
  }

  lemma CountIsPlain(syms: Syms)
    requires syms == [Key("COUNT"), OPEN, STAR, CLOSE] + AS_V
    ensures syms != [] && syms[0] != Key("EXISTS")
  {
    assert |"COUNT"| != |"EXISTS"|;
  }

  function SumSyms(column: Str): Syms {
    [Key("COALESCE"), OPEN, Key("SUM"), OPEN, Ident(column), CLOSE, COMMA, Key("0"), CLOSE] + AS_V
  }

  lemma SumNests(column: Str, t: Str, tail: Syms)
    ensures [Key("SELECT"), Key("COALESCE"), OPEN, Key("SUM"), OPEN] + [Ident(column)]
            + ([CLOSE, COMMA, Key("0"), CLOSE] + (AS_V + [Key("FROM")]) + [Ident(t)]) + tail
            == HeadSyms(SumSyms(column)) + ([Ident(t)] + tail)
  {
  }

  lemma SumQuerySyms(t: Str, column: Str, where: seq<Cond>)
    ensures SymsOf(QueryTokens(SelectSum(t, column, where))) ==
            HeadSyms(SumSyms(column)) + (SymsOf(TableTokens([t])) + WhereSyms(where))
  {
    var x, y := [Key("SELECT"), Key("COALESCE"), OPEN, Key("SUM"), OPEN], [CLOSE, COMMA, Key("0"), CLOSE] + (AS_V + [Key("FROM")]);
    SumOpenWord();
    SumCloseWord();
    SymsPair("SELECT COALESCE(SUM(", x, column);
    SymsPair("), 0) AS v FROM ", y, t);
    SymsConcat(Pair("SELECT COALESCE(SUM(", column), Pair("), 0) AS v FROM ", t));
    WhereSymsOf(where);
    SymsConcat(Pair("SELECT COALESCE(SUM(", column) + Pair("), 0) AS v FROM ", t), WhereTokens(where));
    OneTable(t);
    SumNests(column, t, WhereSyms(where));
  }

  lemma SumStatement(t: Str, column: Str, where: seq<Cond>)
    requires GoodConds(where)
    ensures ReadStatement(SymsOf(QueryTokens(SelectSum(t, column, where)))) ==
            LogicalSteps.Some(Plain(Select(SumOrZero(column), [t], LogicalSteps.None, NoJoin, where, LogicalSteps.None)))
  {
    SumItems(column);
    SumQuerySyms(t, column, where);
    NoLimit(WhereSyms(where));
    PlainRead(SumOrZero(column), SumSyms(column), [t], where, "", []);
    assert SumSyms(column)[0] != Key("EXISTS") by { assert |"COALESCE"| != |"EXISTS"|; }
    PlainStatement(SumSyms(column), SymsOf(TableTokens([t])) + WhereSyms(where),
                   Select(SumOrZero(column), [t], LogicalSteps.None, NoJoin, where, LogicalSteps.None));
  }

  /** The symbols of SELECT EXISTS (SELECT 1 FROM t WHERE ... LIMIT 1) AS v after its opening parenthesis. */
  function InnerSyms(t: Str, conds: Syms): Syms {
    HeadSyms([Key("1")]) + (SymsOf(TableTokens([t])) + ([Key("WHERE")] + (conds + (LimitSyms("1") + ([CLOSE] + AS_V)))))
  }

  lemma ExistsNests(x: Syms, h: Syms, t: Syms, w: Syms, conds: Syms, l: Syms)
    ensures x + h + t + w + conds + l == x + (h + (t + (w + (conds + l))))
  {
  }

  lemma ExistsSyms(t: Str, where: seq<Cond>)
    ensures SymsOf(QueryTokens(SelectExists(t, where))) ==
            [Key("SELECT"), Key("EXISTS"), OPEN] + InnerSyms(t, SymsOf(AndTokens(where)))
  {
    var a := Pair("SELECT EXISTS (SELECT 1 FROM ", t);
    var x := [Key("SELECT"), Key("EXISTS"), OPEN];
    ExistsWord();
    SymsPair("SELECT EXISTS (SELECT 1 FROM ", x + HeadSyms([Key("1")]), t);
    WhereWord();
    SymsThenWord(a, " WHERE ", [Key("WHERE")]);
    SymsConcat(a + [Word(" WHERE ")], AndTokens(where));
    LimitOneWord();
    SymsThenWord(a + [Word(" WHERE ")] + AndTokens(where), " LIMIT 1) AS v", LimitSyms("1") + ([CLOSE] + AS_V));
    OneTable(t);
    ExistsNests(x, HeadSyms([Key("1")]), [Ident(t)], [Key("WHERE")], SymsOf(AndTokens(where)), LimitSyms("1") + ([CLOSE] + AS_V));
  }

  lemma OneIsNumber()
    ensures IsNumber("1") && LimitValue("1") == LogicalSteps.Some(1)
  {
    assert "1"[..0] == "";
  }

  lemma ExistsRead(t: Str, where: seq<Cond>)
    requires GoodConds(where) && where != []
    ensures ReadStatement(SymsOf(QueryTokens(SelectExists(t, where)))) ==
            LogicalSteps.Some(Existence(Select(One, [t], LogicalSteps.None, NoJoin, where, LogicalSteps.Some(1))))
  {
    OneItems();
    ExistsSyms(t, where);
    OneIsNumber();
    PlainRead(One, [Key("1")], [t], where, "1", [CLOSE] + AS_V);
    Nest([Key("WHERE")], SymsOf(AndTokens(where)), LimitSyms("1") + ([CLOSE] + AS_V));
    ExistsStatement(InnerSyms(t, SymsOf(AndTokens(where))),
                    Select(One, [t], LogicalSteps.None, NoJoin, where, LogicalSteps.Some(1)));
  }

  lemma NoCondition(items: Items, from: seq<Str>, more: Syms)
    requires more != [] && more[0] == Key("LIMIT")
    ensures ReadTail(items, from, LogicalSteps.None, [Key("WHERE")] + more).Failed?
  {
    var s := [Key("WHERE")] + more;
    assert s[1..] == more;
    NoJoinRead(s);
    assert |"LIMIT"| != |"A"| && |"LIMIT"| != |"L"| && |"LIMIT"| != |"R"|;
    assert ReadCol(more).Failed?;
  }

  /** EXISTS without conditions is no SQL. */
  lemma ExistsMalformed(t: Str)
    ensures ReadStatement(SymsOf(QueryTokens(SelectExists(t, [])))) == LogicalSteps.None
  {
    OneItems();
    ExistsSyms(t, []);
    var more := [] + (LimitSyms("1") + ([CLOSE] + AS_V));
    assert more[0] == Key("LIMIT");
    var s := [Key("WHERE")] + more;
    NoCondition(One, [t], more);
    NoJoinRead(s);
    HeadRead(One, [Key("1")], [t], s);
    assert ReadSelect(InnerSyms(t, [])).Failed?;
    assert ([Key("SELECT"), Key("EXISTS"), OPEN] + InnerSyms(t, []))[3..] == InnerSyms(t, []);
  }

  // ----- joins

  lemma JoinNests(h: Syms, l: Syms, a: Syms, r: Syms, b: Syms, on: Syms)
    ensures h + l + (a + r) + b + on == h + (l + (a + (r + (b + on))))
  {
  }

  lemma JoinHeadSyms(first: seq<Token>, head: Syms, l: Str, link: string, a: Syms, r: Str, alias: string, b: Syms, on: seq<Cond>)
    requires SymsOf(first) == head && Reads(link, a) && Reads(alias, b)
    ensures SymsOf(JoinHead(first, l, link, r, alias) + AndTokens(on)) ==
            head + (SymsOf(TableTokens([l])) + (a + ([Ident(r)] + (b + SymsOf(AndTokens(on))))))
  {
    SymsThenName(first, l);
    SymsPair(link, a, r);
    SymsConcat(first + [Name(l)], Pair(link, r));
    SymsThenWord(first + [Name(l)] + Pair(link, r), alias, b);
    SymsConcat(JoinHead(first, l, link, r, alias), AndTokens(on));
    OneTable(l);
    JoinNests(head, [Ident(l)], a, [Ident(r)], b, SymsOf(AndTokens(on)));
  }

  lemma MoveIn(h: Syms, l: Syms, a: Syms, r: Syms, b: Syms, on: Syms, tail: Syms)
    ensures h + (l + (a + (r + (b + on)))) + tail == h + (l + (a + (r + (b + (on + tail)))))
  {
    Nest(h, l + (a + (r + (b + on))), tail);
    Nest(l, a + (r + (b + on)), tail);
    Nest(a, r + (b + on), tail);
    Nest(r, b + on, tail);
    Nest(b, on, tail);
  }

  /** SELECT items FROM l AS x KIND JOIN r AS y ON conditions and a tail. */
  function JoinForm(head: Syms, l: Str, a: Syms, r: Str, b: Syms, on: Syms, tail: Syms): Syms {
    head + (SymsOf(TableTokens([l])) + (a + ([Ident(r)] + (b + (on + tail)))))
  }

  lemma JoinThen(first: seq<Token>, head: Syms, l: Str, link: string, a: Syms, r: Str, alias: string, b: Syms, on: seq<Cond>,
                 more: seq<Token>, tail: Syms)
    requires SymsOf(first) == head && Reads(link, a) && Reads(alias, b) && SymsOf(more) == tail
    ensures SymsOf(JoinHead(first, l, link, r, alias) + AndTokens(on) + more) == JoinForm(head, l, a, r, b, SymsOf(AndTokens(on)), tail)
  {
    JoinHeadSyms(first, head, l, link, a, r, alias, b, on);
    SymsConcat(JoinHead(first, l, link, r, alias) + AndTokens(on), more);
    MoveIn(head, SymsOf(TableTokens([l])), a, [Ident(r)], b, SymsOf(AndTokens(on)), tail);
  }

  lemma InnerQuerySyms(l: Str, r: Str, on: seq<Cond>, where: seq<Cond>)
    ensures SymsOf(QueryTokens(InnerJoin(l, r, on, where))) ==
            JoinForm(HeadSyms([Key("COUNT"), OPEN, STAR, CLOSE] + AS_V), l, LinkSyms("L", "INNER"), r, OnSyms("R"), SymsOf(AndTokens(on)),
                     WhereSyms(where))
  {
    SelectCountWord();
    HeadThen("SELECT COUNT(*) AS v FROM ", HeadSyms([Key("COUNT"), OPEN, STAR, CLOSE] + AS_V), l, r, on, where);
  }

  lemma HeadThen(word: string, head: Syms, l: Str, r: Str, on: seq<Cond>, where: seq<Cond>)
    requires TokenSyms(Word(word)) == head
    ensures SymsOf(JoinHead([Word(word)], l, " AS L INNER JOIN ", r, " AS R ON ") + AndTokens(on) + WhereTokens(where)) ==
            JoinForm(head, l, LinkSyms("L", "INNER"), r, OnSyms("R"), SymsOf(AndTokens(on)), WhereSyms(where))
  {
    SymsOne(Word(word));
    InnerThen([Word(word)], head, l, r, on, where);
  }

  lemma InnerThen(first: seq<Token>, head: Syms, l: Str, r: Str, on: seq<Cond>, where: seq<Cond>)
    requires SymsOf(first) == head
    ensures SymsOf(JoinHead(first, l, " AS L INNER JOIN ", r, " AS R ON ") + AndTokens(on) + WhereTokens(where)) ==
            JoinForm(head, l, LinkSyms("L", "INNER"), r, OnSyms("R"), SymsOf(AndTokens(on)), WhereSyms(where))
  {
    InnerJoinWord();
    OnWord(" AS R ON ", "R");
    WhereSymsOf(where);
    JoinThen(first, head, l, " AS L INNER JOIN ", LinkSyms("L", "INNER"), r, " AS R ON ", OnSyms("R"), on,
             WhereTokens(where), WhereSyms(where));
  }

  /** The outer join of a count or sample, its limit aside. */
  lemma OuterSyms(first: seq<Token>, head: Syms, l: Str, r: Str, on: seq<Cond>, where: seq<Cond>)
    requires SymsOf(first) == head && where != []
    ensures SymsOf(OuterTokens(first, l, r, on, where)) ==
            JoinForm(head, l, LinkSyms("A", "LEFT"), r, OnSyms("L"), SymsOf(AndTokens(on)), WhereSyms(where))
  {
    OuterJoinWords();
    WhereSymsOf(where);
    OuterIs(first, l, r, on, where);
    JoinThen(first, head, l, " AS A LEFT JOIN ", LinkSyms("A", "LEFT"), r, " AS L ON ", OnSyms("L"), on,
             WhereTokens(where), WhereSyms(where));
  }

  lemma OuterJoinWords()
    ensures Reads(" AS A LEFT JOIN ", LinkSyms("A", "LEFT")) && Reads(" AS L ON ", OnSyms("L"))
  {
    LeftJoinWord();
    OnWord(" AS L ON ", "L");
  }

  lemma OuterIs(first: seq<Token>, l: Str, r: Str, on: seq<Cond>, where: seq<Cond>)
    requires where != []
    ensures OuterTokens(first, l, r, on, where) ==
            JoinHead(first, l, " AS A LEFT JOIN ", r, " AS L ON ") + AndTokens(on) + WhereTokens(where)
  {
    OuterTail(JoinHead(first, l, " AS A LEFT JOIN ", r, " AS L ON ") + AndTokens(on), [Word(" WHERE ")], AndTokens(where));
  }

  lemma OuterTail(a: seq<Token>, b: seq<Token>, c: seq<Token>)
    ensures a + (b + c) == a + b + c
  {
  }

  lemma OuterCountSyms(l: Str, r: Str, on: seq<Cond>, where: seq<Cond>)
    requires where != []
    ensures SymsOf(QueryTokens(LeftJoin([], l, r, on, where))) ==
            JoinForm(HeadSyms([Key("COUNT"), OPEN, STAR, CLOSE] + AS_V), l, LinkSyms("A", "LEFT"), r, OnSyms("L"), SymsOf(AndTokens(on)),
                     WhereSyms(where))
  {
    var first := [Word("SELECT COUNT(*) AS v FROM ")];
    SelectCountWord();
    SymsOne(first[0]);
    OuterSyms(first, HeadSyms([Key("COUNT"), OPEN, STAR, CLOSE] + AS_V), l, r, on, where);
  }

  lemma JoinStatement(items: Items, syms: Syms, left: bool, l: Str, alias: string, r: Str, k: string, on: seq<Cond>,
                      where: seq<Cond>, w: string)
    requires ItemsAre(items, syms) && syms != [] && syms[0] != Key("EXISTS")
    requires AliasOf(Key(alias)).Some? && AliasOf(Key(k)).Some?
    requires on != [] && GoodConds(on) && GoodConds(where) && (w == "" || IsNumber(w))
    ensures ReadStatement(JoinForm(HeadSyms(syms), l, LinkSyms(alias, KindOf(left)), r, OnSyms(k), SymsOf(AndTokens(on)),
                                   WhereSyms(where) + LimitSyms(w))) ==
            LogicalSteps.Some(Plain(Select(items, [l], AliasOf(Key(alias)), JoinOf(left, r, AliasOf(Key(k)).value, on), where, LimitValue(w))))
  {
    JoinSelectRead(items, syms, left, l, alias, r, k, on, where, w);
    assert LimitSyms(w) + [] == LimitSyms(w);
    PlainStatement(syms, SymsOf(TableTokens([l])) + (LinkSyms(alias, KindOf(left)) + ([Ident(r)] + (OnSyms(k)
                         + (SymsOf(AndTokens(on)) + (WhereSyms(where) + LimitSyms(w)))))),
                   Select(items, [l], AliasOf(Key(alias)), JoinOf(left, r, AliasOf(Key(k)).value, on), where, LimitValue(w)));
  }

  lemma OuterStatement(l: Str, r: Str, on: seq<Cond>, where: seq<Cond>)
    requires GoodConds(on) && on != [] && GoodConds(where) && where != []
    ensures ReadStatement(SymsOf(QueryTokens(LeftJoin([], l, r, on, where)))) ==
            LogicalSteps.Some(Plain(Select(CountAll, [l], LogicalSteps.Some(A), LeftOf([r], L, on), where, LogicalSteps.None)))
  {
    var syms := [Key("COUNT"), OPEN, STAR, CLOSE] + AS_V;
    CountItems();
    CountIsPlain(syms);
    OuterCountSyms(l, r, on, where);
    JoinStatement(CountAll, syms, true, l, "A", r, "L", on, where, "");
    assert WhereSyms(where) + LimitSyms("") == WhereSyms(where);
  }

  lemma InnerStatement(l: Str, r: Str, on: seq<Cond>, where: seq<Cond>)
    requires GoodConds(on) && on != [] && GoodConds(where)
    ensures ReadStatement(SymsOf(QueryTokens(InnerJoin(l, r, on, where)))) ==
            LogicalSteps.Some(Plain(Select(CountAll, [l], LogicalSteps.Some(L), InnerOf([r], R, on), where, LogicalSteps.None)))
  {
    var syms := [Key("COUNT"), OPEN, STAR, CLOSE] + AS_V;
    CountItems();
    CountIsPlain(syms);
    InnerQuerySyms(l, r, on, where);
    JoinStatement(CountAll, syms, false, l, "L", r, "R", on, where, "");
    assert WhereSyms(where) + LimitSyms("") == WhereSyms(where);
  }

  lemma SampleSyms(projection: seq<Str>, l: Str, r: Str, on: seq<Cond>, where: seq<Cond>)
    requires where != []
    ensures SymsOf(OuterTokens(SampleHead(projection), l, r, on, where) + [Word(" LIMIT 3")]) ==
            JoinForm(HeadSyms(SymsOf(ListTokens(A, projection))), l, LinkSyms("A", "LEFT"), r, OnSyms("L"), SymsOf(AndTokens(on)),
                     WhereSyms(where) + LimitSyms("3"))
  {
    var head := HeadSyms(SymsOf(ListTokens(A, projection)));
    SampleHeadSyms(projection);
    OuterSyms(SampleHead(projection), head, l, r, on, where);
    ThreeIsNumber();
    LimitWord(" LIMIT 3", "3");
    SymsThenWord(OuterTokens(SampleHead(projection), l, r, on, where), " LIMIT 3", LimitSyms("3"));
    FormThen(head, l, LinkSyms("A", "LEFT"), r, OnSyms("L"), SymsOf(AndTokens(on)), WhereSyms(where), LimitSyms("3"));
  }

  /** The sample lists columns of the anchor and takes three rows. */
  lemma SampleQuerySyms(projection: seq<Str>, l: Str, r: Str, on: seq<Cond>, where: seq<Cond>) returns (syms: Syms)
    requires projection != [] && where != []
    ensures syms == SymsOf(QueryTokens(LeftJoin(projection, l, r, on, where)))
    ensures syms == JoinForm(HeadSyms(SymsOf(ListTokens(A, projection))), l, LinkSyms("A", "LEFT"), r, OnSyms("L"), SymsOf(AndTokens(on)),
                             WhereSyms(where) + LimitSyms("3"))
  {
    SampleSyms(projection, l, r, on, where);
    syms := SymsOf(QueryTokens(LeftJoin(projection, l, r, on, where)));
  }

  lemma SampleStatement(projection: seq<Str>, l: Str, r: Str, on: seq<Cond>, where: seq<Cond>)
    requires projection != [] && GoodConds(on) && on != [] && GoodConds(where) && where != []
    ensures ReadStatement(SymsOf(QueryTokens(LeftJoin(projection, l, r, on, where)))) ==
            LogicalSteps.Some(Plain(Select(Columns(Cols(A, projection)), [l], LogicalSteps.Some(A), LeftOf([r], L, on), where, LogicalSteps.Some(3))))
  {
    var syms := SampleQuerySyms(projection, l, r, on, where);
    ThreeIsNumber();
    ListedStatement(projection, l, "A", r, "L", on, where, "3");
  }

  lemma ListedStatement(projection: seq<Str>, l: Str, alias: string, r: Str, k: string, on: seq<Cond>, where: seq<Cond>, w: string)
    requires AliasOf(Key(alias)) == LogicalSteps.Some(A) && AliasOf(Key(k)) == LogicalSteps.Some(L) && IsNumber(w)
    requires projection != [] && GoodConds(on) && on != [] && GoodConds(where)
    ensures ReadStatement(JoinForm(HeadSyms(SymsOf(ListTokens(A, projection))), l, LinkSyms(alias, "LEFT"), r, OnSyms(k), SymsOf(AndTokens(on)),
                                   WhereSyms(where) + LimitSyms(w))) ==
            LogicalSteps.Some(Plain(Select(Columns(Cols(A, projection)), [l], LogicalSteps.Some(A), LeftOf([r], L, on), where, LimitValue(w))))
  {
    ListItems(A, projection);
    ListIsPlain(A, projection);
    JoinStatement(Columns(Cols(A, projection)), SymsOf(ListTokens(A, projection)), true, l, alias, r, k, on, where, w);
  }

  lemma FormThen(head: Syms, l: Str, a: Syms, r: Str, b: Syms, on: Syms, where: Syms, limit: Syms)
    ensures JoinForm(head, l, a, r, b, on, where) + limit == JoinForm(head, l, a, r, b, on, where + limit)
  {
    MoveIn(head, SymsOf(TableTokens([l])), a, [Ident(r)], b, on + where, limit);
    Nest(on, where, limit);
    assert on + (where + limit) == (on + where) + limit;
  }

  lemma ThreeIsNumber()
    ensures IsNumber("3") && LimitValue("3") == LogicalSteps.Some(3)
  {
    assert "3"[..0] == "";
  }

  lemma ListIsPlain(source: Source, columns: seq<Str>)
    requires columns != [] && GoodSource(source)
    ensures SymsOf(ListTokens(source, columns)) != [] && SymsOf(ListTokens(source, columns))[0] != Key("EXISTS")
  {
    ListStarts(source, columns);
    assert |"EXISTS"| != |"A"| && |"EXISTS"| != |"L"| && |"EXISTS"| != |"R"|;
  }

  lemma SampleHeadSyms(projection: seq<Str>)
    ensures SymsOf(SampleHead(projection)) == HeadSyms(SymsOf(ListTokens(A, projection)))
  {
    SelectWord();
    FromWord();
    SymsOne(Word("SELECT "));
    SymsConcat([Word("SELECT ")], ListTokens(A, projection));
    SymsThenWord([Word("SELECT ")] + ListTokens(A, projection), " FROM ", [Key("FROM")]);
    Nest([Key("SELECT")], SymsOf(ListTokens(A, projection)), [Key("FROM")]);
  }

  // ----- the text of a check asks what the check asks

  lemma CompiledGood(c: Check)
    ensures GoodConds(Conditions(Compile(c)))
  {
  }

  /** A statement that poses this query. */
  predicate Poses(st: LogicalSteps.Option<Statement>, q: Query) { st.Some? && QueryOf(st.value) == LogicalSteps.Some(q) }

  lemma OuterPoses(l: Str, r: Str, on: seq<Cond>, where: seq<Cond>)
    ensures var st := Plain(Select(CountAll, [l], LogicalSteps.Some(A), LeftOf([r], L, on), where, LogicalSteps.None));
            Poses(LogicalSteps.Some(st), LeftJoin([], l, r, on, where))
  {
  }

  lemma InnerPoses(l: Str, r: Str, on: seq<Cond>, where: seq<Cond>)
    ensures var st := Plain(Select(CountAll, [l], LogicalSteps.Some(L), InnerOf([r], R, on), where, LogicalSteps.None));
            Poses(LogicalSteps.Some(st), InnerJoin(l, r, on, where))
  {
  }

  lemma OuterRead(l: Str, r: Str, on: seq<Cond>, where: seq<Cond>)
    requires GoodConds(on) && on != [] && GoodConds(where) && where != []
    ensures Poses(ReadStatement(SymsOf(QueryTokens(LeftJoin([], l, r, on, where)))), LeftJoin([], l, r, on, where))
  {
    OuterStatement(l, r, on, where);
    OuterPoses(l, r, on, where);
  }

  lemma InnerRead(l: Str, r: Str, on: seq<Cond>, where: seq<Cond>)
    requires GoodConds(on) && on != [] && GoodConds(where)
    ensures Poses(ReadStatement(SymsOf(QueryTokens(InnerJoin(l, r, on, where)))), InnerJoin(l, r, on, where))
  {
    InnerStatement(l, r, on, where);
    InnerPoses(l, r, on, where);
  }

  /** Read by the grammar, the compiled statement is the compiled query, or no SQL where the database would refuse it. */
  lemma CompiledRead(c: Check)
    ensures var st := ReadStatement(SymsOf(QueryTokens(Compile(c))));
            if c.RelatedExists? && c.matchEq == [] then st.None? else Poses(st, Compile(c))
  {
    var q := Compile(c);
    CompiledGood(c);
    match c
    case RelatedExists(t, m) => if m == [] { assert q.where == []; ExistsMalformed(t); } else { ExistsRead(t, q.where); }
    case AntiJoin(a, l, _, _, _, _, _) => OuterRead(a, l, q.on, q.where);
    case Aggregate(t, CountStar, _, _, _) => CountStatement(t, q.where);
    case Aggregate(t, SumOf(col), _, _, _) => SumStatement(t, col, q.where);
    case JoinCount(l, r, _, _, _, _, _) => InnerRead(l, r, q.on, q.where);
  }

  lemma TextRead(d: Dialect, c: Check)
    ensures ReadSql(d, RelationalStyle(d), Render(d, RelationalStyle(d), QueryTokens(Compile(c)))) == ReadStatement(SymsOf(QueryTokens(Compile(c))))
  {
    QueryReads(Compile(c));
    QueryTextReadsBack(d, c);
    ReadRendered(d, RelationalStyle(d), QueryTokens(Compile(c)));
  }

  /** In every dialect, what the database makes of the text with its values is what the check asks. */
  lemma TextAnswers(d: Dialect, c: Check, db: Db)
    ensures Ask(d, RelationalStyle(d), Render(d, RelationalStyle(d), QueryTokens(Compile(c))), Values(c), db) == Expected(db, c)
  {
    TextRead(d, c);
    CompiledRead(c);
    CompiledMeaning(db, c);
  }

  /** The statement that lists a failing anti-join: columns of the anchor, three rows, and the conditions of the count. */
  function SampleSelect(c: Check, projection: seq<Str>): Select
    requires c.AntiJoin?
  {
    Select(Columns(Cols(A, projection)), [c.anchorTable], LogicalSteps.Some(A), LeftOf([c.lookupTable], L, Compile(c).on),
           Compile(c).where, LogicalSteps.Some(3))
  }

  lemma SampleAsks(c: Check, projection: seq<Str>)
    requires c.AntiJoin? && projection != []
    ensures ReadStatement(SymsOf(QueryTokens(AntiJoinQuery(c, projection)))) == LogicalSteps.Some(Plain(SampleSelect(c, projection)))
  {
    var q := AntiJoinQuery(c, projection);
    CompiledGood(c);
    SampleStatement(projection, q.left, q.right, q.on, q.where);
  }

  lemma SampleText(d: Dialect, c: Check, projection: seq<Str>)
    requires c.AntiJoin? && projection != []
    ensures ReadSql(d, RelationalStyle(d), Render(d, RelationalStyle(d), QueryTokens(AntiJoinQuery(c, projection)))) ==
            ReadStatement(SymsOf(QueryTokens(AntiJoinQuery(c, projection))))
  {
    SampleTextReadsBack(d, c, projection);
    QueryReads(AntiJoinQuery(c, projection));
    ReadRendered(d, RelationalStyle(d), QueryTokens(AntiJoinQuery(c, projection)));
  }

  lemma SampleRead(d: Dialect, c: Check, projection: seq<Str>)
    requires c.AntiJoin? && projection != []
    ensures ReadSql(d, RelationalStyle(d), Render(d, RelationalStyle(d), QueryTokens(AntiJoinQuery(c, projection)))) ==
            LogicalSteps.Some(Plain(SampleSelect(c, projection)))
  {
    SampleText(d, c, projection);
    SampleAsks(c, projection);
  }
}
