/** The SQL of row checks: select by identity, and the count and sample of a row that must be absent. */
module RowSql {
  import opened Sorting
  import opened Utf16
  import opened SqlText
  import opened SqlQuery
  import opened RelationalSql
  import opened SqlReader
  import LogicalSteps
  import RelationalCheck

  datatype AbsentRequest = AbsentRequest(table: Str, identityEq: seq<Eq>, filterEq: seq<Eq>)

  const DOT: Unit := 46

  /** full.split(".").filter(Boolean): the non-empty runs between dots. */
  function Segments(t: Str, run: Str): seq<Str> {
    if t == [] then (if run == [] then [] else [run])
    else if t[0] == DOT then (if run == [] then [] else [run]) + Segments(t[1..], [])
    else Segments(t[1..], run + [t[0]])
  }

  /** The name segments of a table; only BigQuery table ids have several. */
  function TablePath(d: Dialect, table: Str): (r: seq<Str>)
    ensures r != []
  {
    if d.BigQuery? then
      var parts := Segments(table, []);
      if |parts| == 0 then [Ascii("invalid")] else parts
    else [table]
  }

  /** What splitting promises: the segments are the table id without empty parts, and none contains a dot. */
  lemma {:induction false} SegmentsPlain(t: Str, run: Str)
    requires DOT !in run
    ensures forall i :: 0 <= i < |Segments(t, run)| ==> Segments(t, run)[i] != [] && DOT !in Segments(t, run)[i]
  {
    if t != [] {
      if t[0] == DOT { SegmentsPlain(t[1..], []); } else { SegmentsPlain(t[1..], run + [t[0]]); }
    }
  }

  function NonEmpty(parts: seq<Str>): seq<Str> { Filter((p: Str) => p != [], parts) }

  ghost predicate DotFree(parts: seq<Str>) { forall i :: 0 <= i < |parts| ==> DOT !in parts[i] }

  lemma {:induction false} SegmentsRun(a: Str, rest: Str, run: Str)
    requires DOT !in a
    ensures Segments(a + rest, run) == Segments(rest, run + a)
  {
    if a == [] {
      assert a + rest == rest && run + a == run;
    } else {
      var head, tail := [a[0]], a[1..];
      assert a == head + tail;
      assert (a + rest)[0] == a[0] && (a + rest)[1..] == tail + rest;
      assert a[0] in a;
      SegmentsRun(tail, rest, run + head);
      assert (run + head) + tail == run + a;
    }
  }

  /** Splitting a table id at its dots, dropping empty parts: every id is a join of dot-free parts, so this fixes the result. */
  lemma {:induction false} SegmentsOfJoin(parts: seq<Str>)
    requires DotFree(parts)
    ensures Segments(JoinText(parts, [DOT]), []) == NonEmpty(parts)
  {
    if parts != [] {
      var first, tail := parts[0], parts[1..];
      SegmentsOfJoin(tail);
      if tail == [] {
        SegmentsRun(first, [], []);
        assert first + [] == first && [] + first == first;
      } else {
        var more := JoinText(tail, [DOT]);
        assert JoinText(parts, [DOT]) == first + ([DOT] + more);
        SegmentsRun(first, [DOT] + more, []);
        assert [] + first == first;
        assert ([DOT] + more)[1..] == more;
      }
    }
  }

  /** Every table id is such a join. */
  lemma {:induction false} JoinOfParts(t: Str) returns (parts: seq<Str>)
    ensures parts != [] && DotFree(parts) && t == JoinText(parts, [DOT])
  {
    if t == [] {
      parts := [[]];
    } else {
      var rest := JoinOfParts(t[1..]);
      var front := [t[0]];
      assert t == front + t[1..];
      if t[0] == DOT {
        parts := [[]] + rest;
        assert parts[1..] == rest;
      } else {
        parts := [front + rest[0]] + rest[1..];
        assert parts[1..] == rest[1..];
      }
    }
  }

  function Conditions(d: Dialect, r: AbsentRequest): seq<Cond> {
    ParamConds(Table(TablePath(d, r.table)), r.identityEq + r.filterEq, 1)
  }

  function Values(r: AbsentRequest): seq<Str> { EqValues(r.identityEq + r.filterEq) }

  function FromTokens(first: seq<Token>, path: seq<Str>, cs: seq<Cond>): seq<Token> {
    first + TableTokens(path) + [Word(" WHERE ")] + AndTokens(cs)
  }

  function CountTokens(d: Dialect, r: AbsentRequest): seq<Token> {
    FromTokens([Word("SELECT COUNT(*) AS v FROM ")], TablePath(d, r.table), Conditions(d, r))
  }

  function ListHead(path: seq<Str>, columns: seq<Str>): seq<Token> {
    [Word("SELECT ")] + ListTokens(Table(path), columns) + [Word(" FROM ")]
  }

  function SampleTokens(d: Dialect, r: AbsentRequest, columns: seq<Str>): seq<Token> {
    FromTokens(ListHead(TablePath(d, r.table), columns), TablePath(d, r.table), Conditions(d, r)) + [Word(" LIMIT 3")]
  }

  function SelectTokens(t: Str, identityEq: seq<Eq>): seq<Token> {
    FromTokens([Word("SELECT * FROM ")], [t], ParamConds(Table([t]), identityEq, 1)) + [Word(" LIMIT 2")]
  }

  // ----- rendering

  lemma RenderFrom(d: Dialect, style: Style, first: seq<Token>, path: seq<Str>, cs: seq<Cond>)
    ensures Render(d, style, FromTokens(first, path, cs)) ==
            Render(d, style, first) + Render(d, style, TableTokens(path)) + Ascii(" WHERE ")
            + JoinText(CondTexts(d, style, cs), Ascii(" AND "))
  {
    RenderConcat(d, style, first, TableTokens(path));
    RenderThen(d, style, first + TableTokens(path), Word(" WHERE "));
    RenderAnd(d, style, cs);
    RenderConcat(d, style, first + TableTokens(path) + [Word(" WHERE ")], AndTokens(cs));
  }

  lemma RenderListHead(d: Dialect, style: Style, path: seq<Str>, columns: seq<Str>)
    ensures Render(d, style, ListHead(path, columns)) ==
            Ascii("SELECT ") + JoinText(ListText(d, Render(d, style, TableTokens(path)) + Ascii("."), columns), Ascii(", ")) + Ascii(" FROM ")
  {
    RenderOne(d, style, Word("SELECT "));
    RenderThen(d, style, TableTokens(path), Word("."));
    RenderList(d, style, Table(path), columns);
    RenderConcat(d, style, [Word("SELECT ")], ListTokens(Table(path), columns));
    RenderThen(d, style, [Word("SELECT ")] + ListTokens(Table(path), columns), Word(" FROM "));
  }

  /** parts.map(quote).join("."). */
  function TableText(d: Dialect, path: seq<Str>): Str {
    if path == [] then [] else if |path| == 1 then QuoteIdent(d, path[0])
    else QuoteIdent(d, path[0]) + Ascii(".") + TableText(d, path[1..])
  }

  lemma {:induction false} RenderTablePath(d: Dialect, style: Style, path: seq<Str>)
    ensures Render(d, style, TableTokens(path)) == TableText(d, path)
  {
    if |path| == 1 {
      RenderOne(d, style, Name(path[0]));
    } else if |path| > 1 {
      RenderTablePath(d, style, path[1..]);
      RenderOne(d, style, Name(path[0]));
      RenderThen(d, style, [Name(path[0])], Word("."));
      assert [Name(path[0])] + [Word(".")] == [Name(path[0]), Word(".")];
      RenderConcat(d, style, [Name(path[0]), Word(".")], TableTokens(path[1..]));
    }
  }

  lemma ParamCondsConcat(source: Source, a: seq<Eq>, b: seq<Eq>)
    ensures ParamConds(source, a + b, 1) == ParamConds(source, a, 1) + ParamConds(source, b, 1 + |a|)
    ensures EqValues(a + b) == EqValues(a) + EqValues(b)
  {
  }

  lemma CondTextsConcat(d: Dialect, style: Style, a: seq<Cond>, b: seq<Cond>)
    ensures CondTexts(d, style, a + b) == CondTexts(d, style, a) + CondTexts(d, style, b)
  {
  }

  ghost predicate IsProjection(columns: seq<Str>, r: AbsentRequest) {
    Ascending(columns) && Elements(columns) == set e | e in r.identityEq + r.filterEq :: e.column
  }

  method Projection(r: AbsentRequest) returns (columns: seq<Str>)
    ensures IsProjection(columns, r)
  {
    var eqs := r.identityEq + r.filterEq;
    var cols := {};
    for i := 0 to |eqs|
      invariant cols == set e | e in eqs[..i] :: e.column
    {
      assert eqs[..i + 1] == eqs[..i] + [eqs[i]];
      cols := cols + {eqs[i].column};
    }
    assert eqs[..|eqs|] == eqs;
    columns := SortedKeys(cols);
  }

  lemma AbsentTexts(d: Dialect, r: AbsentRequest)
    ensures var style, source := RowStyle(d), Table(TablePath(d, r.table));
            CondTexts(d, style, Conditions(d, r)) ==
            CondTexts(d, style, ParamConds(source, r.identityEq, 1)) + CondTexts(d, style, ParamConds(source, r.filterEq, 1 + |r.identityEq|))
  {
    var style, source := RowStyle(d), Table(TablePath(d, r.table));
    ParamCondsConcat(source, r.identityEq, r.filterEq);
    CondTextsConcat(d, style, ParamConds(source, r.identityEq, 1), ParamConds(source, r.filterEq, 1 + |r.identityEq|));
  }

  lemma AbsentValues(r: AbsentRequest)
    ensures Values(r) == EqValues(r.identityEq) + EqValues(r.filterEq)
  {
  }

  lemma TablePrefix(d: Dialect, style: Style, path: seq<Str>)
    ensures Render(d, style, SourceTokens(Table(path))) == TableText(d, path) + Ascii(".")
  {
    RenderTablePath(d, style, path);
    RenderThen(d, style, TableTokens(path), Word("."));
  }

  /** Identity equalities first, then filters, with one running placeholder number. */
  method AbsentConditions(d: Dialect, r: AbsentRequest, table: Str) returns (conds: seq<Str>, vals: seq<Str>)
    requires table == TableText(d, TablePath(d, r.table))
    ensures conds == CondTexts(d, RowStyle(d), Conditions(d, r)) && vals == Values(r)
  {
    var style, source := RowStyle(d), Table(TablePath(d, r.table));
    var prefix := table + Ascii(".");
    TablePrefix(d, style, TablePath(d, r.table));
    var p := 1;
    conds, vals, p := PushEqualities(d, style, source, prefix, r.identityEq, [], [], p);
    assert conds == CondTexts(d, style, ParamConds(source, r.identityEq, 1)) && vals == EqValues(r.identityEq);
    conds, vals, p := PushEqualities(d, style, source, prefix, r.filterEq, conds, vals, p);
    AbsentTexts(d, r);
    AbsentValues(r);
  }

  method BuildRowAbsentSqlPlan(d: Dialect, r: AbsentRequest)
    returns (countSql: Str, sampleSql: Str, values: seq<Str>, ghost columns: seq<Str>)
    ensures ReadSql(d, RowStyle(d), countSql) == AbsentStatement(d, r, CountAll, LogicalSteps.None)
    ensures ReadSql(d, RowStyle(d), sampleSql) ==
            AbsentStatement(d, r, Columns(Cols(Table(TablePath(d, r.table)), columns)), LogicalSteps.Some(3))
    ensures countSql == Render(d, RowStyle(d), CountTokens(d, r)) && values == Values(r)
    ensures IsProjection(columns, r) && sampleSql == Render(d, RowStyle(d), SampleTokens(d, r, columns))
  {
    CountRead(d, r);
    ghost var style, path := RowStyle(d), TablePath(d, r.table);
    var table := TableText(d, TablePath(d, r.table));
    var conds, vals := AbsentConditions(d, r, table);
    values := vals;
    RenderTablePath(d, style, path);
    var whereClause := JoinText(conds, Ascii(" AND "));
    countSql := Ascii("SELECT COUNT(*) AS v FROM ") + table + Ascii(" WHERE ") + whereClause;
    var projCols := Projection(r);
    columns := projCols;
    SampleRead(d, r, columns);
    var selectList := JoinText(ListText(d, table + Ascii("."), projCols), Ascii(", "));
    sampleSql := Ascii("SELECT ") + selectList + Ascii(" FROM ") + table + Ascii(" WHERE ") + whereClause + Ascii(" LIMIT 3");
    RenderOne(d, style, Word("SELECT COUNT(*) AS v FROM "));
    RenderFrom(d, style, [Word("SELECT COUNT(*) AS v FROM ")], path, Conditions(d, r));
    RenderListHead(d, style, path, projCols);
    RenderFrom(d, style, ListHead(path, projCols), path, Conditions(d, r));
    RenderThen(d, style, FromTokens(ListHead(path, projCols), path, Conditions(d, r)), Word(" LIMIT 3"));
  }

  method BuildSelectByIdentity(t: Str, identityEq: seq<Eq>) returns (text: Str, values: seq<Str>)
    ensures ReadSql(Sqlite, Positional, text) ==
            if identityEq == [] then LogicalSteps.None
            else LogicalSteps.Some(Plain(Select(Every, [t], LogicalSteps.None, NoJoin, ParamConds(Table([t]), identityEq, 1), LogicalSteps.Some(2))))
    ensures text == Render(Sqlite, Positional, SelectTokens(t, identityEq)) && values == EqValues(identityEq)
  {
    SelectRead(t, identityEq);
    var table := QuoteIdent(Sqlite, t);
    RenderTable(Sqlite, Positional, t);
    var conds, vals, _ := PushEqualities(Sqlite, Positional, Table([t]), table + Ascii("."), identityEq, [], [], 1);
    ghost var cs := ParamConds(Table([t]), identityEq, 1);
    assert conds == CondTexts(Sqlite, Positional, cs) && vals == EqValues(identityEq);
    values := vals;
    text := Ascii("SELECT * FROM ") + table + Ascii(" WHERE ") + JoinText(conds, Ascii(" AND ")) + Ascii(" LIMIT 2");
    RenderOne(Sqlite, Positional, Word("SELECT * FROM "));
    RenderTablePath(Sqlite, Positional, [t]);
    RenderFrom(Sqlite, Positional, [Word("SELECT * FROM ")], [t], cs);
    RenderThen(Sqlite, Positional, FromTokens([Word("SELECT * FROM ")], [t], cs), Word(" LIMIT 2"));
  }

  // ----- reading back

  lemma FromReads(first: seq<Token>, path: seq<Str>, word: string, eqs: seq<Eq>)
    requires Spaced(first) && first != [] && !OpenEnd(first) && Params(first) == [] && Gap(word)
    ensures var ts := first + TableTokens(path) + [Word(word)] + AndTokens(ParamConds(Table(path), eqs, 1));
            Spaced(ts) && Params(ts) == From(1, |eqs|)
  {
    TableSpaced(path);
    TableParams(path);
    SpacedConcat(first, TableTokens(path));
    ParamsConcat(first, TableTokens(path));
    AppendAnd(first + TableTokens(path), word, ParamConds(Table(path), eqs, 1));
    ParamCondNos(Table(path), eqs, 1);
    assert [] + From(1, |eqs|) == From(1, |eqs|);
  }

  lemma ListHeadReads(path: seq<Str>, columns: seq<Str>, select: string, from: string)
    requires SafeWord(select) && !EndsInWord(select) && Lead(from)
    ensures var r := [Word(select)] + ListTokens(Table(path), columns) + [Word(from)];
            Spaced(r) && r != [] && !OpenEnd(r) && Params(r) == []
  {
    WordSpaced(select);
    OneParam(Word(select));
    ListSpaced(Table(path), columns);
    ListParams(Table(path), columns);
    SpacedConcat([Word(select)], ListTokens(Table(path), columns));
    ParamsConcat([Word(select)], ListTokens(Table(path), columns));
    AppendWord([Word(select)] + ListTokens(Table(path), columns), from);
  }

  lemma RowWords()
    ensures SafeWord("SELECT ") && !EndsInWord("SELECT ") && Lead(" FROM ") && Gap(" WHERE ")
  {
  }

  lemma SelectWords()
    ensures SafeWord("SELECT * FROM ") && Lead(" LIMIT 2")
  {
  }

  lemma CountReads(d: Dialect, r: AbsentRequest)
    ensures Spaced(CountTokens(d, r)) && Params(CountTokens(d, r)) == From(1, |Values(r)|)
  {
    CountWords();
    RowWords();
    WordSpaced("SELECT COUNT(*) AS v FROM ");
    OneParam(Word("SELECT COUNT(*) AS v FROM "));
    FromReads([Word("SELECT COUNT(*) AS v FROM ")], TablePath(d, r.table), " WHERE ", r.identityEq + r.filterEq);
  }

  lemma SampleReads(d: Dialect, r: AbsentRequest, columns: seq<Str>)
    ensures Spaced(SampleTokens(d, r, columns)) && Params(SampleTokens(d, r, columns)) == From(1, |Values(r)|)
  {
    RowWords();
    LimitWords();
    var path := TablePath(d, r.table);
    ListHeadReads(path, columns, "SELECT ", " FROM ");
    FromReads(ListHead(path, columns), path, " WHERE ", r.identityEq + r.filterEq);
    AppendWord(FromTokens(ListHead(path, columns), path, Conditions(d, r)), " LIMIT 3");
  }

  lemma SelectReads(t: Str, identityEq: seq<Eq>)
    ensures Spaced(SelectTokens(t, identityEq)) && Params(SelectTokens(t, identityEq)) == From(1, |identityEq|)
  {
    SelectWords();
    RowWords();
    WordSpaced("SELECT * FROM ");
    OneParam(Word("SELECT * FROM "));
    FromReads([Word("SELECT * FROM ")], [t], " WHERE ", identityEq);
    AppendWord(FromTokens([Word("SELECT * FROM ")], [t], ParamConds(Table([t]), identityEq, 1)), " LIMIT 2");
  }

  /** A driver reads the row queries back as they were meant, placeholder i binding values[i - 1]; both queries share them. */
  lemma RowTextReadsBack(d: Dialect, r: AbsentRequest, columns: seq<Str>)
    ensures Lex(d, RowStyle(d), Render(d, RowStyle(d), CountTokens(d, r)), 1) == Lexed(LexemesOf(CountTokens(d, r)))
    ensures Lex(d, RowStyle(d), Render(d, RowStyle(d), SampleTokens(d, r, columns)), 1) == Lexed(LexemesOf(SampleTokens(d, r, columns)))
    ensures Params(CountTokens(d, r)) == Params(SampleTokens(d, r, columns)) == From(1, |Values(r)|)
    ensures forall i :: 0 <= i < |Values(r)| ==>
              var eq := (r.identityEq + r.filterEq)[i];
              Conditions(d, r)[i] == ParamEq(Col(Table(TablePath(d, r.table)), eq.column), i + 1) && Values(r)[i] == eq.value
  {
    CountReads(d, r);
    SampleReads(d, r, columns);
    LexRendered(d, RowStyle(d), CountTokens(d, r), 1);
    LexRendered(d, RowStyle(d), SampleTokens(d, r, columns), 1);
  }

  lemma SelectTextReadsBack(t: Str, identityEq: seq<Eq>)
    ensures Lex(Sqlite, Positional, Render(Sqlite, Positional, SelectTokens(t, identityEq)), 1) == Lexed(LexemesOf(SelectTokens(t, identityEq)))
    ensures Params(SelectTokens(t, identityEq)) == From(1, |identityEq|)
  {
    SelectReads(t, identityEq);
    LexRendered(Sqlite, Positional, SelectTokens(t, identityEq), 1);
  }

  // ----- reading the statements back from the grammar

  lemma FromSyms(first: seq<Token>, items: Syms, path: seq<Str>, cs: seq<Cond>)
    requires SymsOf(first) == HeadSyms(items) && cs != []
    ensures SymsOf(FromTokens(first, path, cs)) == HeadSyms(items) + (SymsOf(TableTokens(path)) + WhereSyms(cs))
  {
    WhereWord();
    SymsConcat(first, TableTokens(path));
    SymsThenWord(first + TableTokens(path), " WHERE ", [Key("WHERE")]);
    SymsConcat(first + TableTokens(path) + [Word(" WHERE ")], AndTokens(cs));
    Nest(HeadSyms(items) + SymsOf(TableTokens(path)), [Key("WHERE")], SymsOf(AndTokens(cs)));
    Nest(HeadSyms(items), SymsOf(TableTokens(path)), WhereSyms(cs));
  }

  lemma FromStatement(items: Items, syms: Syms, path: seq<Str>, cs: seq<Cond>, w: string)
    requires ItemsAre(items, syms) && syms != [] && syms[0] != Key("EXISTS")
    requires path != [] && GoodConds(cs) && (w == "" || IsNumber(w))
    ensures ReadStatement(HeadSyms(syms) + (SymsOf(TableTokens(path)) + (WhereSyms(cs) + LimitSyms(w)))) ==
            LogicalSteps.Some(Plain(Select(items, path, LogicalSteps.None, NoJoin, cs, LimitValue(w))))
  {
    PlainRead(items, syms, path, cs, w, []);
    assert LimitSyms(w) + [] == LimitSyms(w);
    PlainStatement(syms, SymsOf(TableTokens(path)) + (WhereSyms(cs) + LimitSyms(w)),
                   Select(items, path, LogicalSteps.None, NoJoin, cs, LimitValue(w)));
  }

  lemma LimitIn(head: Syms, t: Syms, where: Syms, limit: Syms)
    ensures head + (t + where) + limit == head + (t + (where + limit))
  {
    Nest(head, t + where, limit);
    Nest(t, where, limit);
  }

  /** Without conditions there is no row query: the text is no SQL. */
  lemma BareWhere(items: Items, syms: Syms, path: seq<Str>, more: Syms)
    requires ItemsAre(items, syms) && syms != [] && syms[0] != Key("EXISTS") && path != []
    requires more == [] || more[0] == Key("LIMIT")
    ensures ReadStatement(HeadSyms(syms) + (SymsOf(TableTokens(path)) + ([Key("WHERE")] + more))).None?
  {
    var s := [Key("WHERE")] + more;
    if more != [] {
      NoCondition(items, path, more);
    } else {
      NoJoinRead(s);
      assert s[1..] == [];
      assert ReadCol([]).Failed?;
    }
    NoJoinRead(s);
    HeadRead(items, syms, path, s);
    assert (HeadSyms(syms) + (SymsOf(TableTokens(path)) + s))[1] == syms[0];
  }

  lemma CountFirst()
    ensures SymsOf([Word("SELECT COUNT(*) AS v FROM ")]) == HeadSyms([Key("COUNT"), OPEN, STAR, CLOSE] + AS_V)
  {
    SelectCountWord();
    SymsOne(Word("SELECT COUNT(*) AS v FROM "));
  }

  lemma EveryFirst()
    ensures SymsOf([Word("SELECT * FROM ")]) == HeadSyms([STAR])
  {
    EveryWord();
    SymsOne(Word("SELECT * FROM "));
  }

  lemma ListFirst(path: seq<Str>, columns: seq<Str>)
    ensures SymsOf(ListHead(path, columns)) == HeadSyms(SymsOf(ListTokens(Table(path), columns)))
  {
    SelectWord();
    FromWord();
    SymsOne(Word("SELECT "));
    SymsConcat([Word("SELECT ")], ListTokens(Table(path), columns));
    SymsThenWord([Word("SELECT ")] + ListTokens(Table(path), columns), " FROM ", [Key("FROM")]);
    Nest([Key("SELECT")], SymsOf(ListTokens(Table(path), columns)), [Key("FROM")]);
  }

  lemma CountStatement(d: Dialect, r: AbsentRequest)
    requires r.identityEq + r.filterEq != []
    ensures ReadStatement(SymsOf(CountTokens(d, r))) ==
            LogicalSteps.Some(Plain(Select(CountAll, TablePath(d, r.table), LogicalSteps.None, NoJoin, Conditions(d, r), LogicalSteps.None)))
  {
    var syms := [Key("COUNT"), OPEN, STAR, CLOSE] + AS_V;
    CountItems();
    CountIsPlain(syms);
    CountFirst();
    FromSyms([Word("SELECT COUNT(*) AS v FROM ")], syms, TablePath(d, r.table), Conditions(d, r));
    FromStatement(CountAll, syms, TablePath(d, r.table), Conditions(d, r), "");
    assert WhereSyms(Conditions(d, r)) + LimitSyms("") == WhereSyms(Conditions(d, r));
  }

  lemma TwoIsNumber()
    ensures IsNumber("2") && LimitValue("2") == LogicalSteps.Some(2)
  {
    assert "2"[..0] == "";
  }

  lemma SelectStatement(t: Str, identityEq: seq<Eq>)
    requires identityEq != []
    ensures ReadStatement(SymsOf(SelectTokens(t, identityEq))) ==
            LogicalSteps.Some(Plain(Select(Every, [t], LogicalSteps.None, NoJoin, ParamConds(Table([t]), identityEq, 1), LogicalSteps.Some(2))))
  {
    var cs := ParamConds(Table([t]), identityEq, 1);
    EveryItems();
    EveryFirst();
    FromSyms([Word("SELECT * FROM ")], [STAR], [t], cs);
    TwoIsNumber();
    LimitWord(" LIMIT 2", "2");
    SymsThenWord(FromTokens([Word("SELECT * FROM ")], [t], cs), " LIMIT 2", LimitSyms("2"));
    LimitIn(HeadSyms([STAR]), SymsOf(TableTokens([t])), WhereSyms(cs), LimitSyms("2"));
    FromStatement(Every, [STAR], [t], cs, "2");
  }

  lemma SampleStatement(d: Dialect, r: AbsentRequest, columns: seq<Str>)
    requires r.identityEq + r.filterEq != [] && columns != []
    ensures ReadStatement(SymsOf(SampleTokens(d, r, columns))) ==
            LogicalSteps.Some(Plain(Select(Columns(Cols(Table(TablePath(d, r.table)), columns)), TablePath(d, r.table), LogicalSteps.None,
                                           NoJoin, Conditions(d, r), LogicalSteps.Some(3))))
  {
    var path, cs := TablePath(d, r.table), Conditions(d, r);
    var syms := SymsOf(ListTokens(Table(path), columns));
    ListItems(Table(path), columns);
    ListIsPlain(Table(path), columns);
    ListFirst(path, columns);
    FromSyms(ListHead(path, columns), syms, path, cs);
    ThreeIsNumber();
    LimitWord(" LIMIT 3", "3");
    SymsThenWord(FromTokens(ListHead(path, columns), path, cs), " LIMIT 3", LimitSyms("3"));
    LimitIn(HeadSyms(syms), SymsOf(TableTokens(path)), WhereSyms(cs), LimitSyms("3"));
    FromStatement(Columns(Cols(Table(path), columns)), syms, path, cs, "3");
  }

  lemma BareSyms(first: seq<Token>, items: Syms, path: seq<Str>)
    requires SymsOf(first) == HeadSyms(items)
    ensures SymsOf(FromTokens(first, path, [])) == HeadSyms(items) + (SymsOf(TableTokens(path)) + ([Key("WHERE")] + []))
  {
    WhereWord();
    SymsConcat(first, TableTokens(path));
    SymsThenWord(first + TableTokens(path), " WHERE ", [Key("WHERE")]);
    assert FromTokens(first, path, []) == first + TableTokens(path) + [Word(" WHERE ")];
    Nest(HeadSyms(items), SymsOf(TableTokens(path)), [Key("WHERE")]);
    assert [Key("WHERE")] + [] == [Key("WHERE")];
  }

  /** The statement of an absence check with these items and this limit; without equalities there is none. */
  function AbsentStatement(d: Dialect, r: AbsentRequest, items: Items, limit: LogicalSteps.Option<nat>): LogicalSteps.Option<Statement> {
    if r.identityEq + r.filterEq == [] then LogicalSteps.None
    else LogicalSteps.Some(Plain(Select(items, TablePath(d, r.table), LogicalSteps.None, NoJoin, Conditions(d, r), limit)))
  }

  lemma CountRead(d: Dialect, r: AbsentRequest)
    ensures ReadSql(d, RowStyle(d), Render(d, RowStyle(d), CountTokens(d, r))) == AbsentStatement(d, r, CountAll, LogicalSteps.None)
  {
    CountReads(d, r);
    ReadRendered(d, RowStyle(d), CountTokens(d, r));
    if r.identityEq + r.filterEq == [] {
      var syms := [Key("COUNT"), OPEN, STAR, CLOSE] + AS_V;
      assert Conditions(d, r) == [];
      CountItems();
      CountIsPlain(syms);
      CountFirst();
      BareSyms([Word("SELECT COUNT(*) AS v FROM ")], syms, TablePath(d, r.table));
      BareWhere(CountAll, syms, TablePath(d, r.table), []);
    } else {
      CountStatement(d, r);
    }
  }

  lemma NoColumns(more: Syms)
    ensures ReadStatement(HeadSyms([]) + more).None?
  {
    var s := HeadSyms([]) + more;
    assert s[0] == Key("SELECT") && s[1] == Key("FROM");
    assert |"FROM"| != |"EXISTS"| && |"FROM"| != |"COUNT"| && |"FROM"| != |"COALESCE"| && |"FROM"| != |"1"| && |"FROM"| != |"A"|;
    assert |"FROM"| != |"L"| && |"FROM"| != |"R"|;
    assert ReadCol(s[1..]).Failed?;
    assert ReadItems(s[1..]).Failed?;
  }

  lemma ProjectionEmpty(columns: seq<Str>, r: AbsentRequest)
    requires IsProjection(columns, r)
    ensures columns == [] <==> r.identityEq + r.filterEq == []
  {
    var eqs := r.identityEq + r.filterEq;
    if columns != [] {
      assert columns[0] in Elements(columns);
    }
    if eqs != [] {
      assert eqs[0] in eqs;
      assert eqs[0].column in Elements(columns);
    }
  }

  lemma EmptySample(d: Dialect, r: AbsentRequest)
    requires r.identityEq + r.filterEq == []
    ensures ReadStatement(SymsOf(SampleTokens(d, r, []))).None?
  {
    var path := TablePath(d, r.table);
    assert Conditions(d, r) == [];
    ListFirst(path, []);
    BareSyms(ListHead(path, []), [], path);
    TwoWords(path);
    ThreeIsNumber();
    LimitWord(" LIMIT 3", "3");
    SymsThenWord(FromTokens(ListHead(path, []), path, []), " LIMIT 3", LimitSyms("3"));
    Nest(HeadSyms([]), SymsOf(TableTokens(path)) + ([Key("WHERE")] + []), LimitSyms("3"));
    NoColumns(SymsOf(TableTokens(path)) + ([Key("WHERE")] + []) + LimitSyms("3"));
  }

  lemma TwoWords(path: seq<Str>)
    ensures SymsOf(ListTokens(Table(path), [])) == []
  {
    assert ColumnParts(Table(path), []) == [];
  }

  lemma SampleRead(d: Dialect, r: AbsentRequest, columns: seq<Str>)
    requires IsProjection(columns, r)
    ensures ReadSql(d, RowStyle(d), Render(d, RowStyle(d), SampleTokens(d, r, columns))) ==
            AbsentStatement(d, r, Columns(Cols(Table(TablePath(d, r.table)), columns)), LogicalSteps.Some(3))
  {
    SampleReads(d, r, columns);
    ReadRendered(d, RowStyle(d), SampleTokens(d, r, columns));
    ProjectionEmpty(columns, r);
    if r.identityEq + r.filterEq == [] { EmptySample(d, r); } else { SampleStatement(d, r, columns); }
  }

  lemma SelectRead(t: Str, identityEq: seq<Eq>)
    ensures ReadSql(Sqlite, Positional, Render(Sqlite, Positional, SelectTokens(t, identityEq))) ==
            if identityEq == [] then LogicalSteps.None
            else LogicalSteps.Some(Plain(Select(Every, [t], LogicalSteps.None, NoJoin, ParamConds(Table([t]), identityEq, 1), LogicalSteps.Some(2))))
  {
    SelectReads(t, identityEq);
    ReadRendered(Sqlite, Positional, SelectTokens(t, identityEq));
    if identityEq == [] { EmptySelect(t); } else { SelectStatement(t, identityEq); }
  }

  lemma EmptySelect(t: Str)
    ensures ReadStatement(SymsOf(SelectTokens(t, []))).None?
  {
    assert ParamConds(Table([t]), [], 1) == [];
    EveryItems();
    EveryFirst();
    BareSyms([Word("SELECT * FROM ")], [STAR], [t]);
    TwoIsNumber();
    LimitWord(" LIMIT 2", "2");
    SymsThenWord(FromTokens([Word("SELECT * FROM ")], [t], []), " LIMIT 2", LimitSyms("2"));
    LimitIn(HeadSyms([STAR]), SymsOf(TableTokens([t])), [Key("WHERE")] + [], LimitSyms("2"));
    assert [Key("WHERE")] + [] + LimitSyms("2") == [Key("WHERE")] + LimitSyms("2");
    BareWhere(Every, [STAR], [t], LimitSyms("2"));
  }

  /** Of any rows, the conditions with their values keep those that satisfy identity and filter. */
  lemma AbsentKeeps(d: Dialect, r: AbsentRequest, db: RelationalCheck.Db, rows: RelationalCheck.Rows)
    ensures RelationalCheck.Selected(db, Values(r), rows, Conditions(d, r)) ==
            RelationalCheck.Satisfying(db, rows, r.identityEq + r.filterEq)
  {
    RelationalCheck.SelectedAt(db, TablePath(d, r.table), rows, r.identityEq + r.filterEq);
  }
}
