/** A reader of SQL, from keywords and grammar: what a statement text asks of a database, whoever wrote it. */
module SqlReader {
  import opened Utf16
  import opened LogicalSteps
  import opened SqlText
  import opened SqlQuery
  import opened RelationalCheck

  // ----- from lexemes to symbols: maximal runs of word characters, single other characters, spaces dropped

  datatype Sym = Key(word: string) | Punct(c: Unit) | Ident(id: Str) | Mark(n: nat)
  type Syms = seq<Sym>

  predicate InWord(c: Unit) { c < 128 && WordChar(c as char) }

  function Flush(run: string): Syms { if run == "" then [] else [Key(run)] }

  function Single(l: Lexeme): Syms {
    match l
    case Raw(c) => if c == 32 then [] else [Punct(c)]
    case Identifier(id) => [Ident(id)]
    case Placeholder(n) => [Mark(n)]
  }

  function Symbols(ls: seq<Lexeme>, run: string): Syms {
    if ls == [] then Flush(run)
    else if ls[0].Raw? && InWord(ls[0].c) then Symbols(ls[1..], run + [ls[0].c as char])
    else Flush(run) + Single(ls[0]) + Symbols(ls[1..], "")
  }

  // ----- the grammar

  datatype Items = CountAll | SumOrZero(column: Str) | Every | One | Columns(cols: seq<Col>)
  datatype Join = NoJoin | LeftOf(right: seq<Str>, alias: Source, on: seq<Cond>) | InnerOf(right: seq<Str>, alias: Source, on: seq<Cond>)

  datatype Select = Select(items: Items, from: seq<Str>, alias: Option<Source>, join: Join, where: seq<Cond>, limit: Option<nat>)

  /** SELECT ..., or SELECT EXISTS (SELECT ...) AS v. */
  datatype Statement = Plain(select: Select) | Existence(select: Select)

  datatype Read<T> = Failed | Got(v: T, rest: Syms)

  const DOT := Punct(46)
  const COMMA := Punct(44)
  const EQUALS := Punct(61)
  const OPEN := Punct(40)
  const CLOSE := Punct(41)
  const STAR := Punct(42)

  predicate At(s: Syms, y: Sym) { s != [] && s[0] == y }

  /** name {. name} */
  function ReadPath(s: Syms): Read<seq<Str>> {
    if s == [] || !s[0].Ident? then Failed
    else if At(s[1..], DOT) then
      match ReadPath(s[2..])
      case Failed => Failed
      case Got(path, rest) => Got([s[0].id] + path, rest)
    else Got([s[0].id], s[1..])
  }

  function AliasOf(y: Sym): Option<Source> {
    if y == Key("A") then Some(A) else if y == Key("L") then Some(L) else if y == Key("R") then Some(R) else None
  }

  /** alias . name, or a table path and a name. */
  function ReadCol(s: Syms): Read<Col> {
    if s == [] then Failed
    else if AliasOf(s[0]).Some? then
      if |s| > 2 && s[1] == DOT && s[2].Ident? then Got(Col(AliasOf(s[0]).value, s[2].id), s[3..]) else Failed
    else
      match ReadPath(s)
      case Failed => Failed
      case Got(path, rest) =>
        if |path| < 2 then Failed else Got(Col(Table(path[..|path| - 1]), path[|path| - 1]), rest)
  }

  /** column = placeholder, column = column, column IS NULL */
  function ReadCond(s: Syms): Read<Cond> {
    match ReadCol(s)
    case Failed => Failed
    case Got(col, t) =>
      if At(t, EQUALS) then
        if |t| > 1 && t[1].Mark? then Got(ParamEq(col, t[1].n), t[2..])
        else match ReadCol(t[1..])
             case Failed => Failed
             case Got(other, rest) => Got(ColEq(col, other), rest)
      else if [Key("IS"), Key("NULL")] <= t then Got(IsNull(col), t[2..])
      else Failed
  }

  lemma ReadColShrinks(s: Syms)
    ensures ReadCol(s).Got? ==> |ReadCol(s).rest| < |s|
  {
    ReadPathShrinks(s);
  }

  lemma {:induction false} ReadPathShrinks(s: Syms)
    ensures ReadPath(s).Got? ==> |ReadPath(s).rest| < |s|
  {
    if s != [] && At(s[1..], DOT) {
      ReadPathShrinks(s[2..]);
    }
  }

  lemma ReadCondShrinks(s: Syms)
    ensures ReadCond(s).Got? ==> |ReadCond(s).rest| < |s|
  {
    ReadColShrinks(s);
    if ReadCol(s).Got? && At(ReadCol(s).rest, EQUALS) {
      ReadColShrinks(ReadCol(s).rest[1..]);
    }
  }

  /** condition {AND condition} */
  function ReadConds(s: Syms): Read<seq<Cond>>
    decreases |s|
  {
    ReadCondShrinks(s);
    match ReadCond(s)
    case Failed => Failed
    case Got(c, t) =>
      if At(t, Key("AND")) then
        match ReadConds(t[1..])
        case Failed => Failed
        case Got(cs, rest) => Got([c] + cs, rest)
      else Got([c], t)
  }

  /** column {, column} */
  function ReadCols(s: Syms): Read<seq<Col>>
    decreases |s|
  {
    ReadColShrinks(s);
    match ReadCol(s)
    case Failed => Failed
    case Got(c, t) =>
      if At(t, COMMA) then
        match ReadCols(t[1..])
        case Failed => Failed
        case Got(cs, rest) => Got([c] + cs, rest)
      else Got([c], t)
  }

  const AS_V: Syms := [Key("AS"), Key("v")]

  /** COUNT(*) AS v, COALESCE(SUM(column), 0) AS v, *, 1, or columns. */
  function ReadItems(s: Syms): Read<Items> {
    if [Key("COUNT"), OPEN, STAR, CLOSE] + AS_V <= s then Got(CountAll, s[6..])
    else if [Key("COALESCE"), OPEN, Key("SUM"), OPEN] <= s then
      if |s| > 4 && s[4].Ident? && [CLOSE, COMMA, Key("0"), CLOSE] + AS_V <= s[5..] then Got(SumOrZero(s[4].id), s[11..])
      else Failed
    else if At(s, STAR) then Got(Every, s[1..])
    else if At(s, Key("1")) then Got(One, s[1..])
    else
      match ReadCols(s)
      case Failed => Failed
      case Got(cols, rest) => Got(Columns(cols), rest)
  }

  /** [AS alias] */
  function ReadAlias(s: Syms): Read<Option<Source>> {
    if !At(s, Key("AS")) then Got(None, s)
    else if |s| > 1 && AliasOf(s[1]).Some? then Got(AliasOf(s[1]), s[2..])
    else Failed
  }

  /** table AS alias ON conditions */
  function ReadJoined(s: Syms): Read<(seq<Str>, Source, seq<Cond>)> {
    match ReadPath(s)
    case Failed => Failed
    case Got(path, t) =>
      match ReadAlias(t)
      case Failed => Failed
      case Got(alias, u) =>
        if alias.None? || !At(u, Key("ON")) then Failed else
        match ReadConds(u[1..])
        case Failed => Failed
        case Got(on, rest) => Got((path, alias.value, on), rest)
  }

  /** [LEFT JOIN ... | INNER JOIN ...] */
  function ReadJoin(s: Syms): Read<Join> {
    if [Key("LEFT"), Key("JOIN")] <= s then
      match ReadJoined(s[2..])
      case Failed => Failed
      case Got(j, rest) => Got(LeftOf(j.0, j.1, j.2), rest)
    else if [Key("INNER"), Key("JOIN")] <= s then
      match ReadJoined(s[2..])
      case Failed => Failed
      case Got(j, rest) => Got(InnerOf(j.0, j.1, j.2), rest)
    else Got(NoJoin, s)
  }

  /** [WHERE conditions] */
  function ReadWhere(s: Syms): Read<seq<Cond>> {
    if At(s, Key("WHERE")) then ReadConds(s[1..]) else Got([], s)
  }

  predicate IsNumber(w: string) { w != "" && forall i :: 0 <= i < |w| ==> '0' <= w[i] <= '9' }

  function NumberOf(w: string): nat
    requires w == "" || IsNumber(w)
  {
    if w == "" then 0 else 10 * NumberOf(w[..|w| - 1]) + (w[|w| - 1] as int - 48)
  }

  /** [LIMIT number] */
  function ReadLimit(s: Syms): Read<Option<nat>> {
    if !At(s, Key("LIMIT")) then Got(None, s)
    else if |s| > 1 && s[1].Key? && IsNumber(s[1].word) then Got(Some(NumberOf(s[1].word)), s[2..])
    else Failed
  }

  /** SELECT items FROM table [AS alias] [join] [WHERE conditions] [LIMIT number] */
  function ReadSelect(s: Syms): Read<Select> {
    if !At(s, Key("SELECT")) then Failed else
    var items := ReadItems(s[1..]);
    if items.Failed? || !At(items.rest, Key("FROM")) then Failed else
    var from := ReadPath(items.rest[1..]);
    if from.Failed? then Failed else
    var alias := ReadAlias(from.rest);
    if alias.Failed? then Failed else
    ReadTail(items.v, from.v, alias.v, alias.rest)
  }

  function ReadTail(items: Items, from: seq<Str>, alias: Option<Source>, s: Syms): Read<Select> {
    var join := ReadJoin(s);
    if join.Failed? then Failed else
    var where := ReadWhere(join.rest);
    if where.Failed? then Failed else
    var limit := ReadLimit(where.rest);
    if limit.Failed? then Failed else
    Got(Select(items, from, alias, join.v, where.v, limit.v), limit.rest)
  }

  function ReadStatement(s: Syms): Option<Statement> {
    if [Key("SELECT"), Key("EXISTS"), OPEN] <= s then
      match ReadSelect(s[3..])
      case Failed => None
      case Got(select, rest) => if rest == [CLOSE] + AS_V then Some(Existence(select)) else None
    else
      match ReadSelect(s)
      case Failed => None
      case Got(select, rest) => if rest == [] then Some(Plain(select)) else None
  }

  /** What a driver of this dialect and placeholder style makes of a text; None if it is no statement. */
  function ReadSql(d: Dialect, style: Style, text: Str): Option<Statement> {
    match Lex(d, style, text, 1)
    case Malformed => None
    case Lexed(ls) => ReadStatement(Symbols(ls, ""))
  }

  /** The query a statement poses; listings of rows are not queries for one scalar. */
  function QueryOf(st: Statement): Option<Query> {
    match st
    case Existence(Select(One, from, None, NoJoin, where, Some(n))) =>
      if |from| == 1 && n == 1 then Some(SelectExists(from[0], where)) else None
    case Plain(Select(CountAll, from, None, NoJoin, where, None)) =>
      if |from| == 1 then Some(SelectCount(from[0], where)) else None
    case Plain(Select(SumOrZero(column), from, None, NoJoin, where, None)) =>
      if |from| == 1 then Some(SelectSum(from[0], column, where)) else None
    case Plain(Select(CountAll, from, Some(A), LeftOf(right, L, on), where, None)) =>
      if |from| == 1 && |right| == 1 then Some(LeftJoin([], from[0], right[0], on, where)) else None
    case Plain(Select(CountAll, from, Some(L), InnerOf(right, R, on), where, None)) =>
      if |from| == 1 && |right| == 1 then Some(InnerJoin(from[0], right[0], on, where)) else None
    case _ => None
  }

  /** What a database answers to a text with values for its placeholders. */
  function Ask(d: Dialect, style: Style, text: Str, values: seq<Str>, db: Db): Answer {
    match ReadSql(d, style, text)
    case None => SqlError
    case Some(st) => (match QueryOf(st) case None => SqlError case Some(q) => Execute(q, values, db))
  }

  /**
   * The row lists a database may answer with to a text that selects all columns of one table: rows of the table that
   * satisfy the conditions, all of them or as many as the limit allows.
   */
  ghost predicate Serves(d: Dialect, style: Style, text: Str, values: seq<Str>, db: Db, rows: Rows) {
    match ReadSql(d, style, text)
    case Some(Plain(Select(Every, from, None, NoJoin, where, limit))) =>
      && |from| == 1 && HasColumns(db, from[0], ColumnsAt(where, Table(from)))
      && var all := Selected(db, values, db.tables[from[0]].rows, where);
         |rows| == (if limit.None? || |all| < limit.value then |all| else limit.value) && multiset(rows) <= multiset(all)
    case _ => false
  }

  // ----- the symbols of rendered tokens

  function Other(c: char): Syms
    requires c < 128 as char
  {
    if c == ' ' then [] else [Punct(c as int)]
  }

  function Scan(w: string, run: string): Syms
    requires forall i :: 0 <= i < |w| ==> w[i] < 128 as char
  {
    if w == "" then Flush(run)
    else if WordChar(w[0]) then Scan(w[1..], run + [w[0]])
    else Flush(run) + Other(w[0]) + Scan(w[1..], "")
  }

  function TokenSyms(t: Token): Syms {
    match t
    case Word(w) => if forall i :: 0 <= i < |w| ==> w[i] < 128 as char then Scan(w, "") else []
    case Name(id) => [Ident(id)]
    case Param(n) => [Mark(n)]
  }

  function SymsOf(ts: seq<Token>): Syms {
    if ts == [] then [] else TokenSyms(ts[0]) + SymsOf(ts[1..])
  }

  lemma {:induction false} SymsConcat(a: seq<Token>, b: seq<Token>)
    ensures SymsOf(a + b) == SymsOf(a) + SymsOf(b)
  {
    if a == [] {
      assert a + b == b;
    } else {
      assert (a + b)[0] == a[0] && (a + b)[1..] == a[1..] + b;
      SymsConcat(a[1..], b);
    }
  }

  lemma SymsOne(t: Token)
    ensures SymsOf([t]) == TokenSyms(t)
  {
    assert [t][1..] == [];
  }

  /** No word continues into ls. */
  predicate Blunt(ls: seq<Lexeme>) { ls == [] || !(ls[0].Raw? && InWord(ls[0].c)) }

  lemma FlushFirst(f: Syms, y: Syms, rest: Syms)
    ensures f + y + rest == f + ([] + y + rest)
  {
  }

  lemma FlushBefore(ls: seq<Lexeme>, run: string)
    requires run == "" || Blunt(ls)
    ensures Symbols(ls, run) == Flush(run) + Symbols(ls, "")
  {
    if ls != [] && run != "" {
      FlushFirst(Flush(run), Single(ls[0]), Symbols(ls[1..], ""));
    } else if ls == [] {
      assert Flush(run) + [] == Flush(run);
    } else {
      assert [] + Symbols(ls, "") == Symbols(ls, "");
    }
  }

  lemma RawStep(c: Unit, ls: seq<Lexeme>, run: string)
    ensures Symbols([Raw(c)] + ls, run) ==
            if InWord(c) then Symbols(ls, run + [c as char])
            else Flush(run) + Single(Raw(c)) + Symbols(ls, "")
  {
    assert ([Raw(c)] + ls)[1..] == ls;
  }

  lemma {:induction false} WordSymbols(w: string, ls: seq<Lexeme>, run: string)
    requires forall i :: 0 <= i < |w| ==> w[i] < 128 as char
    requires w == "" ==> run == "" || Blunt(ls)
    requires EndsInWord(w) ==> Blunt(ls)
    ensures Symbols(Raws(Ascii(w)) + ls, run) == Scan(w, run) + Symbols(ls, "")
    decreases |w|
  {
    if w == "" {
      assert Raws(Ascii(w)) + ls == ls;
      FlushBefore(ls, run);
    } else {
      var tail := w[1..];
      assert Raws(Ascii(w)) + ls == [Raw(w[0] as int)] + (Raws(Ascii(tail)) + ls);
      RawStep(w[0] as int, Raws(Ascii(tail)) + ls, run);
      if WordChar(w[0]) {
        WordSymbols(tail, ls, run + [w[0]]);
      } else {
        WordSymbols(tail, ls, "");
        var front := Flush(run) + Other(w[0]);
        assert front + (Scan(tail, "") + Symbols(ls, "")) == front + Scan(tail, "") + Symbols(ls, "");
      }
    }
  }

  /** Rendered tokens are read as the symbols of each token. */
  lemma {:induction false} SymbolsOfTokens(ts: seq<Token>)
    requires Spaced(ts)
    ensures Symbols(LexemesOf(ts), "") == SymsOf(ts)
  {
    if ts != [] {
      var rest := ts[1..];
      SymbolsOfTokens(rest);
      var more := LexemesOf(rest);
      match ts[0] {
        case Word(w) =>
          assert Apart(ts[0], if rest == [] then Name([]) else ts[1]);
          BluntAfter(w, rest);
          assert LexemesOf(ts) == Raws(Ascii(w)) + more;
          WordSymbols(w, more, "");
        case Name(id) =>
          assert LexemesOf(ts) == [Identifier(id)] + more;
          assert LexemesOf(ts)[1..] == more;
          assert [] + [Ident(id)] + SymsOf(rest) == [Ident(id)] + SymsOf(rest);
        case Param(n) =>
          assert LexemesOf(ts) == [Placeholder(n)] + more;
          assert LexemesOf(ts)[1..] == more;
          assert [] + [Mark(n)] + SymsOf(rest) == [Mark(n)] + SymsOf(rest);
      }
    }
  }

  lemma BluntAfter(w: string, rest: seq<Token>)
    requires Spaced(rest) && (rest != [] ==> Apart(Word(w), rest[0]))
    ensures EndsInWord(w) ==> Blunt(LexemesOf(rest))
  {
    if rest != [] && rest[0].Word? {
      var t := rest[0].text;
      assert SafeWord(t);
      assert LexemesOf(rest)[0] == Raw(Ascii(t)[0]);
    }
  }

  /** A spaced rendering is read from its symbols. */
  lemma ReadRendered(d: Dialect, style: Style, ts: seq<Token>)
    requires Spaced(ts) && Params(ts) == From(1, |Params(ts)|)
    ensures ReadSql(d, style, Render(d, style, ts)) == ReadStatement(SymsOf(ts))
  {
    LexRendered(d, style, ts, 1);
    SymbolsOfTokens(ts);
  }

  // ----- reading the pieces back

  predicate AllWord(k: string) { forall i :: 0 <= i < |k| ==> WordChar(k[i]) }

  lemma {:induction false} KeyThen(k: string, rest: string, run: string)
    requires AllWord(k) && forall i :: 0 <= i < |rest| ==> rest[i] < 128 as char
    ensures Scan(k + rest, run) == Scan(rest, run + k)
    decreases |k|
  {
    if k == "" {
      assert k + rest == rest && run + k == run;
    } else {
      assert (k + rest)[1..] == k[1..] + rest;
      KeyThen(k[1..], rest, run + [k[0]]);
      assert run + [k[0]] + k[1..] == run + k;
    }
  }

  predicate Plain7(w: string) { forall i :: 0 <= i < |w| ==> w[i] < 128 as char }

  /** The word w starts with a keyword and a character that ends it. */
  lemma ScanKey(w: string, k: string, c: char, rest: string)
    requires w == k + [c] + rest && k != "" && AllWord(k) && !WordChar(c) && c < 128 as char && Plain7(w)
    ensures Plain7(rest) && Scan(w, "") == [Key(k)] + Other(c) + Scan(rest, "")
  {
    assert forall i :: 0 <= i < |rest| ==> rest[i] == w[|k| + 1 + i];
    var t := [c] + rest;
    assert w == k + t;
    KeyThen(k, t, "");
    assert t[1..] == rest;
    assert "" + k == k;
  }

  lemma ScanOther(w: string, c: char, rest: string)
    requires w == [c] + rest && !WordChar(c) && c < 128 as char && Plain7(w)
    ensures Plain7(rest) && Scan(w, "") == Other(c) + Scan(rest, "")
  {
    assert forall i :: 0 <= i < |rest| ==> rest[i] == w[1 + i];
    assert w[1..] == rest;
    assert [] + Other(c) == Other(c);
  }

  lemma Nest(a: Syms, b: Syms, c: Syms)
    ensures a + b + c == a + (b + c)
  {
  }

  lemma Nest4(a: Syms, b: Syms, c: Syms, d: Syms)
    ensures a + (b + c) + d == a + (b + (c + d))
  {
  }

  lemma {:induction false} ScanConcat(a: string, b: string, run: string)
    requires Plain7(a) && Plain7(b) && !EndsInWord(a) && (a == "" ==> run == "")
    ensures Scan(a + b, run) == Scan(a, run) + Scan(b, "")
    decreases |a|
  {
    if a == "" {
      assert a + b == b && Flush("") + Scan(b, "") == Scan(b, "");
    } else {
      assert (a + b)[1..] == a[1..] + b;
      if WordChar(a[0]) {
        ScanConcat(a[1..], b, run + [a[0]]);
      } else {
        ScanConcat(a[1..], b, "");
        Nest(Flush(run) + Other(a[0]), Scan(a[1..], ""), Scan(b, ""));
      }
    }
  }

  // ----- words

  lemma DotWord()
    ensures TokenSyms(Word(".")) == [DOT]
  {
    ScanOther(".", '.', "");
  }

  lemma AliasWord(w: string, k: string)
    requires w == k + "." && k != "" && AllWord(k) && Plain7(w)
    ensures TokenSyms(Word(w)) == [Key(k), DOT]
  {
    assert w == k + ['.'] + "";
    ScanKey(w, k, '.', "");
  }

  lemma AliasWords()
    ensures TokenSyms(Word("A.")) == [Key("A"), DOT]
    ensures TokenSyms(Word("L.")) == [Key("L"), DOT]
    ensures TokenSyms(Word("R.")) == [Key("R"), DOT]
  {
    AliasWord("A.", "A");
    AliasWord("L.", "L");
    AliasWord("R.", "R");
  }

  lemma EqualsWord()
    ensures TokenSyms(Word(" = ")) == [EQUALS]
  {
    ScanOther(" = ", ' ', "= ");
    ScanOther("= ", '=', " ");
    ScanOther(" ", ' ', "");
  }

  lemma AndWord()
    ensures TokenSyms(Word(" AND ")) == [Key("AND")]
  {
    ScanOther(" AND ", ' ', "AND ");
    ScanKey("AND ", "AND", ' ', "");
  }

  lemma CommaWord()
    ensures TokenSyms(Word(", ")) == [COMMA]
  {
    ScanOther(", ", ',', " ");
    ScanOther(" ", ' ', "");
  }

  lemma LastKey(k: string)
    requires k != "" && AllWord(k) && Plain7(k)
    ensures Scan(k, "") == [Key(k)]
  {
    KeyThen(k, "", "");
    assert k + "" == k && "" + k == k;
  }

  /** A space, a keyword, a space and a keyword. */
  lemma TwoKeys(w: string, k: string, l: string)
    requires w == " " + (k + " ") + l && k != "" && AllWord(k) && Plain7(k) && l != "" && AllWord(l) && Plain7(l)
    ensures TokenSyms(Word(w)) == [Key(k), Key(l)]
  {
    ReadsSpaced(" " + (k + " "), k);
    LastKey(l);
    ReadsTwo(w, " " + (k + " "), [Key(k)], l, [Key(l)]);
  }

  lemma IsNullWord()
    ensures TokenSyms(Word(" IS NULL")) == [Key("IS"), Key("NULL")]
  {
    assert " IS NULL" == " " + ("IS" + " ") + "NULL";
    TwoKeys(" IS NULL", "IS", "NULL");
  }

  // ----- columns and conditions

  lemma TwoTokens(a: Token, b: Token)
    ensures SymsOf([a, b]) == TokenSyms(a) + TokenSyms(b)
  {
    assert [a, b][1..] == [b];
    SymsOne(b);
  }

  lemma {:induction false} PathRead(path: seq<Str>, rest: Syms)
    requires path != [] && !At(rest, DOT)
    ensures ReadPath(SymsOf(TableTokens(path)) + rest) == Got(path, rest)
  {
    if |path| == 1 {
      SymsOne(Name(path[0]));
      LastName(path[0], rest);
      assert path == [path[0]];
    } else {
      PathRead(path[1..], rest);
      PathCons(path);
      var more := SymsOf(TableTokens(path[1..])) + rest;
      Nest([Ident(path[0]), DOT], SymsOf(TableTokens(path[1..])), rest);
      assert ([Ident(path[0]), DOT] + more)[2..] == more;
      PathStep([Ident(path[0]), DOT] + more, path[0], more, path[1..], rest);
      assert path == [path[0]] + path[1..];
    }
  }

  lemma LastName(id: Str, rest: Syms)
    requires !At(rest, DOT)
    ensures ReadPath([Ident(id)] + rest) == Got([id], rest)
  {
    assert ([Ident(id)] + rest)[1..] == rest;
  }

  lemma PathCons(path: seq<Str>)
    requires |path| > 1
    ensures SymsOf(TableTokens(path)) == [Ident(path[0]), DOT] + SymsOf(TableTokens(path[1..]))
  {
    DotWord();
    TwoTokens(Name(path[0]), Word("."));
    SymsConcat([Name(path[0]), Word(".")], TableTokens(path[1..]));
  }

  lemma PathStep(s: Syms, id: Str, more: Syms, path: seq<Str>, rest: Syms)
    requires |s| > 1 && s[0] == Ident(id) && s[1] == DOT && s[2..] == more && ReadPath(more) == Got(path, rest)
    ensures ReadPath(s) == Got([id] + path, rest)
  {
    assert s[1..][0] == DOT;
  }

  lemma {:induction false} TableThenName(path: seq<Str>, name: Str)
    requires path != []
    ensures SymsOf(TableTokens(path) + [Word("."), Name(name)]) == SymsOf(TableTokens(path + [name]))
    decreases |path|
  {
    var tail := [Word("."), Name(name)];
    if |path| == 1 {
      assert (path + [name])[1..] == [name] && path + [name] == [path[0], name];
      assert TableTokens(path) + tail == [Name(path[0]), Word(".")] + TableTokens([name]);
    } else {
      var head := [Name(path[0]), Word(".")];
      TableThenName(path[1..], name);
      assert (path + [name])[1..] == path[1..] + [name];
      assert TableTokens(path) + tail == head + (TableTokens(path[1..]) + tail);
      SymsConcat(head, TableTokens(path[1..]) + tail);
      SymsConcat(head, TableTokens(path[1..] + [name]));
    }
  }

  predicate GoodSource(s: Source) { s.Table? ==> s.path != [] }

  predicate GoodCond(c: Cond) {
    match c
    case ParamEq(col, _) => GoodSource(col.source)
    case ColEq(a, b) => GoodSource(a.source) && GoodSource(b.source)
    case IsNull(col) => GoodSource(col.source)
  }

  lemma AliasColRead(k: string, col: Col, rest: Syms)
    requires AliasOf(Key(k)) == Some(col.source)
    ensures ReadCol([Key(k), DOT, Ident(col.name)] + rest) == Got(col, rest)
  {
    var s := [Key(k), DOT, Ident(col.name)] + rest;
    assert s[3..] == rest;
  }

  lemma TableColRead(path: seq<Str>, name: Str, rest: Syms)
    requires path != [] && !At(rest, DOT)
    ensures ReadCol(SymsOf(TableTokens(path + [name])) + rest) == Got(Col(Table(path), name), rest)
  {
    var all := path + [name];
    PathRead(all, rest);
    assert all[..|all| - 1] == path;
    assert SymsOf(TableTokens(all)) != [] && SymsOf(TableTokens(all))[0] == Ident(all[0]);
  }

  lemma AliasTokens(alias: string, k: string, name: Str)
    requires TokenSyms(Word(alias)) == [Key(k), DOT]
    ensures SymsOf([Word(alias)] + [Name(name)]) == [Key(k), DOT, Ident(name)]
  {
    assert [Word(alias)] + [Name(name)] == [Word(alias), Name(name)];
    TwoTokens(Word(alias), Name(name));
  }

  lemma ColRead(col: Col, rest: Syms)
    requires GoodSource(col.source) && !At(rest, DOT)
    ensures ReadCol(SymsOf(ColTokens(col)) + rest) == Got(col, rest)
  {
    AliasWords();
    match col.source
    case Table(path) =>
      assert ColTokens(col) == TableTokens(path) + [Word("."), Name(col.name)];
      TableThenName(path, col.name);
      TableColRead(path, col.name, rest);
    case A => AliasTokens("A.", "A", col.name); AliasColRead("A", col, rest);
    case L => AliasTokens("L.", "L", col.name); AliasColRead("L", col, rest);
    case R => AliasTokens("R.", "R", col.name); AliasColRead("R", col, rest);
  }

  lemma ParamEqSyms(col: Col, n: nat)
    ensures SymsOf(CondTokens(ParamEq(col, n))) == SymsOf(ColTokens(col)) + [EQUALS, Mark(n)]
  {
    EqualsWord();
    TwoTokens(Word(" = "), Param(n));
    SymsConcat(ColTokens(col), [Word(" = "), Param(n)]);
  }

  lemma ParamEqStep(s: Syms, col: Col, n: nat, rest: Syms)
    requires ReadCol(s) == Got(col, [EQUALS, Mark(n)] + rest)
    ensures ReadCond(s) == Got(ParamEq(col, n), rest)
  {
    assert ([EQUALS, Mark(n)] + rest)[2..] == rest;
  }

  lemma ParamEqRead(col: Col, n: nat, rest: Syms)
    requires GoodSource(col.source)
    ensures ReadCond(SymsOf(CondTokens(ParamEq(col, n))) + rest) == Got(ParamEq(col, n), rest)
  {
    var t := [EQUALS, Mark(n)] + rest;
    ParamEqSyms(col, n);
    Nest(SymsOf(ColTokens(col)), [EQUALS, Mark(n)], rest);
    ColRead(col, t);
    ParamEqStep(SymsOf(ColTokens(col)) + t, col, n, rest);
  }

  lemma ColEqSyms(a: Col, b: Col)
    ensures SymsOf(CondTokens(ColEq(a, b))) == SymsOf(ColTokens(a)) + ([EQUALS] + SymsOf(ColTokens(b)))
  {
    EqualsWord();
    SymsOne(Word(" = "));
    SymsConcat(ColTokens(a), [Word(" = ")]);
    SymsConcat(ColTokens(a) + [Word(" = ")], ColTokens(b));
    Nest(SymsOf(ColTokens(a)), [EQUALS], SymsOf(ColTokens(b)));
  }

  lemma ColEqRead(a: Col, b: Col, rest: Syms)
    requires GoodSource(a.source) && GoodSource(b.source) && !At(rest, DOT)
    ensures ReadCond(SymsOf(CondTokens(ColEq(a, b))) + rest) == Got(ColEq(a, b), rest)
  {
    var x, y := SymsOf(ColTokens(a)), SymsOf(ColTokens(b));
    ColEqSyms(a, b);
    Nest4(x, [EQUALS], y, rest);
    ColRead(a, [EQUALS] + (y + rest));
    ColRead(b, rest);
    ColStarts(b);
    assert (y + rest)[0] == y[0];
    ColEqStep(x + ([EQUALS] + (y + rest)), a, y + rest);
  }

  lemma ColEqStep(s: Syms, a: Col, u: Syms)
    requires ReadCol(s) == Got(a, [EQUALS] + u) && u != [] && !u[0].Mark? && ReadCol(u).Got?
    ensures ReadCond(s) == Got(ColEq(a, ReadCol(u).v), ReadCol(u).rest)
  {
    assert ([EQUALS] + u)[1..] == u;
  }

  lemma ColStarts(col: Col)
    requires GoodSource(col.source)
    ensures SymsOf(ColTokens(col)) != [] && !SymsOf(ColTokens(col))[0].Mark? && !SymsOf(ColTokens(col))[0].Punct?
  {
    AliasWords();
    match col.source
    case Table(path) => assert ColTokens(col)[0] == Name(path[0]);
    case A => AliasTokens("A.", "A", col.name);
    case L => AliasTokens("L.", "L", col.name);
    case R => AliasTokens("R.", "R", col.name);
  }

  lemma IsNullSyms(col: Col)
    ensures SymsOf(CondTokens(IsNull(col))) == SymsOf(ColTokens(col)) + [Key("IS"), Key("NULL")]
  {
    IsNullWord();
    SymsOne(Word(" IS NULL"));
    SymsConcat(ColTokens(col), [Word(" IS NULL")]);
  }

  lemma IsNullStep(s: Syms, col: Col, rest: Syms)
    requires ReadCol(s) == Got(col, [Key("IS"), Key("NULL")] + rest)
    ensures ReadCond(s) == Got(IsNull(col), rest)
  {
    assert ([Key("IS"), Key("NULL")] + rest)[2..] == rest;
  }

  lemma IsNullRead(col: Col, rest: Syms)
    requires GoodSource(col.source)
    ensures ReadCond(SymsOf(CondTokens(IsNull(col))) + rest) == Got(IsNull(col), rest)
  {
    var t := [Key("IS"), Key("NULL")] + rest;
    IsNullSyms(col);
    Nest(SymsOf(ColTokens(col)), [Key("IS"), Key("NULL")], rest);
    ColRead(col, t);
    IsNullStep(SymsOf(ColTokens(col)) + t, col, rest);
  }

  lemma CondRead(c: Cond, rest: Syms)
    requires GoodCond(c) && !At(rest, DOT)
    ensures ReadCond(SymsOf(CondTokens(c)) + rest) == Got(c, rest)
  {
    match c
    case ParamEq(col, n) => ParamEqRead(col, n, rest);
    case ColEq(a, b) => ColEqRead(a, b, rest);
    case IsNull(col) => IsNullRead(col, rest);
  }

  predicate GoodConds(cs: seq<Cond>) { forall i :: 0 <= i < |cs| ==> GoodCond(cs[i]) }

  lemma JoinSyms(parts: seq<seq<Token>>, between: string, y: Sym)
    requires |parts| > 1 && TokenSyms(Word(between)) == [y]
    ensures SymsOf(JoinTokens(parts, between)) == SymsOf(parts[0]) + ([y] + SymsOf(JoinTokens(parts[1..], between)))
  {
    var w := Word(between);
    SymsOne(w);
    SymsConcat(parts[0], [w]);
    SymsConcat(parts[0] + [w], JoinTokens(parts[1..], between));
    Nest(SymsOf(parts[0]), [y], SymsOf(JoinTokens(parts[1..], between)));
  }

  lemma AndCons(cs: seq<Cond>)
    requires |cs| > 1
    ensures SymsOf(AndTokens(cs)) == SymsOf(CondTokens(cs[0])) + ([Key("AND")] + SymsOf(AndTokens(cs[1..])))
  {
    AndWord();
    assert CondParts(cs)[1..] == CondParts(cs[1..]);
    JoinSyms(CondParts(cs), " AND ", Key("AND"));
  }

  lemma AndForm(cs: seq<Cond>, rest: Syms)
    requires |cs| > 1
    ensures SymsOf(AndTokens(cs)) + rest == SymsOf(CondTokens(cs[0])) + ([Key("AND")] + (SymsOf(AndTokens(cs[1..])) + rest))
  {
    AndCons(cs);
    Nest4(SymsOf(CondTokens(cs[0])), [Key("AND")], SymsOf(AndTokens(cs[1..])), rest);
  }

  lemma AndThen(c: Cond, more: Syms)
    requires GoodCond(c) && ReadConds(more).Got?
    ensures ReadConds(SymsOf(CondTokens(c)) + ([Key("AND")] + more)) == Got([c] + ReadConds(more).v, ReadConds(more).rest)
  {
    CondRead(c, [Key("AND")] + more);
    CondsStep(SymsOf(CondTokens(c)) + ([Key("AND")] + more), c, more);
  }

  lemma AndMore(cs: seq<Cond>, rest: Syms)
    requires |cs| > 1 && GoodCond(cs[0]) && ReadConds(SymsOf(AndTokens(cs[1..])) + rest) == Got(cs[1..], rest)
    ensures ReadConds(SymsOf(AndTokens(cs)) + rest) == Got(cs, rest)
  {
    AndForm(cs, rest);
    AndThen(cs[0], SymsOf(AndTokens(cs[1..])) + rest);
    assert cs == [cs[0]] + cs[1..];
  }

  lemma {:induction false} AndRead(cs: seq<Cond>, rest: Syms)
    requires cs != [] && GoodConds(cs) && !At(rest, DOT) && !At(rest, Key("AND"))
    ensures ReadConds(SymsOf(AndTokens(cs)) + rest) == Got(cs, rest)
    decreases |cs|
  {
    if |cs| == 1 {
      assert AndTokens(cs) == CondTokens(cs[0]) && cs == [cs[0]];
      CondRead(cs[0], rest);
    } else {
      AndRead(cs[1..], rest);
      AndMore(cs, rest);
    }
  }

  lemma CondsStep(s: Syms, c: Cond, more: Syms)
    requires ReadCond(s) == Got(c, [Key("AND")] + more) && ReadConds(more).Got?
    ensures ReadConds(s) == Got([c] + ReadConds(more).v, ReadConds(more).rest)
  {
    assert ([Key("AND")] + more)[1..] == more;
  }

  function Cols(source: Source, columns: seq<Str>): (r: seq<Col>)
    ensures |r| == |columns|
  {
    seq(|columns|, i requires 0 <= i < |columns| => Col(source, columns[i]))
  }

  lemma ListCons(source: Source, columns: seq<Str>)
    requires |columns| > 1
    ensures SymsOf(ListTokens(source, columns)) ==
            SymsOf(ColTokens(Col(source, columns[0]))) + ([COMMA] + SymsOf(ListTokens(source, columns[1..])))
  {
    CommaWord();
    assert ColumnParts(source, columns)[1..] == ColumnParts(source, columns[1..]);
    JoinSyms(ColumnParts(source, columns), ", ", COMMA);
  }

  lemma LastColumn(source: Source, columns: seq<Str>, rest: Syms)
    requires |columns| == 1 && GoodSource(source) && !At(rest, DOT) && !At(rest, COMMA)
    ensures ReadCols(SymsOf(ListTokens(source, columns)) + rest) == Got(Cols(source, columns), rest)
  {
    var c := Col(source, columns[0]);
    assert ListTokens(source, columns) == ColTokens(c);
    ColRead(c, rest);
    assert Cols(source, columns) == [c];
  }

  lemma ListMore(source: Source, columns: seq<Str>, rest: Syms)
    requires |columns| > 1 && GoodSource(source)
    requires ReadCols(SymsOf(ListTokens(source, columns[1..])) + rest) == Got(Cols(source, columns[1..]), rest)
    ensures ReadCols(SymsOf(ListTokens(source, columns)) + rest) == Got(Cols(source, columns), rest)
  {
    var c := Col(source, columns[0]);
    var more := SymsOf(ListTokens(source, columns[1..])) + rest;
    ListCons(source, columns);
    Nest4(SymsOf(ColTokens(c)), [COMMA], SymsOf(ListTokens(source, columns[1..])), rest);
    ColRead(c, [COMMA] + more);
    ColsStep(SymsOf(ColTokens(c)) + ([COMMA] + more), c, more);
    assert Cols(source, columns) == [c] + Cols(source, columns[1..]);
  }

  lemma {:induction false} ListRead(source: Source, columns: seq<Str>, rest: Syms)
    requires columns != [] && GoodSource(source) && !At(rest, DOT) && !At(rest, COMMA)
    ensures ReadCols(SymsOf(ListTokens(source, columns)) + rest) == Got(Cols(source, columns), rest)
    decreases |columns|
  {
    if |columns| == 1 {
      LastColumn(source, columns, rest);
    } else {
      ListRead(source, columns[1..], rest);
      ListMore(source, columns, rest);
    }
  }

  lemma ColsStep(s: Syms, c: Col, more: Syms)
    requires ReadCol(s) == Got(c, [COMMA] + more) && ReadCols(more).Got?
    ensures ReadCols(s) == Got([c] + ReadCols(more).v, ReadCols(more).rest)
  {
    assert ([COMMA] + more)[1..] == more;
  }

  // ----- statements

  predicate Closed(rest: Syms) { rest == [] || rest[0] == CLOSE }

  /** The optional limit, then the end of the statement. */
  function LimitSyms(w: string): Syms { if w == "" then [] else [Key("LIMIT"), Key(w)] }
  function LimitValue(w: string): Option<nat>
    requires w == "" || IsNumber(w)
  {
    if w == "" then None else Some(NumberOf(w))
  }

  lemma LimitRead(w: string, rest: Syms)
    requires (w == "" || IsNumber(w)) && Closed(rest)
    ensures ReadLimit(LimitSyms(w) + rest) == Got(LimitValue(w), rest)
  {
    if w == "" {
      assert [] + rest == rest;
    } else {
      assert ([Key("LIMIT"), Key(w)] + rest)[2..] == rest;
    }
  }

  function WhereSyms(where: seq<Cond>): Syms { if where == [] then [] else [Key("WHERE")] + SymsOf(AndTokens(where)) }

  /** rest starts with none of the words that continue a condition or a table. */
  predicate Ended(rest: Syms) { Closed(rest) || rest[0] == Key("LIMIT") }

  lemma WhereRead(where: seq<Cond>, rest: Syms)
    requires GoodConds(where) && Ended(rest)
    ensures ReadWhere(WhereSyms(where) + rest) == Got(where, rest)
  {
    if where == [] {
      assert [] + rest == rest;
    } else {
      Nest([Key("WHERE")], SymsOf(AndTokens(where)), rest);
      AndRead(where, rest);
      assert ([Key("WHERE")] + (SymsOf(AndTokens(where)) + rest))[1..] == SymsOf(AndTokens(where)) + rest;
    }
  }

  predicate AfterOn(rest: Syms) { Ended(rest) || rest[0] == Key("WHERE") }

  lemma JoinedStep(s: Syms, t: Str, k: string, more: Syms)
    requires AliasOf(Key(k)).Some? && ReadConds(more).Got?
    requires ReadPath(s) == Got([t], [Key("AS"), Key(k), Key("ON")] + more)
    ensures ReadJoined(s) == Got(([t], AliasOf(Key(k)).value, ReadConds(more).v), ReadConds(more).rest)
  {
    var tail := [Key("AS"), Key(k), Key("ON")] + more;
    assert tail[2..] == [Key("ON")] + more && tail[2..][1..] == more;
  }

  lemma JoinedRead(t: Str, k: string, on: seq<Cond>, rest: Syms)
    requires AliasOf(Key(k)).Some? && on != [] && GoodConds(on) && AfterOn(rest)
    ensures ReadJoined([Ident(t), Key("AS"), Key(k), Key("ON")] + (SymsOf(AndTokens(on)) + rest)) ==
            Got(([t], AliasOf(Key(k)).value, on), rest)
  {
    var more := SymsOf(AndTokens(on)) + rest;
    var tail := [Key("AS"), Key(k), Key("ON")] + more;
    LastName(t, tail);
    assert [Ident(t), Key("AS"), Key(k), Key("ON")] + more == [Ident(t)] + tail;
    AndRead(on, rest);
    JoinedStep([Ident(t)] + tail, t, k, more);
  }

  lemma TailRead(items: Items, from: seq<Str>, alias: Option<Source>, s: Syms, join: Join, where: seq<Cond>, w: string, rest: Syms)
    requires (w == "" || IsNumber(w)) && Closed(rest) && GoodConds(where)
    requires ReadJoin(s) == Got(join, WhereSyms(where) + (LimitSyms(w) + rest))
    ensures ReadTail(items, from, alias, s) == Got(Select(items, from, alias, join, where, LimitValue(w)), rest)
  {
    WhereRead(where, LimitSyms(w) + rest);
    LimitRead(w, rest);
  }

  /** What remains after the table of a statement without alias and join. */
  lemma PlainTail(items: Items, from: seq<Str>, where: seq<Cond>, w: string, rest: Syms)
    requires (w == "" || IsNumber(w)) && Closed(rest) && GoodConds(where)
    ensures var s := WhereSyms(where) + (LimitSyms(w) + rest);
            && ReadAlias(s) == Got(None, s) && !At(s, DOT)
            && ReadTail(items, from, None, s) == Got(Select(items, from, None, NoJoin, where, LimitValue(w)), rest)
  {
    var s := WhereSyms(where) + (LimitSyms(w) + rest);
    TailStarts(where, w, rest);
    NoJoinRead(s);
    TailRead(items, from, None, s, NoJoin, where, w, rest);
  }

  lemma TailStarts(where: seq<Cond>, w: string, rest: Syms)
    requires Closed(rest)
    ensures var s := WhereSyms(where) + (LimitSyms(w) + rest); AfterOn(s)
  {
    if where == [] {
      assert [] + (LimitSyms(w) + rest) == LimitSyms(w) + rest;
      assert w == "" ==> LimitSyms(w) + rest == rest;
    }
  }

  lemma NoJoinRead(s: Syms)
    requires AfterOn(s)
    ensures ReadJoin(s) == Got(NoJoin, s) && ReadAlias(s) == Got(None, s) && !At(s, DOT)
  {
    assert "WHERE"[0] != "INNER"[0] && "LIMIT"[0] != "INNER"[0] && |"WHERE"| != |"LEFT"| && |"LIMIT"| != |"LEFT"|;
    assert |"WHERE"| != |"AS"| && |"LIMIT"| != |"AS"|;
    assert !At(s, Key("LEFT")) && !At(s, Key("INNER")) && !At(s, Key("AS"));
  }

  /** The symbols are read as the items, whatever follows FROM. */
  ghost predicate ItemsAre(items: Items, syms: Syms) {
    forall more :: ReadItems(syms + ([Key("FROM")] + more)) == Got(items, [Key("FROM")] + more)
  }

  lemma SelectRead(items: Items, syms: Syms, from: seq<Str>, tail: Syms)
    requires ItemsAre(items, syms) && from != [] && !At(tail, DOT) && ReadAlias(tail).Got?
    ensures ReadSelect([Key("SELECT")] + (syms + ([Key("FROM")] + (SymsOf(TableTokens(from)) + tail)))) ==
            ReadTail(items, from, ReadAlias(tail).v, ReadAlias(tail).rest)
  {
    var more := SymsOf(TableTokens(from)) + tail;
    var s := [Key("SELECT")] + (syms + ([Key("FROM")] + more));
    assert s[1..] == syms + ([Key("FROM")] + more);
    assert ([Key("FROM")] + more)[1..] == more;
    PathRead(from, tail);
  }

  lemma CountItems()
    ensures ItemsAre(CountAll, [Key("COUNT"), OPEN, STAR, CLOSE] + AS_V)
  {
    var syms := [Key("COUNT"), OPEN, STAR, CLOSE] + AS_V;
    forall more ensures ReadItems(syms + ([Key("FROM")] + more)) == Got(CountAll, [Key("FROM")] + more) {
      assert (syms + ([Key("FROM")] + more))[6..] == [Key("FROM")] + more;
    }
  }

  lemma SumItems(column: Str)
    ensures ItemsAre(SumOrZero(column), [Key("COALESCE"), OPEN, Key("SUM"), OPEN, Ident(column), CLOSE, COMMA, Key("0"), CLOSE] + AS_V)
  {
    var syms := [Key("COALESCE"), OPEN, Key("SUM"), OPEN, Ident(column), CLOSE, COMMA, Key("0"), CLOSE] + AS_V;
    forall more ensures ReadItems(syms + ([Key("FROM")] + more)) == Got(SumOrZero(column), [Key("FROM")] + more) {
      var s := syms + ([Key("FROM")] + more);
      assert s[11..] == [Key("FROM")] + more;
      assert s[5..] == [CLOSE, COMMA, Key("0"), CLOSE] + AS_V + ([Key("FROM")] + more);
      assert s[0] != Key("COUNT");
    }
  }

  lemma OneItems()
    ensures ItemsAre(One, [Key("1")])
  {
    forall more ensures ReadItems([Key("1")] + ([Key("FROM")] + more)) == Got(One, [Key("FROM")] + more) {
      var s := [Key("1")] + ([Key("FROM")] + more);
      assert s[1..] == [Key("FROM")] + more;
      assert s[0] != Key("COUNT") && s[0] != Key("COALESCE");
    }
  }

  lemma EveryItems()
    ensures ItemsAre(Every, [STAR])
  {
    forall more ensures ReadItems([STAR] + ([Key("FROM")] + more)) == Got(Every, [Key("FROM")] + more) {
      var s := [STAR] + ([Key("FROM")] + more);
      assert s[1..] == [Key("FROM")] + more;
      assert s[0] != Key("COUNT") && s[0] != Key("COALESCE");
    }
  }

  lemma ListStarts(source: Source, columns: seq<Str>)
    requires columns != [] && GoodSource(source)
    ensures var s := SymsOf(ListTokens(source, columns)); s != [] && (s[0].Ident? || AliasOf(s[0]).Some?)
  {
    var c := Col(source, columns[0]);
    ColHead(c);
    if |columns| == 1 {
      assert ListTokens(source, columns) == ColTokens(c);
    } else {
      ListCons(source, columns);
    }
  }

  lemma ColHead(col: Col)
    requires GoodSource(col.source)
    ensures var s := SymsOf(ColTokens(col)); s != [] && (s[0].Ident? || AliasOf(s[0]).Some?)
  {
    AliasWords();
    match col.source
    case Table(path) => assert ColTokens(col)[0] == Name(path[0]);
    case A => AliasTokens("A.", "A", col.name);
    case L => AliasTokens("L.", "L", col.name);
    case R => AliasTokens("R.", "R", col.name);
  }

  lemma ListItems(source: Source, columns: seq<Str>)
    requires columns != [] && GoodSource(source)
    ensures ItemsAre(Columns(Cols(source, columns)), SymsOf(ListTokens(source, columns)))
  {
    var syms := SymsOf(ListTokens(source, columns));
    ListStarts(source, columns);
    forall more ensures ReadItems(syms + ([Key("FROM")] + more)) == Got(Columns(Cols(source, columns)), [Key("FROM")] + more) {
      var s := syms + ([Key("FROM")] + more);
      assert s[0] == syms[0];
      ListRead(source, columns, [Key("FROM")] + more);
    }
  }

  lemma WhereSymsOf(where: seq<Cond>)
    ensures SymsOf(WhereTokens(where)) == WhereSyms(where)
  {
    if where != [] {
      WhereWord();
      SymsOne(Word(" WHERE "));
      SymsConcat([Word(" WHERE ")], AndTokens(where));
    }
  }

  /** SELECT items FROM table, in front of whatever follows. */
  function HeadSyms(items: Syms): Syms { [Key("SELECT")] + (items + [Key("FROM")]) }

  lemma HeadNests(items: Syms, table: Syms, tail: Syms)
    ensures HeadSyms(items) + (table + tail) == [Key("SELECT")] + (items + ([Key("FROM")] + (table + tail)))
  {
  }

  lemma HeadRead(items: Items, syms: Syms, from: seq<Str>, tail: Syms)
    requires ItemsAre(items, syms) && from != [] && !At(tail, DOT) && ReadAlias(tail).Got?
    ensures ReadSelect(HeadSyms(syms) + (SymsOf(TableTokens(from)) + tail)) ==
            ReadTail(items, from, ReadAlias(tail).v, ReadAlias(tail).rest)
  {
    HeadNests(syms, SymsOf(TableTokens(from)), tail);
    SelectRead(items, syms, from, tail);
  }

  /** A statement over one table. */
  lemma PlainRead(items: Items, syms: Syms, from: seq<Str>, where: seq<Cond>, w: string, rest: Syms)
    requires ItemsAre(items, syms) && from != [] && GoodConds(where) && (w == "" || IsNumber(w)) && Closed(rest)
    ensures ReadSelect(HeadSyms(syms) + (SymsOf(TableTokens(from)) + (WhereSyms(where) + (LimitSyms(w) + rest)))) ==
            Got(Select(items, from, None, NoJoin, where, LimitValue(w)), rest)
  {
    PlainTail(items, from, where, w, rest);
    HeadRead(items, syms, from, WhereSyms(where) + (LimitSyms(w) + rest));
  }

  function LinkSyms(alias: string, kind: string): Syms { [Key("AS"), Key(alias)] + [Key(kind), Key("JOIN")] }
  function OnSyms(alias: string): Syms { [Key("AS"), Key(alias)] + [Key("ON")] }

  /** The join of a statement over two tables, LEFT or INNER. */
  function JoinOf(left: bool, right: Str, alias: Source, on: seq<Cond>): Join {
    if left then LeftOf([right], alias, on) else InnerOf([right], alias, on)
  }

  function KindOf(left: bool): string { if left then "LEFT" else "INNER" }

  lemma JoinStep(left: bool, s: Syms)
    requires ReadJoined(s).Got? && |ReadJoined(s).v.0| == 1
    ensures var j := ReadJoined(s).v;
            ReadJoin([Key(KindOf(left)), Key("JOIN")] + s) == Got(JoinOf(left, j.0[0], j.1, j.2), ReadJoined(s).rest)
  {
    var t := [Key(KindOf(left)), Key("JOIN")] + s;
    assert t[2..] == s;
    assert ReadJoined(s).v.0 == [ReadJoined(s).v.0[0]];
    if left {
      assert [Key("LEFT"), Key("JOIN")] <= t;
    } else {
      assert |"LEFT"| != |"INNER"| && t[0] == Key("INNER");
      assert [Key("INNER"), Key("JOIN")] <= t && !([Key("LEFT"), Key("JOIN")] <= t);
    }
  }

  lemma JoinRead(left: bool, r: Str, k: string, on: seq<Cond>, rest: Syms)
    requires AliasOf(Key(k)).Some? && on != [] && GoodConds(on) && AfterOn(rest)
    ensures ReadJoin([Key(KindOf(left)), Key("JOIN")] + ([Ident(r)] + (OnSyms(k) + (SymsOf(AndTokens(on)) + rest)))) ==
            Got(JoinOf(left, r, AliasOf(Key(k)).value, on), rest)
  {
    var more := SymsOf(AndTokens(on)) + rest;
    JoinedRead(r, k, on, rest);
    Names3(r, k, more);
    JoinStep(left, [Ident(r)] + (OnSyms(k) + more));
  }

  lemma Names3(r: Str, k: string, more: Syms)
    ensures [Ident(r)] + (OnSyms(k) + more) == [Ident(r), Key("AS"), Key(k), Key("ON")] + more
  {
    assert [Ident(r)] + OnSyms(k) == [Ident(r), Key("AS"), Key(k), Key("ON")];
    Nest([Ident(r)], OnSyms(k), more);
  }

  lemma LinkRead(alias: string, kind: string, more: Syms)
    requires AliasOf(Key(alias)).Some?
    ensures var s := LinkSyms(alias, kind) + more;
            !At(s, DOT) && ReadAlias(s) == Got(AliasOf(Key(alias)), [Key(kind), Key("JOIN")] + more)
  {
    var s := LinkSyms(alias, kind) + more;
    assert s[2..] == [Key(kind), Key("JOIN")] + more;
  }

  /** A statement over two tables. */
  lemma JoinSelectRead(items: Items, syms: Syms, left: bool, l: Str, alias: string, r: Str, k: string, on: seq<Cond>,
                       where: seq<Cond>, w: string)
    requires ItemsAre(items, syms) && AliasOf(Key(alias)).Some? && AliasOf(Key(k)).Some?
    requires on != [] && GoodConds(on) && GoodConds(where) && (w == "" || IsNumber(w))
    ensures ReadSelect(HeadSyms(syms) + (SymsOf(TableTokens([l])) + (LinkSyms(alias, KindOf(left)) + ([Ident(r)] + (OnSyms(k)
                       + (SymsOf(AndTokens(on)) + (WhereSyms(where) + (LimitSyms(w) + []))))))))
            == Got(Select(items, [l], AliasOf(Key(alias)), JoinOf(left, r, AliasOf(Key(k)).value, on), where, LimitValue(w)), [])
  {
    var tail := WhereSyms(where) + (LimitSyms(w) + []);
    var joined := [Ident(r)] + (OnSyms(k) + (SymsOf(AndTokens(on)) + tail));
    TailStarts(where, w, []);
    JoinRead(left, r, k, on, tail);
    LinkRead(alias, KindOf(left), joined);
    HeadRead(items, syms, [l], LinkSyms(alias, KindOf(left)) + joined);
    TailRead(items, [l], AliasOf(Key(alias)), [Key(KindOf(left)), Key("JOIN")] + joined,
             JoinOf(left, r, AliasOf(Key(k)).value, on), where, w, []);
  }

  /** A statement that does not start with SELECT EXISTS. */
  lemma PlainStatement(syms: Syms, more: Syms, select: Select)
    requires syms != [] && syms[0] != Key("EXISTS") && ReadSelect(HeadSyms(syms) + more) == Got(select, [])
    ensures ReadStatement(HeadSyms(syms) + more) == Some(Plain(select))
  {
    assert (HeadSyms(syms) + more)[1] == syms[0];
  }

  lemma ExistsStatement(s: Syms, select: Select)
    requires ReadSelect(s) == Got(select, [CLOSE] + AS_V)
    ensures ReadStatement([Key("SELECT"), Key("EXISTS"), OPEN] + s) == Some(Existence(select))
  {
    assert ([Key("SELECT"), Key("EXISTS"), OPEN] + s)[3..] == s;
  }

  // ----- the words of the generated statements, from their keywords

  ghost predicate Reads(w: string, syms: Syms) { Plain7(w) && Scan(w, "") == syms }

  lemma ReadsKey(w: string, k: string, c: char)
    requires w == k + [c] && k != "" && AllWord(k) && Plain7(k) && !WordChar(c) && c < 128 as char
    ensures Reads(w, [Key(k)] + Other(c))
  {
    assert w == k + [c] + "";
    ScanKey(w, k, c, "");
  }

  lemma ReadsOther(w: string, c: char)
    requires w == [c] && !WordChar(c) && c < 128 as char
    ensures Reads(w, Other(c))
  {
    ScanOther(w, c, "");
  }

  lemma ReadsTwo(w: string, a: string, x: Syms, b: string, y: Syms)
    requires w == a + b && Reads(a, x) && Reads(b, y) && !EndsInWord(a)
    ensures Reads(w, x + y)
  {
    ScanConcat(a, b, "");
  }

  lemma ReadsToken(w: string, syms: Syms)
    requires Reads(w, syms)
    ensures TokenSyms(Word(w)) == syms
  {
  }

  /** A space, a keyword, a space. */
  lemma ReadsSpaced(w: string, k: string)
    requires w == " " + (k + " ") && k != "" && AllWord(k) && Plain7(k)
    ensures Reads(w, [Key(k)])
  {
    ReadsOther(" ", ' ');
    ReadsKey(k + " ", k, ' ');
    ReadsTwo(w, " ", [], k + " ", [Key(k)]);
  }

  lemma ReadsTwoKeys(w: string, k: string, l: string)
    requires w == k + " " + (l + " ") && k != "" && AllWord(k) && Plain7(k) && l != "" && AllWord(l) && Plain7(l)
    ensures Reads(w, [Key(k), Key(l)])
  {
    ReadsKey(k + " ", k, ' ');
    ReadsKey(l + " ", l, ' ');
    ReadsTwo(w, k + " ", [Key(k)], l + " ", [Key(l)]);
  }

  lemma SelectWord()
    ensures Reads("SELECT ", [Key("SELECT")])
  {
    ReadsKey("SELECT ", "SELECT", ' ');
  }

  lemma SelectThen(w: string, rest: string, y: Syms)
    requires w == "SELECT " + rest && Reads(rest, y)
    ensures Reads(w, [Key("SELECT")] + y)
  {
    SelectWord();
    ReadsTwo(w, "SELECT ", [Key("SELECT")], rest, y);
  }

  lemma FromWord()
    ensures Reads(" FROM ", [Key("FROM")])
  {
    ReadsSpaced(" FROM ", "FROM");
  }

  lemma WhereWord()
    ensures Reads(" WHERE ", [Key("WHERE")])
  {
    ReadsSpaced(" WHERE ", "WHERE");
  }

  lemma VFromWord()
    ensures Reads("v FROM ", [Key("v"), Key("FROM")])
  {
    ReadsTwoKeys("v FROM ", "v", "FROM");
  }

  lemma AsWord()
    ensures Reads(" AS ", [Key("AS")])
  {
    ReadsSpaced(" AS ", "AS");
  }

  lemma AsVFromWord()
    ensures Reads(" AS v FROM ", AS_V + [Key("FROM")])
  {
    assert " AS v FROM " == " AS " + "v FROM ";
    AsWord();
    VFromWord();
    ReadsTwo(" AS v FROM ", " AS ", [Key("AS")], "v FROM ", [Key("v"), Key("FROM")]);
    assert [Key("AS")] + [Key("v"), Key("FROM")] == AS_V + [Key("FROM")];
  }

  lemma VFromThen(w: string, a: string, x: Syms)
    requires w == a + " AS v FROM " && Reads(a, x) && !EndsInWord(a)
    ensures Reads(w, x + (AS_V + [Key("FROM")]))
  {
    AsVFromWord();
    ReadsTwo(w, a, x, " AS v FROM ", AS_V + [Key("FROM")]);
  }

  lemma StarWord()
    ensures Reads("*)", [STAR, CLOSE])
  {
    assert "*)" == "*" + ")";
    ReadsOther("*", '*');
    ReadsOther(")", ')');
    ReadsTwo("*)", "*", [STAR], ")", [CLOSE]);
  }

  lemma CountWord()
    ensures Reads("COUNT(*)", [Key("COUNT"), OPEN, STAR, CLOSE])
  {
    assert "COUNT(*)" == "COUNT(" + "*)";
    ReadsKey("COUNT(", "COUNT", '(');
    StarWord();
    ReadsTwo("COUNT(*)", "COUNT(", [Key("COUNT"), OPEN], "*)", [STAR, CLOSE]);
  }

  lemma CountFromWord()
    ensures Reads("COUNT(*) AS v FROM ", [Key("COUNT"), OPEN, STAR, CLOSE] + AS_V + [Key("FROM")])
  {
    assert "COUNT(*) AS v FROM " == "COUNT(*)" + " AS v FROM ";
    CountWord();
    VFromThen("COUNT(*) AS v FROM ", "COUNT(*)", [Key("COUNT"), OPEN, STAR, CLOSE]);
    Nest([Key("COUNT"), OPEN, STAR, CLOSE], AS_V, [Key("FROM")]);
  }

  lemma SelectCountWord()
    ensures Reads("SELECT COUNT(*) AS v FROM ", [Key("SELECT")] + ([Key("COUNT"), OPEN, STAR, CLOSE] + AS_V + [Key("FROM")]))
  {
    assert "SELECT COUNT(*) AS v FROM " == "SELECT " + "COUNT(*) AS v FROM ";
    CountFromWord();
    SelectThen("SELECT COUNT(*) AS v FROM ", "COUNT(*) AS v FROM ", [Key("COUNT"), OPEN, STAR, CLOSE] + AS_V + [Key("FROM")]);
  }

  lemma SelectOneWord()
    ensures Reads("SELECT 1 FROM ", [Key("SELECT")] + ([Key("1")] + [Key("FROM")]))
  {
    assert "SELECT 1 FROM " == "SELECT " + "1 FROM ";
    ReadsTwoKeys("1 FROM ", "1", "FROM");
    SelectThen("SELECT 1 FROM ", "1 FROM ", [Key("1"), Key("FROM")]);
    assert [Key("1"), Key("FROM")] == [Key("1")] + [Key("FROM")];
  }

  lemma ExistsOpenWord()
    ensures Reads("EXISTS (", [Key("EXISTS"), OPEN])
  {
    assert "EXISTS (" == "EXISTS " + "(";
    ReadsKey("EXISTS ", "EXISTS", ' ');
    ReadsOther("(", '(');
    ReadsTwo("EXISTS (", "EXISTS ", [Key("EXISTS")], "(", [OPEN]);
  }

  lemma OpenWord()
    ensures Reads("SELECT EXISTS (", [Key("SELECT"), Key("EXISTS"), OPEN])
  {
    assert "SELECT EXISTS (" == "SELECT " + "EXISTS (";
    ExistsOpenWord();
    SelectThen("SELECT EXISTS (", "EXISTS (", [Key("EXISTS"), OPEN]);
  }

  lemma ExistsWord()
    ensures Reads("SELECT EXISTS (SELECT 1 FROM ",
                  [Key("SELECT"), Key("EXISTS"), OPEN] + ([Key("SELECT")] + ([Key("1")] + [Key("FROM")])))
  {
    assert "SELECT EXISTS (SELECT 1 FROM " == "SELECT EXISTS (" + "SELECT 1 FROM ";
    OpenWord();
    SelectOneWord();
    ReadsTwo("SELECT EXISTS (SELECT 1 FROM ", "SELECT EXISTS (", [Key("SELECT"), Key("EXISTS"), OPEN],
             "SELECT 1 FROM ", [Key("SELECT")] + ([Key("1")] + [Key("FROM")]));
  }

  lemma LastVWord()
    ensures Reads("v", [Key("v")])
  {
    LastKey("v");
  }

  lemma AsVWord()
    ensures Reads(" AS v", AS_V)
  {
    assert " AS v" == " AS " + "v";
    AsWord();
    LastVWord();
    ReadsTwo(" AS v", " AS ", [Key("AS")], "v", [Key("v")]);
  }

  lemma LimitHead()
    ensures Reads(" LIMIT ", [Key("LIMIT")])
  {
    ReadsSpaced(" LIMIT ", "LIMIT");
  }

  lemma OneCloseWord()
    ensures Reads("1) AS v", [Key("1"), CLOSE] + AS_V)
  {
    assert "1) AS v" == "1)" + " AS v";
    AsVWord();
    ReadsKey("1)", "1", ')');
    ReadsTwo("1) AS v", "1)", [Key("1"), CLOSE], " AS v", AS_V);
  }

  lemma LimitOneWord()
    ensures Reads(" LIMIT 1) AS v", LimitSyms("1") + ([CLOSE] + AS_V))
  {
    assert " LIMIT 1) AS v" == " LIMIT " + "1) AS v";
    LimitHead();
    OneCloseWord();
    ReadsTwo(" LIMIT 1) AS v", " LIMIT ", [Key("LIMIT")], "1) AS v", [Key("1"), CLOSE] + AS_V);
    assert [Key("LIMIT")] + ([Key("1"), CLOSE] + AS_V) == LimitSyms("1") + ([CLOSE] + AS_V);
  }

  lemma LimitWord(w: string, k: string)
    requires w == " LIMIT " + k && k != "" && AllWord(k) && Plain7(k)
    ensures Reads(w, LimitSyms(k))
  {
    LimitHead();
    LastKey(k);
    ReadsTwo(w, " LIMIT ", [Key("LIMIT")], k, [Key(k)]);
  }

  lemma CoalesceWord()
    ensures Reads("COALESCE(SUM(", [Key("COALESCE"), OPEN, Key("SUM"), OPEN])
  {
    assert "COALESCE(SUM(" == "COALESCE(" + "SUM(";
    ReadsKey("COALESCE(", "COALESCE", '(');
    ReadsKey("SUM(", "SUM", '(');
    ReadsTwo("COALESCE(SUM(", "COALESCE(", [Key("COALESCE"), OPEN], "SUM(", [Key("SUM"), OPEN]);
  }

  lemma SumOpenWord()
    ensures Reads("SELECT COALESCE(SUM(", [Key("SELECT"), Key("COALESCE"), OPEN, Key("SUM"), OPEN])
  {
    assert "SELECT COALESCE(SUM(" == "SELECT " + "COALESCE(SUM(";
    CoalesceWord();
    SelectThen("SELECT COALESCE(SUM(", "COALESCE(SUM(", [Key("COALESCE"), OPEN, Key("SUM"), OPEN]);
  }

  lemma CommaSpaceWord()
    ensures Reads("), ", [CLOSE, COMMA])
  {
    assert ", " == "," + " ";
    assert "), " == ")" + ", ";
    ReadsOther(")", ')');
    ReadsOther(",", ',');
    ReadsOther(" ", ' ');
    ReadsTwo(", ", ",", [COMMA], " ", []);
    ReadsTwo("), ", ")", [CLOSE], ", ", [COMMA]);
  }

  lemma ZeroWord()
    ensures Reads("), 0)", [CLOSE, COMMA, Key("0"), CLOSE])
  {
    assert "), 0)" == "), " + "0)";
    CommaSpaceWord();
    ReadsKey("0)", "0", ')');
    ReadsTwo("), 0)", "), ", [CLOSE, COMMA], "0)", [Key("0"), CLOSE]);
  }

  lemma SumCloseWord()
    ensures Reads("), 0) AS v FROM ", [CLOSE, COMMA, Key("0"), CLOSE] + (AS_V + [Key("FROM")]))
  {
    assert "), 0) AS v FROM " == "), 0)" + " AS v FROM ";
    ZeroWord();
    VFromThen("), 0) AS v FROM ", "), 0)", [CLOSE, COMMA, Key("0"), CLOSE]);
  }

  /** AS alias and two more keywords, or one. */
  lemma AliasWordThen(w: string, alias: string, rest: string, syms: Syms)
    requires w == " AS " + (alias + " " + rest) && alias != "" && AllWord(alias) && Plain7(alias) && Reads(rest, syms)
    ensures Reads(w, [Key("AS"), Key(alias)] + syms)
  {
    AsWord();
    ReadsKey(alias + " ", alias, ' ');
    ReadsTwo(alias + " " + rest, alias + " ", [Key(alias)], rest, syms);
    ReadsTwo(w, " AS ", [Key("AS")], alias + " " + rest, [Key(alias)] + syms);
    assert [Key("AS")] + ([Key(alias)] + syms) == [Key("AS"), Key(alias)] + syms;
  }

  lemma LeftJoinWord()
    ensures Reads(" AS A LEFT JOIN ", [Key("AS"), Key("A")] + [Key("LEFT"), Key("JOIN")])
  {
    ReadsTwoKeys("LEFT JOIN ", "LEFT", "JOIN");
    AliasWordThen(" AS A LEFT JOIN ", "A", "LEFT JOIN ", [Key("LEFT"), Key("JOIN")]);
  }

  lemma InnerJoinWord()
    ensures Reads(" AS L INNER JOIN ", [Key("AS"), Key("L")] + [Key("INNER"), Key("JOIN")])
  {
    ReadsTwoKeys("INNER JOIN ", "INNER", "JOIN");
    AliasWordThen(" AS L INNER JOIN ", "L", "INNER JOIN ", [Key("INNER"), Key("JOIN")]);
  }

  lemma OnWord(w: string, alias: string)
    requires w == " AS " + (alias + " " + "ON ") && alias != "" && AllWord(alias) && Plain7(alias)
    ensures Reads(w, [Key("AS"), Key(alias)] + [Key("ON")])
  {
    ReadsKey("ON ", "ON", ' ');
    AliasWordThen(w, alias, "ON ", [Key("ON")]);
  }

  lemma EveryWord()
    ensures Reads("SELECT * FROM ", [Key("SELECT")] + ([STAR] + [Key("FROM")]))
  {
    assert "* FROM " == "*" + " FROM ";
    assert "SELECT * FROM " == "SELECT " + "* FROM ";
    SelectWord();
    FromWord();
    ReadsOther("*", '*');
    ReadsTwo("* FROM ", "*", [STAR], " FROM ", [Key("FROM")]);
    ReadsTwo("SELECT * FROM ", "SELECT ", [Key("SELECT")], "* FROM ", [STAR] + [Key("FROM")]);
  }
}
