/** The relational check compiler: checks to SQL, SQL to its meaning, scalar to verdict (src/relationalInvariant.ts). */
module RelationalCheck {
  import opened Sorting
  import opened Utf16
  import opened SqlQuery
  import Verdicts

  datatype SideEq = SideEq(left: bool, column: Str, value: Str)
  datatype Op = OpEq | OpGte | OpLte
  datatype AggregateFn = CountStar | SumOf(column: Str)

  datatype Check =
    | RelatedExists(childTable: Str, matchEq: seq<Eq>)
    | AntiJoin(anchorTable: Str, lookupTable: Str, anchorColumn: Str, lookupColumn: Str, presence: Str,
               filterAnchor: seq<Eq>, filterLookup: seq<Eq>)
    | Aggregate(table: Str, fn: AggregateFn, aggregateEq: seq<Eq>, op: Op, expected: real)
    | JoinCount(leftTable: Str, rightTable: Str, leftColumn: Str, rightColumn: Str, whereEq: seq<SideEq>, op: Op, expected: real)

  // ----- queries

  /** A join query counts rows, or lists columns of its left table if it has a projection. */
  datatype Query =
    | SelectExists(table: Str, where: seq<Cond>)
    | SelectCount(table: Str, where: seq<Cond>)
    | SelectSum(table: Str, column: Str, where: seq<Cond>)
    | LeftJoin(projection: seq<Str>, left: Str, right: Str, on: seq<Cond>, where: seq<Cond>)
    | InnerJoin(left: Str, right: Str, on: seq<Cond>, where: seq<Cond>)

  function SideConds(eqs: seq<SideEq>, first: nat): (r: seq<Cond>)
    ensures |r| == |eqs|
  {
    seq(|eqs|, i requires 0 <= i < |eqs| => ParamEq(Col(if eqs[i].left then L else R, eqs[i].column), first + i))
  }

  function SideValues(eqs: seq<SideEq>): (r: seq<Str>)
    ensures |r| == |eqs|
  {
    seq(|eqs|, i requires 0 <= i < |eqs| => eqs[i].value)
  }

  function AntiJoinQuery(c: Check, projection: seq<Str>): Query
    requires c.AntiJoin?
  {
    LeftJoin(projection, c.anchorTable, c.lookupTable,
             [ColEq(Col(A, c.anchorColumn), Col(L, c.lookupColumn))] + ParamConds(L, c.filterLookup, 1),
             [IsNull(Col(L, c.presence))] + ParamConds(A, c.filterAnchor, 1 + |c.filterLookup|))
  }

  function Compile(c: Check): Query {
    match c
    case RelatedExists(t, m) => SelectExists(t, ParamConds(Table([t]), m, 1))
    case AntiJoin(_, _, _, _, _, _, _) => AntiJoinQuery(c, [])
    case Aggregate(t, CountStar, w, _, _) => SelectCount(t, ParamConds(Table([t]), w, 1))
    case Aggregate(t, SumOf(col), w, _, _) => SelectSum(t, col, ParamConds(Table([t]), w, 1))
    case JoinCount(l, r, lc, rc, w, _, _) => InnerJoin(l, r, [ColEq(Col(L, lc), Col(R, rc))], SideConds(w, 1))
  }

  function Values(c: Check): seq<Str> {
    match c
    case RelatedExists(_, m) => EqValues(m)
    case AntiJoin(_, _, _, _, _, fa, fl) => EqValues(fl) + EqValues(fa)
    case Aggregate(_, _, w, _, _) => EqValues(w)
    case JoinCount(_, _, _, _, w, _, _) => SideValues(w)
  }

  // ----- the meaning of a query: three-valued conditions over tables with NULLs

  datatype Atom = Number(r: real) | Text(s: Str)
  datatype Value = Null | Val(v: Atom)
  type Row = map<Str, Value>
  type Rows = seq<Row>

  /** A table: its columns and its rows, in which a column without an entry is NULL. */
  datatype Relation = Relation(columns: set<Str>, rows: Rows)

  /** The database, with the comparisons that its collations and type coercions define. */
  datatype Db = Db(tables: map<Str, Relation>, eq: (Atom, Atom) -> bool, eqParam: (Atom, Str) -> bool, num: Atom -> real)

  datatype Tri = True | False | Unknown

  /** An outer join pads with a row of NULLs, which has no column that is not NULL. */
  datatype Env = Single(row: Row) | Outer(left: Row, right: Row) | Inner(left: Row, right: Row)

  function Get(row: Row, column: Str): Value { if column in row then row[column] else Null }

  function RowOf(env: Env, s: Source): Row {
    match (env, s)
    case (Single(row), Table(_)) => row
    case (Outer(l, _), A) => l
    case (Outer(_, r), L) => r
    case (Inner(l, _), L) => l
    case (Inner(_, r), R) => r
    case _ => map[]
  }

  function EvalCond(db: Db, values: seq<Str>, env: Env, c: Cond): Tri {
    match c
    case ParamEq(col, n) =>
      var v := Get(RowOf(env, col.source), col.name);
      if v.Null? || !(1 <= n <= |values|) then Unknown else if db.eqParam(v.v, values[n - 1]) then True else False
    case ColEq(a, b) =>
      var v, w := Get(RowOf(env, a.source), a.name), Get(RowOf(env, b.source), b.name);
      if v.Null? || w.Null? then Unknown else if db.eq(v.v, w.v) then True else False
    case IsNull(col) => if Get(RowOf(env, col.source), col.name).Null? then True else False
  }

  function And(a: Tri, b: Tri): Tri {
    if a.False? || b.False? then False else if a.Unknown? || b.Unknown? then Unknown else True
  }

  function EvalAll(db: Db, values: seq<Str>, env: Env, cs: seq<Cond>): Tri {
    if cs == [] then True else And(EvalCond(db, values, env, cs[0]), EvalAll(db, values, env, cs[1..]))
  }

  /** WHERE and ON keep a row only if the condition is true, not if it is unknown. */
  predicate Keeps(db: Db, values: seq<Str>, env: Env, cs: seq<Cond>) {
    EvalAll(db, values, env, cs).True?
  }

  function Partners(db: Db, values: seq<Str>, a: Row, rights: Rows, on: seq<Cond>): Rows {
    Filter((l: Row) => Keeps(db, values, Outer(a, l), on), rights)
  }

  /** One row of the left table after the outer join: paired with its partners, or padded. */
  function Padded(db: Db, values: seq<Str>, a: Row, rights: Rows, on: seq<Cond>): Rows {
    var ps := Partners(db, values, a, rights, on);
    if ps == [] then [map[]] else ps
  }

  function CountOuter(db: Db, values: seq<Str>, lefts: Rows, rights: Rows, on: seq<Cond>, where: seq<Cond>): nat {
    if lefts == [] then 0
    else CountIf((l: Row) => Keeps(db, values, Outer(lefts[0], l), where), Padded(db, values, lefts[0], rights, on))
         + CountOuter(db, values, lefts[1..], rights, on, where)
  }

  function CountInner(db: Db, values: seq<Str>, lefts: Rows, rights: Rows, on: seq<Cond>, where: seq<Cond>): nat {
    if lefts == [] then 0
    else |Filter((r: Row) => Keeps(db, values, Inner(lefts[0], r), where),
                 Filter((r: Row) => Keeps(db, values, Inner(lefts[0], r), on), rights))|
         + CountInner(db, values, lefts[1..], rights, on, where)
  }

  function SumRows(db: Db, rows: Rows, column: Str): real {
    if rows == [] then 0.0
    else (var v := Get(rows[0], column); if v.Val? then db.num(v.v) else 0.0) + SumRows(db, rows[1..], column)
  }

  function Selected(db: Db, values: seq<Str>, rows: Rows, where: seq<Cond>): Rows {
    Filter((r: Row) => Keeps(db, values, Single(r), where), rows)
  }

  datatype Answer = SqlError | Truth(b: bool) | Count(n: nat) | Sum(r: real) | Listing

  function CondColumns(c: Cond, s: Source): set<Str> {
    match c
    case ParamEq(col, _) => if col.source == s then {col.name} else {}
    case ColEq(a, b) => (if a.source == s then {a.name} else {}) + (if b.source == s then {b.name} else {})
    case IsNull(col) => if col.source == s then {col.name} else {}
  }

  function ColumnsAt(cs: seq<Cond>, s: Source): set<Str> {
    if cs == [] then {} else CondColumns(cs[0], s) + ColumnsAt(cs[1..], s)
  }

  predicate HasColumns(db: Db, t: Str, columns: set<Str>) { t in db.tables && columns <= db.tables[t].columns }

  /** What the database refuses: a missing table, a missing column, and EXISTS with an empty WHERE clause. */
  predicate Runs(q: Query, db: Db) {
    match q
    case SelectExists(t, where) => where != [] && HasColumns(db, t, ColumnsAt(where, Table([t])))
    case SelectCount(t, where) => HasColumns(db, t, ColumnsAt(where, Table([t])))
    case SelectSum(t, column, where) => HasColumns(db, t, {column} + ColumnsAt(where, Table([t])))
    case LeftJoin(projection, l, r, on, where) =>
      HasColumns(db, l, (set x | x in projection) + ColumnsAt(on + where, A)) && HasColumns(db, r, ColumnsAt(on + where, L))
    case InnerJoin(l, r, on, where) => HasColumns(db, l, ColumnsAt(on + where, L)) && HasColumns(db, r, ColumnsAt(on + where, R))
  }

  function Execute(q: Query, values: seq<Str>, db: Db): Answer {
    if !Runs(q, db) then SqlError else
    match q
    case SelectExists(t, where) => Truth(Selected(db, values, db.tables[t].rows, where) != [])
    case SelectCount(t, where) => Count(|Selected(db, values, db.tables[t].rows, where)|)
    case SelectSum(t, column, where) => Sum(SumRows(db, Selected(db, values, db.tables[t].rows, where), column))
    case LeftJoin(projection, l, r, on, where) =>
      if projection != [] then Listing else Count(CountOuter(db, values, db.tables[l].rows, db.tables[r].rows, on, where))
    case InnerJoin(l, r, on, where) => Count(CountInner(db, values, db.tables[l].rows, db.tables[r].rows, on, where))
  }

  // ----- the meaning of a check, without SQL

  /** Every equality of the check holds of the row; a NULL column satisfies none. */
  predicate Satisfies(db: Db, row: Row, eqs: seq<Eq>) {
    forall i :: 0 <= i < |eqs| ==> Get(row, eqs[i].column).Val? && db.eqParam(Get(row, eqs[i].column).v, eqs[i].value)
  }

  predicate KeysMatch(db: Db, a: Row, column: Str, l: Row, other: Str) {
    Get(a, column).Val? && Get(l, other).Val? && db.eq(Get(a, column).v, Get(l, other).v)
  }

  predicate IsPartner(db: Db, c: Check, a: Row, l: Row)
    requires c.AntiJoin?
  {
    KeysMatch(db, a, c.anchorColumn, l, c.lookupColumn) && Satisfies(db, l, c.filterLookup)
  }

  /** An anchor row that passes its filter and has no lookup partner. */
  predicate Orphan(db: Db, c: Check, lookups: Rows, a: Row)
    requires c.AntiJoin?
  {
    Satisfies(db, a, c.filterAnchor) && forall i :: 0 <= i < |lookups| ==> !IsPartner(db, c, a, lookups[i])
  }

  /** Pairs that look like orphans to the query because the partner's presence column is NULL. */
  function HiddenPairs(db: Db, c: Check, anchors: Rows, lookups: Rows): nat
    requires c.AntiJoin?
  {
    if anchors == [] then 0
    else (if Satisfies(db, anchors[0], c.filterAnchor)
          then CountIf((l: Row) => IsPartner(db, c, anchors[0], l) && Get(l, c.presence).Null?, lookups) else 0)
         + HiddenPairs(db, c, anchors[1..], lookups)
  }

  predicate PairSatisfies(db: Db, l: Row, r: Row, eqs: seq<SideEq>) {
    forall i :: 0 <= i < |eqs| ==>
      var v := Get(if eqs[i].left then l else r, eqs[i].column);
      v.Val? && db.eqParam(v.v, eqs[i].value)
  }

  predicate Joins(db: Db, c: Check, l: Row, r: Row)
    requires c.JoinCount?
  {
    KeysMatch(db, l, c.leftColumn, r, c.rightColumn) && PairSatisfies(db, l, r, c.whereEq)
  }

  function MatchingPairs(db: Db, c: Check, lefts: Rows, rights: Rows): nat
    requires c.JoinCount?
  {
    if lefts == [] then 0
    else CountIf((r: Row) => Joins(db, c, lefts[0], r), rights) + MatchingPairs(db, c, lefts[1..], rights)
  }

  // ----- compiled conditions mean the equalities they were made from

  lemma {:induction false} KeepsAll(db: Db, values: seq<Str>, env: Env, cs: seq<Cond>)
    ensures Keeps(db, values, env, cs) <==> forall i :: 0 <= i < |cs| ==> EvalCond(db, values, env, cs[i]).True?
  {
    if cs != [] {
      KeepsAll(db, values, env, cs[1..]);
      assert forall i :: 1 <= i < |cs| ==> cs[i] == cs[1..][i - 1];
    }
  }

  lemma KeepsConcat(db: Db, values: seq<Str>, env: Env, c: Cond, cs: seq<Cond>)
    ensures Keeps(db, values, env, [c] + cs) <==> EvalCond(db, values, env, c).True? && Keeps(db, values, env, cs)
  {
    var all := [c] + cs;
    assert all[0] == c && all[1..] == cs;
    var x, y := EvalCond(db, values, env, c), EvalAll(db, values, env, cs);
    assert EvalAll(db, values, env, all) == And(x, y);
    assert And(x, y).True? <==> x.True? && y.True?;
  }

  lemma ParamsMean(db: Db, values: seq<Str>, env: Env, source: Source, eqs: seq<Eq>, first: nat)
    requires 1 <= first && first - 1 + |eqs| <= |values| && values[first - 1..first - 1 + |eqs|] == EqValues(eqs)
    ensures Keeps(db, values, env, ParamConds(source, eqs, first)) <==> Satisfies(db, RowOf(env, source), eqs)
  {
    var cs := ParamConds(source, eqs, first);
    KeepsAll(db, values, env, cs);
    forall i | 0 <= i < |eqs|
      ensures EvalCond(db, values, env, cs[i]).True? <==>
              var v := Get(RowOf(env, source), eqs[i].column); v.Val? && db.eqParam(v.v, eqs[i].value)
    {
      assert values[first - 1..first - 1 + |eqs|][i] == eqs[i].value;
    }
  }

  lemma SidesMean(db: Db, l: Row, r: Row, eqs: seq<SideEq>)
    ensures Keeps(db, SideValues(eqs), Inner(l, r), SideConds(eqs, 1)) <==> PairSatisfies(db, l, r, eqs)
  {
    var cs := SideConds(eqs, 1);
    KeepsAll(db, SideValues(eqs), Inner(l, r), cs);
    forall i | 0 <= i < |eqs|
      ensures EvalCond(db, SideValues(eqs), Inner(l, r), cs[i]).True? <==>
              var v := Get(if eqs[i].left then l else r, eqs[i].column); v.Val? && db.eqParam(v.v, eqs[i].value)
    {
      assert SideValues(eqs)[i] == eqs[i].value;
    }
  }

  lemma OnMeans(db: Db, c: Check, a: Row, l: Row)
    requires c.AntiJoin?
    ensures Keeps(db, Values(c), Outer(a, l), AntiJoinQuery(c, []).on) <==> IsPartner(db, c, a, l)
  {
    var k := ColEq(Col(A, c.anchorColumn), Col(L, c.lookupColumn));
    KeepsConcat(db, Values(c), Outer(a, l), k, ParamConds(L, c.filterLookup, 1));
    assert Values(c)[..|c.filterLookup|] == EqValues(c.filterLookup);
    ParamsMean(db, Values(c), Outer(a, l), L, c.filterLookup, 1);
  }

  lemma WhereMeans(db: Db, c: Check, a: Row, l: Row)
    requires c.AntiJoin?
    ensures Keeps(db, Values(c), Outer(a, l), AntiJoinQuery(c, []).where) <==>
            Get(l, c.presence).Null? && Satisfies(db, a, c.filterAnchor)
  {
    var n := |c.filterLookup|;
    KeepsConcat(db, Values(c), Outer(a, l), IsNull(Col(L, c.presence)), ParamConds(A, c.filterAnchor, 1 + n));
    assert Values(c)[n..n + |c.filterAnchor|] == EqValues(c.filterAnchor);
    ParamsMean(db, Values(c), Outer(a, l), A, c.filterAnchor, 1 + n);
  }

  // ----- the compiled query means its check

  lemma {:induction false} CountBoth<T(!new)>(p: T -> bool, q: T -> bool, both: T -> bool, s: seq<T>)
    requires forall x :: both(x) <==> p(x) && q(x)
    ensures CountIf(q, Filter(p, s)) == CountIf(both, s) == |Filter(q, Filter(p, s))|
  {
    if s != [] {
      CountBoth(p, q, both, s[1..]);
      if p(s[0]) {
        assert Filter(p, s)[1..] == Filter(p, s[1..]);
      }
    }
  }

  lemma AnchorCount(db: Db, c: Check, a: Row, lookups: Rows)
    requires c.AntiJoin?
    ensures var q := AntiJoinQuery(c, []);
            CountIf((l: Row) => Keeps(db, Values(c), Outer(a, l), q.where), Padded(db, Values(c), a, lookups, q.on)) ==
            (if Orphan(db, c, lookups, a) then 1 else 0)
            + (if Satisfies(db, a, c.filterAnchor)
               then CountIf((l: Row) => IsPartner(db, c, a, l) && Get(l, c.presence).Null?, lookups) else 0)
  {
    var q := AntiJoinQuery(c, []);
    var keeps := (l: Row) => Keeps(db, Values(c), Outer(a, l), q.where);
    var on := (l: Row) => Keeps(db, Values(c), Outer(a, l), q.on);
    var partner := (l: Row) => IsPartner(db, c, a, l);
    var hidden := (l: Row) => IsPartner(db, c, a, l) && Get(l, c.presence).Null?;
    var none := (l: Row) => Satisfies(db, a, c.filterAnchor) && IsPartner(db, c, a, l) && Get(l, c.presence).Null?;
    forall l: Row ensures on(l) == partner(l) && keeps(l) == (Get(l, c.presence).Null? && Satisfies(db, a, c.filterAnchor)) {
      OnMeans(db, c, a, l);
      WhereMeans(db, c, a, l);
    }
    FilterAgree(on, partner, lookups);
    CountZero(partner, lookups);
    assert Partners(db, Values(c), a, lookups, q.on) == Filter(on, lookups);
    if Filter(partner, lookups) == [] {
      PaddedRow(keeps);
      CountZero(hidden, lookups);
    } else {
      CountBoth(partner, keeps, none, lookups);
      if Satisfies(db, a, c.filterAnchor) {
        FilterAgree(none, hidden, lookups);
      } else {
        CountZero(none, lookups);
      }
      assert !Orphan(db, c, lookups, a) by {
        assert Filter(partner, lookups)[0] in lookups;
      }
    }
  }

  lemma PaddedRow(p: Row -> bool)
    ensures CountIf(p, [map[]]) == if p(map[]) then 1 else 0
  {
    var s: Rows := [map[]];
    assert s[1..] == [];
  }

  /** The anti-join count is the number of orphans plus the number of hidden pairs. */
  lemma {:induction false} AntiJoinCounts(db: Db, c: Check, anchors: Rows, lookups: Rows)
    requires c.AntiJoin?
    ensures var q := AntiJoinQuery(c, []);
            CountOuter(db, Values(c), anchors, lookups, q.on, q.where) ==
            CountIf((a: Row) => Orphan(db, c, lookups, a), anchors) + HiddenPairs(db, c, anchors, lookups)
    decreases |anchors|
  {
    if anchors != [] {
      AnchorCount(db, c, anchors[0], lookups);
      AntiJoinCounts(db, c, anchors[1..], lookups);
    }
  }

  lemma JoinMeans(db: Db, c: Check, l: Row, r: Row)
    requires c.JoinCount?
    ensures var q := Compile(c);
            Keeps(db, Values(c), Inner(l, r), q.on) && Keeps(db, Values(c), Inner(l, r), q.where) <==> Joins(db, c, l, r)
  {
    var k := ColEq(Col(L, c.leftColumn), Col(R, c.rightColumn));
    KeepsConcat(db, Values(c), Inner(l, r), k, []);
    assert [k] + [] == [k];
    SidesMean(db, l, r, c.whereEq);
  }

  lemma JoinRowCount(db: Db, c: Check, l: Row, rights: Rows)
    requires c.JoinCount?
    ensures var q := Compile(c);
            |Filter((r: Row) => Keeps(db, Values(c), Inner(l, r), q.where),
                    Filter((r: Row) => Keeps(db, Values(c), Inner(l, r), q.on), rights))| ==
            CountIf((r: Row) => Joins(db, c, l, r), rights)
  {
    var q := Compile(c);
    var on := (r: Row) => Keeps(db, Values(c), Inner(l, r), q.on);
    var where := (r: Row) => Keeps(db, Values(c), Inner(l, r), q.where);
    var joins := (r: Row) => Joins(db, c, l, r);
    forall r: Row ensures joins(r) <==> on(r) && where(r) { JoinMeans(db, c, l, r); }
    CountBoth(on, where, joins, rights);
  }

  /** The join count is the number of matching pairs. */
  lemma {:induction false} JoinCounts(db: Db, c: Check, lefts: Rows, rights: Rows)
    requires c.JoinCount?
    ensures var q := Compile(c);
            CountInner(db, Values(c), lefts, rights, q.on, q.where) == MatchingPairs(db, c, lefts, rights)
    decreases |lefts|
  {
    if lefts != [] {
      JoinRowCount(db, c, lefts[0], rights);
      JoinCounts(db, c, lefts[1..], rights);
    }
  }

  function Satisfying(db: Db, rows: Rows, eqs: seq<Eq>): Rows {
    Filter((r: Row) => Satisfies(db, r, eqs), rows)
  }

  lemma SelectedAt(db: Db, path: seq<Str>, rows: Rows, eqs: seq<Eq>)
    ensures Selected(db, EqValues(eqs), rows, ParamConds(Table(path), eqs, 1)) == Satisfying(db, rows, eqs)
  {
    forall r: Row ensures Keeps(db, EqValues(eqs), Single(r), ParamConds(Table(path), eqs, 1)) <==> Satisfies(db, r, eqs) {
      assert EqValues(eqs)[..|eqs|] == EqValues(eqs);
      ParamsMean(db, EqValues(eqs), Single(r), Table(path), eqs, 1);
    }
    FilterAgree((r: Row) => Keeps(db, EqValues(eqs), Single(r), ParamConds(Table(path), eqs, 1)), (r: Row) => Satisfies(db, r, eqs), rows);
  }

  lemma SelectedMeans(db: Db, t: Str, rows: Rows, eqs: seq<Eq>)
    ensures Selected(db, EqValues(eqs), rows, ParamConds(Table([t]), eqs, 1)) == Satisfying(db, rows, eqs)
  {
    SelectedAt(db, [t], rows, eqs);
  }

  function SideColumns(eqs: seq<SideEq>, left: bool): set<Str> { set e | e in eqs && e.left == left :: e.column }

  /** The tables of the check exist and have every column that it names; a related row is asked for by something. */
  predicate Askable(db: Db, c: Check) {
    match c
    case RelatedExists(t, m) => m != [] && HasColumns(db, t, EqColumns(m))
    case AntiJoin(a, l, ac, lc, presence, fa, fl) =>
      HasColumns(db, a, {ac} + EqColumns(fa)) && HasColumns(db, l, {lc, presence} + EqColumns(fl))
    case Aggregate(t, CountStar, w, _, _) => HasColumns(db, t, EqColumns(w))
    case Aggregate(t, SumOf(col), w, _, _) => HasColumns(db, t, {col} + EqColumns(w))
    case JoinCount(l, r, lc, rc, w, _, _) =>
      HasColumns(db, l, {lc} + SideColumns(w, true)) && HasColumns(db, r, {rc} + SideColumns(w, false))
  }

  lemma {:induction false} ColumnsOfConds(cs: seq<Cond>, s: Source)
    ensures ColumnsAt(cs, s) == set c, x | c in cs && x in CondColumns(c, s) :: x
  {
    if cs != [] {
      ColumnsOfConds(cs[1..], s);
      assert cs == [cs[0]] + cs[1..];
    }
  }

  lemma ParamColumns(s: Source, other: Source, eqs: seq<Eq>, first: nat)
    ensures ColumnsAt(ParamConds(s, eqs, first), other) == if s == other then EqColumns(eqs) else {}
  {
    var cs := ParamConds(s, eqs, first);
    ColumnsOfConds(cs, other);
    forall i | 0 <= i < |eqs| ensures cs[i] in cs && eqs[i] in eqs && (s == other ==> eqs[i].column in CondColumns(cs[i], other)) {}
    if s == other {
      forall x | x in EqColumns(eqs) ensures x in ColumnsAt(cs, other) {
        var i :| 0 <= i < |eqs| && eqs[i].column == x;
      }
    }
  }

  lemma SideParamColumns(eqs: seq<SideEq>, first: nat, left: bool)
    ensures ColumnsAt(SideConds(eqs, first), if left then L else R) == SideColumns(eqs, left)
  {
    var cs, s := SideConds(eqs, first), if left then L else R;
    ColumnsOfConds(cs, s);
    forall x | x in SideColumns(eqs, left) ensures x in ColumnsAt(cs, s) {
      var i :| 0 <= i < |eqs| && eqs[i].left == left && eqs[i].column == x;
      assert cs[i] in cs && x in CondColumns(cs[i], s);
    }
    forall x | x in ColumnsAt(cs, s) ensures x in SideColumns(eqs, left) {
      var i :| 0 <= i < |cs| && x in CondColumns(cs[i], s);
      assert eqs[i] in eqs;
    }
  }

  lemma {:induction false} ColumnsConcat(a: seq<Cond>, b: seq<Cond>, s: Source)
    ensures ColumnsAt(a + b, s) == ColumnsAt(a, s) + ColumnsAt(b, s)
  {
    if a == [] {
      assert a + b == b;
    } else {
      assert (a + b)[0] == a[0] && (a + b)[1..] == a[1..] + b;
      ColumnsConcat(a[1..], b, s);
    }
  }

  lemma ColumnsOne(c: Cond, s: Source)
    ensures ColumnsAt([c], s) == CondColumns(c, s)
  {
    assert [c][1..] == [];
  }

  lemma AntiJoinColumns(c: Check, s: Source)
    requires c.AntiJoin? && (s == A || s == L)
    ensures var q := AntiJoinQuery(c, []);
            ColumnsAt(q.on + q.where, s) ==
            if s == A then {c.anchorColumn} + EqColumns(c.filterAnchor) else {c.lookupColumn, c.presence} + EqColumns(c.filterLookup)
  {
    var q := AntiJoinQuery(c, []);
    var fl, fa := ParamConds(L, c.filterLookup, 1), ParamConds(A, c.filterAnchor, 1 + |c.filterLookup|);
    ColumnsConcat(q.on, q.where, s);
    ColumnsConcat([q.on[0]], fl, s);
    ColumnsConcat([q.where[0]], fa, s);
    ColumnsOne(q.on[0], s);
    ColumnsOne(q.where[0], s);
    ParamColumns(L, s, c.filterLookup, 1);
    ParamColumns(A, s, c.filterAnchor, 1 + |c.filterLookup|);
  }

  /** The database runs the compiled query iff the check can be asked of it. */
  lemma CompiledRuns(db: Db, c: Check)
    ensures Runs(Compile(c), db) <==> Askable(db, c)
  {
    match c
    case RelatedExists(t, m) => ParamColumns(Table([t]), Table([t]), m, 1);
    case AntiJoin(_, _, _, _, _, _, _) =>
      AntiJoinColumns(c, A);
      AntiJoinColumns(c, L);
    case Aggregate(t, _, w, _, _) => ParamColumns(Table([t]), Table([t]), w, 1);
    case JoinCount(_, _, _, _, w, _, _) =>
      var q := Compile(c);
      ColumnsConcat(q.on, q.where, L);
      ColumnsConcat(q.on, q.where, R);
      ColumnsOne(q.on[0], L);
      ColumnsOne(q.on[0], R);
      SideParamColumns(w, 1, true);
      SideParamColumns(w, 1, false);
  }

  /** What a check asks of the tables, and so the answer its query must give. */
  function Expected(db: Db, c: Check): Answer {
    if !Askable(db, c) then SqlError else
    match c
    case RelatedExists(t, m) => Truth(exists r :: r in db.tables[t].rows && Satisfies(db, r, m))
    case AntiJoin(a, l, _, _, _, _, _) =>
      var anchors, lookups := db.tables[a].rows, db.tables[l].rows;
      Count(CountIf((r: Row) => Orphan(db, c, lookups, r), anchors) + HiddenPairs(db, c, anchors, lookups))
    case Aggregate(t, CountStar, w, _, _) => Count(CountIf((r: Row) => Satisfies(db, r, w), db.tables[t].rows))
    case Aggregate(t, SumOf(col), w, _, _) => Sum(SumRows(db, Satisfying(db, db.tables[t].rows, w), col))
    case JoinCount(l, r, _, _, _, _, _) => Count(MatchingPairs(db, c, db.tables[l].rows, db.tables[r].rows))
  }

  /** For all tables with NULLs, every comparison and every binding: the compiled query means its check. */
  lemma CompiledMeaning(db: Db, c: Check)
    ensures Execute(Compile(c), Values(c), db) == Expected(db, c)
  {
    CompiledRuns(db, c);
    if Askable(db, c) {
      match c
      case RelatedExists(t, m) =>
        SelectedMeans(db, t, db.tables[t].rows, m);
        ExistsMeans(db, db.tables[t].rows, m);
      case AntiJoin(a, l, _, _, _, _, _) => AntiJoinCounts(db, c, db.tables[a].rows, db.tables[l].rows);
      case Aggregate(t, fn, w, _, _) =>
        SelectedMeans(db, t, db.tables[t].rows, w);
        CountZero((r: Row) => Satisfies(db, r, w), db.tables[t].rows);
      case JoinCount(l, r, _, _, _, _, _) => JoinCounts(db, c, db.tables[l].rows, db.tables[r].rows);
    }
  }

  lemma ExistsMeans(db: Db, rows: Rows, eqs: seq<Eq>)
    ensures Satisfying(db, rows, eqs) != [] <==> exists r :: r in rows && Satisfies(db, r, eqs)
  {
    CountZero((r: Row) => Satisfies(db, r, eqs), rows);
  }

  // ----- reading the scalar back

  datatype Raw = RawNull | RawUndefined | RawBool(b: bool) | RawNumber(n: real) | RawNotFinite | RawBigint(i: int) | RawText(s: Str) | RawOther

  const MAX_SAFE_INTEGER := 0x1F_FFFF_FFFF_FFFF

  datatype Normalized = Unusable | Usable(n: real)

  function NormalizeNumericActual(raw: Raw): Normalized {
    match raw
    case RawBool(b) => Usable(if b then 1.0 else 0.0)
    case RawNumber(n) => Usable(n)
    case RawBigint(i) => if -MAX_SAFE_INTEGER <= i <= MAX_SAFE_INTEGER then Usable(i as real) else Unusable
    case _ => Unusable
  }

  predicate CompareExpect(actual: real, op: Op, expected: real) {
    match op
    case OpEq => actual == expected
    case OpGte => actual >= expected
    case OpLte => actual <= expected
  }

  type Status = Verdicts.StepStatus
  datatype ReconcileOutput = ReconcileOutput(status: Status, code: string)

  /** The row has its v column under either letter case; upper is used when v is null or undefined. */
  datatype ResultRow = NoRow | Scalar(v: Raw, upper: Raw)

  function ReconcileRelationalRow(row: ResultRow, c: Check): ReconcileOutput {
    if row.NoRow? then ReconcileOutput(Verdicts.IncompleteVerification, "RELATIONAL_SCALAR_UNUSABLE") else
    var norm := NormalizeNumericActual(if row.v.RawNull? || row.v.RawUndefined? then row.upper else row.v);
    if norm.Unusable? || (c.RelatedExists? && norm.n != 0.0 && norm.n != 1.0)
    then ReconcileOutput(Verdicts.IncompleteVerification, "RELATIONAL_SCALAR_UNUSABLE") else
    match c
    case RelatedExists(_, _) =>
      if norm.n == 1.0 then ReconcileOutput(Verdicts.Verified, "") else ReconcileOutput(Verdicts.Missing, "RELATED_ROWS_ABSENT")
    case AntiJoin(_, _, _, _, _, _, _) =>
      if norm.n == 0.0 then ReconcileOutput(Verdicts.Verified, "") else ReconcileOutput(Verdicts.Inconsistent, "ORPHAN_ROW_DETECTED")
    case _ =>
      if CompareExpect(norm.n, c.op, c.expected) then ReconcileOutput(Verdicts.Verified, "")
      else ReconcileOutput(Verdicts.Inconsistent, "RELATIONAL_EXPECTATION_MISMATCH")
  }

  /** The verification of one check against a database whose driver answers with raw; errors are caught. */
  function VerifyCheck(c: Check, db: Db, raw: Raw): ReconcileOutput {
    if Execute(Compile(c), Values(c), db).SqlError? then ReconcileOutput(Verdicts.IncompleteVerification, "CONNECTOR_ERROR")
    else ReconcileRelationalRow(Scalar(raw, RawUndefined), c)
  }

  // ----- the verdict

  /** Number types in which a driver can hand over an answer, and text, in which some hand over counts and sums. */
  predicate Represents(raw: Raw, answer: Answer) {
    raw.RawText? ||
    match answer
    case Truth(b) => raw == RawBool(b) || raw == RawNumber(if b then 1.0 else 0.0) || raw == RawBigint(if b then 1 else 0)
    case Count(n) => raw == RawNumber(n as real) || raw == RawBigint(n)
    case Sum(r) => raw == RawNumber(r)
    case _ => false
  }

  predicate SafeInteger(i: int) { -MAX_SAFE_INTEGER <= i <= MAX_SAFE_INTEGER }

  /** The scalars that reading back does not give up on. */
  predicate Readable(raw: Raw) { raw.RawBool? || raw.RawNumber? || (raw.RawBigint? && SafeInteger(raw.i)) }

  /** The count or sum that a check expects: exactly this number, at least or at most. */
  predicate Meets(op: Op, n: real, expected: real) {
    (op.OpEq? ==> n == expected) && (op.OpGte? ==> expected <= n) && (op.OpLte? ==> n <= expected)
  }

  /** What the check claims about the tables. */
  predicate Holds(db: Db, c: Check) {
    Askable(db, c) &&
    match c
    case RelatedExists(t, m) => exists r :: r in db.tables[t].rows && Satisfies(db, r, m)
    case AntiJoin(a, l, _, _, _, _, _) => forall r :: r in db.tables[a].rows ==> !Orphan(db, c, db.tables[l].rows, r)
    case Aggregate(t, CountStar, w, op, n) => Meets(op, CountIf((r: Row) => Satisfies(db, r, w), db.tables[t].rows) as real, n)
    case Aggregate(t, SumOf(col), w, op, n) => Meets(op, SumRows(db, Satisfying(db, db.tables[t].rows, w), col), n)
    case JoinCount(l, r, _, _, _, op, n) => Meets(op, MatchingPairs(db, c, db.tables[l].rows, db.tables[r].rows) as real, n)
  }

  /** The query of an anti-join takes some pair for an orphan because the partner's presence column is NULL. */
  predicate Hides(db: Db, c: Check) {
    c.AntiJoin? && Askable(db, c) && HiddenPairs(db, c, db.tables[c.anchorTable].rows, db.tables[c.lookupTable].rows) > 0
  }

  /** For every scalar: incomplete iff the query failed, or the scalar is unreadable, or existence is neither 0 nor 1. */
  lemma VerdictForEveryScalar(c: Check, db: Db, raw: Raw)
    ensures VerifyCheck(c, db, raw).status.IncompleteVerification? <==>
            !Askable(db, c) || !Readable(raw)
            || (c.RelatedExists? && NormalizeNumericActual(raw).n != 0.0 && NormalizeNumericActual(raw).n != 1.0)
    ensures VerifyCheck(c, db, raw).status.Missing? ==> c.RelatedExists?
    ensures VerifyCheck(c, db, raw).status.Inconsistent? ==> !c.RelatedExists?
  {
    CompiledRuns(db, c);
  }

  function NumberOf(answer: Answer): real {
    match answer
    case Truth(b) => if b then 1.0 else 0.0
    case Count(n) => n as real
    case Sum(r) => r
    case _ => 0.0
  }

  /** The number that a check must be answered with to pass. */
  predicate Fine(c: Check, n: real) {
    match c
    case RelatedExists(_, _) => n == 1.0
    case AntiJoin(_, _, _, _, _, _, _) => n == 0.0
    case Aggregate(_, _, _, op, expected) => CompareExpect(n, op, expected)
    case JoinCount(_, _, _, _, _, op, expected) => CompareExpect(n, op, expected)
  }

  lemma NumberRead(raw: Raw, answer: Answer)
    requires Represents(raw, answer) && Readable(raw)
    ensures NormalizeNumericActual(raw) == Usable(NumberOf(answer))
    ensures answer.Truth? ==> NumberOf(answer) == 0.0 || NumberOf(answer) == 1.0
  {
  }

  lemma FineMeans(c: Check, db: Db)
    requires Askable(db, c)
    ensures Fine(c, NumberOf(Expected(db, c))) <==> Holds(db, c) && !Hides(db, c)
  {
    if c.AntiJoin? {
      CountZero((r: Row) => Orphan(db, c, db.tables[c.lookupTable].rows, r), db.tables[c.anchorTable].rows);
    }
  }

  /**
   * Whatever represents the answer: the check is verified iff its scalar is readable, it holds, and nothing hides.
   * Of readable scalars a check that does not hold gives missing for a related row and inconsistent for all else.
   */
  lemma VerifiedMeansHolds(c: Check, db: Db, raw: Raw)
    requires Askable(db, c) ==> Represents(raw, Expected(db, c))
    ensures VerifyCheck(c, db, raw).status.Verified? <==> Readable(raw) && Holds(db, c) && !Hides(db, c)
    ensures VerifyCheck(c, db, raw).status.IncompleteVerification? <==> !Askable(db, c) || !Readable(raw)
    ensures VerifyCheck(c, db, raw).status.Missing? <==> c.RelatedExists? && Askable(db, c) && Readable(raw) && !Holds(db, c)
    ensures VerifyCheck(c, db, raw).status.Inconsistent? <==>
            !c.RelatedExists? && Askable(db, c) && Readable(raw) && (!Holds(db, c) || Hides(db, c))
  {
    VerdictForEveryScalar(c, db, raw);
    if Askable(db, c) && Readable(raw) {
      CompiledRuns(db, c);
      NumberRead(raw, Expected(db, c));
      FineMeans(c, db);
    }
  }

  lemma CodesDiffer()
    ensures var a, b, c := "CONNECTOR_ERROR", "RELATIONAL_SCALAR_UNUSABLE", "RELATED_ROWS_ABSENT";
            var d, e := "ORPHAN_ROW_DETECTED", "RELATIONAL_EXPECTATION_MISMATCH";
            |a| == 15 && |b| == 26 && |c| == 19 && |d| == 19 && c != d && |e| == 31
  {
    assert "RELATED_ROWS_ABSENT"[0] != "ORPHAN_ROW_DETECTED"[0];
  }

  /** The code of a verdict: of a failed query, of an unusable scalar, and one for each kind of check that fails. */
  lemma VerdictCodes(c: Check, db: Db, raw: Raw)
    ensures var o := VerifyCheck(c, db, raw);
            && (o.status.Verified? <==> o.code == "")
            && (o.code == "CONNECTOR_ERROR" <==> !Askable(db, c))
            && (o.code == "RELATIONAL_SCALAR_UNUSABLE" <==> Askable(db, c) && o.status.IncompleteVerification?)
            && (o.code == "RELATED_ROWS_ABSENT" <==> o.status.Missing?)
            && (o.code == "ORPHAN_ROW_DETECTED" <==> o.status.Inconsistent? && c.AntiJoin?)
            && (o.code == "RELATIONAL_EXPECTATION_MISMATCH" <==> o.status.Inconsistent? && !c.AntiJoin?)
  {
    CompiledRuns(db, c);
    CodesDiffer();
    if Askable(db, c) { RowCodes(Scalar(raw, RawUndefined), c); }
  }

  lemma RowCodes(row: ResultRow, c: Check)
    ensures var o := ReconcileRelationalRow(row, c);
            && (o.status.Verified? <==> o.code == "") && o.code != "CONNECTOR_ERROR"
            && (o.code == "RELATIONAL_SCALAR_UNUSABLE" <==> o.status.IncompleteVerification?)
            && (o.code == "RELATED_ROWS_ABSENT" <==> o.status.Missing?)
            && (o.code == "ORPHAN_ROW_DETECTED" <==> o.status.Inconsistent? && c.AntiJoin?)
            && (o.code == "RELATIONAL_EXPECTATION_MISMATCH" <==> o.status.Inconsistent? && !c.AntiJoin?)
  {
    CodesDiffer();
  }

  /** A scalar that arrives as text is never enough: no check is ever verified from it, whatever the tables hold. */
  lemma TextNeverVerified(c: Check, db: Db, s: Str)
    ensures VerifyCheck(c, db, RawText(s)).status.IncompleteVerification?
  {
    VerdictForEveryScalar(c, db, RawText(s));
  }

  /** An anti-join's query counts exactly the orphans iff nothing hides. */
  lemma AntiJoinVerdict(c: Check, db: Db)
    requires c.AntiJoin? && Askable(db, c)
    ensures var orphans := CountIf((r: Row) => Orphan(db, c, db.tables[c.lookupTable].rows, r), db.tables[c.anchorTable].rows);
            && (Holds(db, c) <==> orphans == 0)
            && (Execute(Compile(c), Values(c), db) == Count(orphans) <==> !Hides(db, c))
  {
    CompiledMeaning(db, c);
    CountZero((r: Row) => Orphan(db, c, db.tables[c.lookupTable].rows, r), db.tables[c.anchorTable].rows);
  }

  const KEY: Str := [107]
  const PRESENCE: Str := [112]

  /** Two tables of one row each, equal in the key; the lookup row has no value in the presence column. */
  function HidingDb(): Db {
    var key := Val(Number(1.0));
    Db(map[[65] := Relation({KEY}, [map[KEY := key]]), [66] := Relation({KEY, PRESENCE}, [map[KEY := key, PRESENCE := Null]])],
       (a, b) => a == b, (a, s) => false, a => 0.0)
  }

  function HidingCheck(): Check { AntiJoin([65], [66], KEY, KEY, PRESENCE, [], []) }

  /** No anchor is without its partner, yet the one pair hides and the check comes out inconsistent. */
  lemma HiddenExample()
    ensures Holds(HidingDb(), HidingCheck())
    ensures HiddenPairs(HidingDb(), HidingCheck(), HidingDb().tables[[65]].rows, HidingDb().tables[[66]].rows) == 1
    ensures Represents(RawNumber(1.0), Expected(HidingDb(), HidingCheck()))
    ensures VerifyCheck(HidingCheck(), HidingDb(), RawNumber(1.0)).status.Inconsistent?
  {
    var db, c := HidingDb(), HidingCheck();
    var anchors, lookups := db.tables[[65]].rows, db.tables[[66]].rows;
    var a, l := anchors[0], lookups[0];
    assert KEY != PRESENCE;
    assert Satisfies(db, a, []) && IsPartner(db, c, a, l) && Get(l, PRESENCE).Null?;
    assert !Orphan(db, c, lookups, a);
    assert Askable(db, c);
    assert anchors[1..] == [] && lookups[1..] == [];
    CountZero((r: Row) => Orphan(db, c, lookups, r), anchors);
    assert CountIf((r: Row) => IsPartner(db, c, a, r) && Get(r, c.presence).Null?, lookups) == 1;
    assert HiddenPairs(db, c, anchors, lookups) == 1;
    VerifiedMeansHolds(c, db, RawNumber(1.0));
  }

  /** With a presence column that is never NULL in a lookup row nothing hides. */
  lemma {:induction false} NothingHides(db: Db, c: Check, anchors: Rows, lookups: Rows)
    requires c.AntiJoin? && forall l :: l in lookups ==> Get(l, c.presence).Val?
    ensures HiddenPairs(db, c, anchors, lookups) == 0
    decreases |anchors|
  {
    if anchors != [] {
      NothingHides(db, c, anchors[1..], lookups);
      CountZero((l: Row) => IsPartner(db, c, anchors[0], l) && Get(l, c.presence).Null?, lookups);
    }
  }
}
