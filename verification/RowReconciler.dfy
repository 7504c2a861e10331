/** Row checks: from fetched rows to a status, and the rollup of several effects (src/reconciler.ts, src/multiEffectRollup.ts). */
module RowReconciler {
  import opened Sorting
  import opened Utf16
  import opened LogicalSteps
  import opened SqlQuery
  import RelationalCheck
  import RowSql
  import SqlReader
  import SqlText
  import Verdicts

  type Status = Verdicts.StepStatus
  type Row = RelationalCheck.Row
  type Rows = RelationalCheck.Rows
  type Db = RelationalCheck.Db

  // ----- values

  datatype Scalar = NullScalar | BoolScalar(b: bool) | NumberScalar(r: real) | NonFinite | TextScalar(s: Str)

  /** A column value as a driver hands it over. */
  datatype Cell = NullCell | Undefined | BoolCell(b: bool) | NumberCell(r: real) | NonFiniteCell | BigintCell(i: int)
                | TextCell(s: Str) | DateCell(iso: Option<Str>) | ObjectCell | FunctionCell

  /** What the language runtime, the driver and the collation supply. */
  datatype Platform = Platform(
    trim: Str -> Str,
    jsonNumber: Str -> Option<real>,
    numberText: real -> Str,
    boolText: bool -> Str,
    lower: Str -> Str,
    locale: (Str, Str) -> bool,
    cells: Row -> seq<(Str, Cell)>)

  predicate ScalarsEqual(js: Platform, expected: Scalar, actual: Cell) {
    match expected
    case NullScalar => actual.NullCell? || actual.Undefined?
    case BoolScalar(b) => actual == BoolCell(b) || actual == NumberCell(if b then 1.0 else 0.0)
    case NonFinite => false
    case NumberScalar(r) =>
      || actual == NumberCell(r)
      || (actual.BigintCell? && RelationalCheck.SafeInteger(actual.i) && r == actual.i as real)
      || (actual.TextCell? && js.jsonNumber(js.trim(actual.s)) == Some(r))
    case TextScalar(s) =>
      var e := js.trim(s);
      || (actual.TextCell? && js.trim(actual.s) == e)
      || (actual.NumberCell? && js.numberText(actual.r) == e)
      || (actual.BoolCell? && js.boolText(actual.b) == e)
      || (actual.DateCell? && actual.iso == Some(e))
  }

  // ----- one request

  datatype Field = Field(name: Str, expected: Scalar)

  /** requiredFields is an object, so its names are distinct. */
  datatype Request = Request(table: Str, identityEq: seq<Eq>, requiredFields: seq<Field>)

  datatype Reason = Reason(code: string, field: Option<Str>)
  datatype Evidence = RowCount(n: nat) | NoEvidence | ColumnsOf(columns: set<Str>) | AtField(name: Str)
                    | Mismatch(name: Str, expected: Scalar, actual: Cell)
  datatype Output = Output(status: Status, reasons: seq<Reason>, evidence: Evidence)

  type CellRow = map<Str, Cell>

  /** Object.fromEntries over lower-cased names: of names that collide the last wins. */
  function Lowered(js: Platform, entries: seq<(Str, Cell)>): CellRow {
    if entries == [] then map[]
    else Lowered(js, entries[..|entries| - 1])[js.lower(entries[|entries| - 1].0) := entries[|entries| - 1].1]
  }

  const CONSTRUCTOR: Str := [99, 111, 110, 115, 116, 114, 117, 99, 116, 111, 114]
  const PROTO: Str := [95, 95, 112, 114, 111, 116, 111, 95, 95]

  /** `col in row` also finds what every object inherits under a lower-case name. */
  function Lookup(row: CellRow, col: Str): Option<Cell> {
    if col in row then Some(row[col])
    else if col == CONSTRUCTOR then Some(FunctionCell)
    else if col == PROTO then Some(ObjectCell)
    else None
  }

  const ROW_OK := Output(Verdicts.Verified, [], RowCount(1))

  function CheckField(js: Platform, row: CellRow, f: Field): Output {
    match Lookup(row, js.lower(f.name))
    case None => Output(Verdicts.IncompleteVerification, [Reason("ROW_SHAPE_MISMATCH", None)], ColumnsOf(row.Keys))
    case Some(actual) =>
      if actual.ObjectCell? then Output(Verdicts.IncompleteVerification, [Reason("UNREADABLE_VALUE", Some(f.name))], AtField(f.name))
      else if !ScalarsEqual(js, f.expected, actual)
      then Output(Verdicts.Inconsistent, [Reason("VALUE_MISMATCH", Some(f.name))], Mismatch(f.name, f.expected, actual))
      else ROW_OK
  }

  function Scan(js: Platform, row: CellRow, fields: seq<Field>): Output {
    if fields == [] then ROW_OK else
    var first := CheckField(js, row, fields[0]);
    if first.status.Verified? then Scan(js, row, fields[1..]) else first
  }

  function ByName(js: Platform): (Field, Field) -> bool {
    (a: Field, b: Field) => js.locale(a.name, b.name)
  }

  function Reconcile(js: Platform, rows: seq<CellRow>, req: Request): Output {
    if |rows| == 0 then Output(Verdicts.Missing, [Reason("ROW_ABSENT", None)], RowCount(0))
    else if |rows| >= 2 then Output(Verdicts.Inconsistent, [Reason("DUPLICATE_ROWS", None)], RowCount(|rows|))
    else Scan(js, rows[0], Sort(req.requiredFields, ByName(js)))
  }

  /** The rule table over fetched rows, with its loop over the sorted field names. */
  method ReconcileFromRows(js: Platform, rows: seq<CellRow>, req: Request) returns (r: Output)
    ensures r == Reconcile(js, rows, req)
  {
    var n := |rows|;
    if n == 0 {
      return Output(Verdicts.Missing, [Reason("ROW_ABSENT", None)], RowCount(0));
    }
    if n >= 2 {
      return Output(Verdicts.Inconsistent, [Reason("DUPLICATE_ROWS", None)], RowCount(n));
    }
    var row := rows[0];
    var keys := Sort(req.requiredFields, ByName(js));
    for i := 0 to |keys|
      invariant Scan(js, row, keys) == Scan(js, row, keys[i..])
    {
      assert keys[i..][1..] == keys[i + 1..];
      var k := keys[i];
      var col := js.lower(k.name);
      var found := Lookup(row, col);
      if found.None? {
        return Output(Verdicts.IncompleteVerification, [Reason("ROW_SHAPE_MISMATCH", None)], ColumnsOf(row.Keys));
      }
      var actual := found.value;
      if actual.ObjectCell? {
        return Output(Verdicts.IncompleteVerification, [Reason("UNREADABLE_VALUE", Some(k.name))], AtField(k.name));
      }
      if !ScalarsEqual(js, k.expected, actual) {
        return Output(Verdicts.Inconsistent, [Reason("VALUE_MISMATCH", Some(k.name))], Mismatch(k.name, k.expected, actual));
      }
    }
    return Output(Verdicts.Verified, [], RowCount(1));
  }

  // ----- what one request asks of the table

  /** What a column value of each kind is equal to. */
  predicate Equals(js: Platform, actual: Cell, expected: Scalar) {
    match actual
    case NullCell => expected.NullScalar?
    case Undefined => expected.NullScalar?
    case BoolCell(b) => expected == BoolScalar(b) || (expected.TextScalar? && js.boolText(b) == js.trim(expected.s))
    case NumberCell(r) =>
      || (expected == BoolScalar(true) && r == 1.0) || (expected == BoolScalar(false) && r == 0.0)
      || expected == NumberScalar(r) || (expected.TextScalar? && js.numberText(r) == js.trim(expected.s))
    case BigintCell(i) => -0x20_0000_0000_0000 < i < 0x20_0000_0000_0000 && expected == NumberScalar(i as real)
    case TextCell(s) =>
      || (expected.NumberScalar? && js.jsonNumber(js.trim(s)) == Some(expected.r))
      || (expected.TextScalar? && js.trim(s) == js.trim(expected.s))
    case DateCell(iso) => expected.TextScalar? && iso == Some(js.trim(expected.s))
    case NonFiniteCell => false
    case ObjectCell => false
    case FunctionCell => false
  }

  /** The row itself has the required column, with a scalar that equals the expected one. */
  predicate Carries(js: Platform, row: CellRow, f: Field) {
    var col := js.lower(f.name);
    col in row && Equals(js, row[col], f.expected)
  }

  lemma EqualsMeans(js: Platform, actual: Cell, expected: Scalar)
    ensures ScalarsEqual(js, expected, actual) <==> Equals(js, actual, expected)
  {
  }

  predicate CarriesAll(js: Platform, row: CellRow, fields: seq<Field>) {
    forall i :: 0 <= i < |fields| ==> Carries(js, row, fields[i])
  }

  function CellsOf(js: Platform, row: Row): CellRow { Lowered(js, js.cells(row)) }

  function AllCells(js: Platform, rows: Rows): (r: seq<CellRow>)
    ensures |r| == |rows|
  {
    seq(|rows|, i requires 0 <= i < |rows| => CellsOf(js, rows[i]))
  }

  /** The rows of the request's table whose identity columns equal the requested values. */
  function Matching(db: Db, req: Request): Rows
    requires req.table in db.tables
  {
    RelationalCheck.Satisfying(db, db.tables[req.table].rows, req.identityEq)
  }

  /** Whether the database can run the request's query: table and columns exist and the WHERE clause is not empty. */
  predicate Runs(db: Db, req: Request) {
    req.identityEq != [] && RelationalCheck.HasColumns(db, req.table, EqColumns(req.identityEq))
  }

  function SelectedRows(db: Db, req: Request): Rows
    requires Runs(db, req)
  {
    RelationalCheck.Selected(db, EqValues(req.identityEq), db.tables[req.table].rows, ParamConds(Table([req.table]), req.identityEq, 1))
  }

  /** LIMIT 2 without an order: some two of the selected rows, or all of them if there are fewer. */
  ghost predicate IsFetch(fetched: Rows, db: Db, req: Request)
    requires Runs(db, req)
  {
    var all := SelectedRows(db, req);
    |fetched| == (if |all| < 2 then |all| else 2) && multiset(fetched) <= multiset(all)
  }

  /** What a database may answer to the text of the request's select is exactly what IsFetch admits. */
  lemma SelectServes(db: Db, req: Request, text: Str, rows: Rows)
    requires text == SqlText.Render(SqlText.Sqlite, SqlText.Positional, RowSql.SelectTokens(req.table, req.identityEq))
    ensures SqlReader.Serves(SqlText.Sqlite, SqlText.Positional, text, EqValues(req.identityEq), db, rows) <==>
            Runs(db, req) && IsFetch(rows, db, req)
  {
    RowSql.SelectRead(req.table, req.identityEq);
    RelationalCheck.ParamColumns(Table([req.table]), Table([req.table]), req.identityEq, 1);
  }

  datatype Fetch = ConnectorError | Fetched(rows: Rows)

  ghost predicate IsFetchOf(f: Fetch, db: Db, req: Request) {
    if Runs(db, req) then f.Fetched? && IsFetch(f.rows, db, req) else f.ConnectorError?
  }

  function ReconcileFetch(js: Platform, f: Fetch, req: Request): Output {
    match f
    case ConnectorError => Output(Verdicts.IncompleteVerification, [Reason("CONNECTOR_ERROR", None)], NoEvidence)
    case Fetched(rows) => Reconcile(js, AllCells(js, rows), req)
  }

  /** What a request claims: one row has the identity, and that row carries every required column. */
  ghost predicate Claim(js: Platform, db: Db, req: Request) {
    Runs(db, req) && |Matching(db, req)| == 1 && CarriesAll(js, CellsOf(js, Matching(db, req)[0]), req.requiredFields)
  }

  // ----- lemmas

  lemma FieldVerified(js: Platform, row: CellRow, f: Field)
    ensures CheckField(js, row, f).status.Verified? <==> Carries(js, row, f)
  {
    var found := Lookup(row, js.lower(f.name));
    if found.Some? { EqualsMeans(js, found.value, f.expected); }
  }

  lemma {:induction false} ScanVerified(js: Platform, row: CellRow, fields: seq<Field>)
    ensures Scan(js, row, fields).status.Verified? <==> CarriesAll(js, row, fields)
    ensures Scan(js, row, fields).status.Verified? ==> Scan(js, row, fields) == ROW_OK
  {
    if fields != [] {
      FieldVerified(js, row, fields[0]);
      ScanVerified(js, row, fields[1..]);
      assert forall i :: 1 <= i < |fields| ==> fields[i] == fields[1..][i - 1];
    }
  }

  lemma CarriesAllSorted(js: Platform, row: CellRow, fields: seq<Field>)
    ensures CarriesAll(js, row, Sort(fields, ByName(js))) <==> CarriesAll(js, row, fields)
  {
    var s := Sort(fields, ByName(js));
    SortContents(fields, ByName(js));
    forall i | 0 <= i < |s| ensures s[i] in fields { assert s[i] in s; }
    forall i | 0 <= i < |fields| ensures fields[i] in s { assert fields[i] in fields; }
  }

  lemma OneRow(a: Rows, b: Rows)
    requires |a| == |b| == 1 && multiset(a) <= multiset(b)
    ensures a == b
  {
    assert a == [a[0]] && b == [b[0]];
    assert a[0] in multiset(a);
    assert a[0] in multiset(b);
  }

  lemma FetchCounts(db: Db, req: Request, fetched: Rows)
    requires Runs(db, req) && IsFetch(fetched, db, req)
    ensures SelectedRows(db, req) == Matching(db, req)
    ensures |fetched| == (if |Matching(db, req)| < 2 then |Matching(db, req)| else 2)
    ensures |Matching(db, req)| == 1 ==> fetched == Matching(db, req)
  {
    RelationalCheck.SelectedMeans(db, req.table, db.tables[req.table].rows, req.identityEq);
    if |Matching(db, req)| == 1 {
      OneRow(fetched, Matching(db, req));
    }
  }

  /** Two rows suffice: whichever two the database returns, a request is verified iff its claim holds of the whole table. */
  lemma VerifiedMeansClaim(js: Platform, db: Db, req: Request, f: Fetch)
    requires IsFetchOf(f, db, req)
    ensures ReconcileFetch(js, f, req).status.Verified? <==> Claim(js, db, req)
    ensures ReconcileFetch(js, f, req).status.Missing? <==> Runs(db, req) && Matching(db, req) == []
  {
    if Runs(db, req) {
      FetchCounts(db, req, f.rows);
      if |f.rows| == 1 {
        var row := AllCells(js, f.rows)[0];
        ScanVerified(js, row, Sort(req.requiredFields, ByName(js)));
        CarriesAllSorted(js, row, req.requiredFields);
        ScanNotMissing(js, row, Sort(req.requiredFields, ByName(js)));
      }
    }
  }

  /** What is reported for each number of matching rows, and if the query fails. */
  lemma OutcomeMeans(js: Platform, db: Db, req: Request, f: Fetch)
    requires IsFetchOf(f, db, req)
    ensures var o := ReconcileFetch(js, f, req);
            if !Runs(db, req) then o.status.IncompleteVerification? && o.reasons == [Reason("CONNECTOR_ERROR", None)]
            else if Matching(db, req) == [] then o == Output(Verdicts.Missing, [Reason("ROW_ABSENT", None)], RowCount(0))
            else if |Matching(db, req)| > 1 then o == Output(Verdicts.Inconsistent, [Reason("DUPLICATE_ROWS", None)], RowCount(2))
            else o == Scan(js, CellsOf(js, Matching(db, req)[0]), Sort(req.requiredFields, ByName(js)))
  {
    if Runs(db, req) { FetchCounts(db, req, f.rows); }
  }

  lemma {:induction false} ScanNotMissing(js: Platform, row: CellRow, fields: seq<Field>)
    ensures !Scan(js, row, fields).status.Missing?
  {
    if fields != [] {
      ScanNotMissing(js, row, fields[1..]);
    }
  }

  /** A row that does not carry every field is reported for the first one it lacks, in the order of the scan. */
  lemma {:induction false} ScanReports(js: Platform, row: CellRow, fields: seq<Field>) returns (i: nat)
    requires !CarriesAll(js, row, fields)
    ensures i < |fields| && CarriesAll(js, row, fields[..i]) && !Carries(js, row, fields[i])
    ensures Scan(js, row, fields) == CheckField(js, row, fields[i])
  {
    FieldVerified(js, row, fields[0]);
    if Carries(js, row, fields[0]) {
      assert forall k :: 1 <= k < |fields| ==> fields[k] == fields[1..][k - 1];
      i := ScanReports(js, row, fields[1..]);
      i := i + 1;
      assert fields[1..][..i - 1] == fields[..i][1..];
      assert forall k :: 1 <= k < i ==> fields[k] == fields[1..][..i - 1][k - 1];
    } else {
      i := 0;
    }
  }

  /** Why a field is not carried decides the status and the code. */
  lemma FaultReported(js: Platform, row: CellRow, f: Field)
    requires !Carries(js, row, f)
    ensures var o, col := CheckField(js, row, f), js.lower(f.name);
            && |o.reasons| == 1
            && (o.reasons[0].code == "VALUE_MISMATCH" <==> o.status.Inconsistent?)
            && (o.status.Inconsistent? <==> if col in row then !row[col].ObjectCell? else col == CONSTRUCTOR)
            && (o.reasons[0].code == "UNREADABLE_VALUE" <==> if col in row then row[col].ObjectCell? else col == PROTO)
            && (o.reasons[0].code == "ROW_SHAPE_MISMATCH" <==> col !in row && col != CONSTRUCTOR && col != PROTO)
  {
    assert CONSTRUCTOR != PROTO by { assert |CONSTRUCTOR| != |PROTO|; }
    var found := Lookup(row, js.lower(f.name));
    if found.Some? { EqualsMeans(js, found.value, f.expected); }
  }

  /** Which rows the database returns for LIMIT 2 has no influence on the outcome. */
  lemma FetchIrrelevant(js: Platform, db: Db, req: Request, f: Fetch, g: Fetch)
    requires IsFetchOf(f, db, req) && IsFetchOf(g, db, req)
    ensures ReconcileFetch(js, f, req) == ReconcileFetch(js, g, req)
  {
    if Runs(db, req) {
      FetchCounts(db, req, f.rows);
      FetchCounts(db, req, g.rows);
    }
  }

  /** Fetching every matching row would give the same status and reasons; only the reported row count would differ. */
  lemma TwoRowsSuffice(js: Platform, db: Db, req: Request, f: Fetch)
    requires Runs(db, req) && IsFetchOf(f, db, req)
    ensures var full := Reconcile(js, AllCells(js, Matching(db, req)), req);
            var two := ReconcileFetch(js, f, req);
            && two.status == full.status && two.reasons == full.reasons
            && (|Matching(db, req)| <= 2 ==> two == full)
            && (|Matching(db, req)| >= 2 ==> two.evidence == RowCount(2))
  {
    FetchCounts(db, req, f.rows);
  }

  // ----- the rollup

  datatype EffectRow = EffectRow(id: Str, status: Status, reasons: seq<Reason>, evidence: Evidence)

  /** The parts of a rollup reason message. */
  datatype RollupReason = RollupReason(code: string, verified: nat, total: nat, ids: seq<Str>, perEffect: seq<(Str, string)>)
  datatype RollupStatus = RollupStatus(status: Status, reasons: seq<RollupReason>)

  function ById(): (EffectRow, EffectRow) -> bool { (a: EffectRow, b: EffectRow) => Le(a.id, b.id) }

  function IdOf(): EffectRow -> Str { (e: EffectRow) => e.id }

  function HasStatus(p: Status -> bool): EffectRow -> bool { (e: EffectRow) => p(e.status) }

  function FailureCodes(rows: seq<EffectRow>): seq<(Str, string)> {
    Map((e: EffectRow) => (e.id, if |e.reasons| > 0 then e.reasons[0].code else "UNKNOWN"), Sort(rows, ById()))
  }

  function SortedIds(rows: seq<EffectRow>): seq<Str> { Sort(Map(IdOf(), rows), Le) }

  function ComputeRollupStatus(rows: seq<EffectRow>): RollupStatus {
    var n := |rows|;
    var incomplete := Filter(HasStatus((s: Status) => s.IncompleteVerification?), rows);
    var verified := Filter(HasStatus((s: Status) => s.Verified?), rows);
    if |incomplete| > 0 then
      RollupStatus(Verdicts.IncompleteVerification, [RollupReason("MULTI_EFFECT_INCOMPLETE", 0, 0, SortedIds(incomplete), [])])
    else if |verified| == n then RollupStatus(Verdicts.Verified, [])
    else if |verified| == 0 then
      RollupStatus(Verdicts.Inconsistent, [RollupReason("MULTI_EFFECT_ALL_FAILED", 0, n, SortedIds(rows), FailureCodes(rows))])
    else
      var bad := Filter(HasStatus((s: Status) => s.Missing? || s.Inconsistent?), rows);
      RollupStatus(Verdicts.PartiallyVerified, [RollupReason("MULTI_EFFECT_PARTIAL", |verified|, n, SortedIds(bad), FailureCodes(bad))])
  }

  datatype Effect = Effect(id: Str, request: Request)
  datatype Rollup = Rollup(request: seq<(Str, Request)>, status: Status, reasons: seq<RollupReason>, effectCount: nat, effects: seq<EffectRow>)

  /** An effect with the outcome of its own check. */
  datatype Reconciled = Reconciled(id: Str, request: Request, output: Output)

  function ReconciledById(): (Reconciled, Reconciled) -> bool { (a: Reconciled, b: Reconciled) => Le(a.id, b.id) }

  function RowOf(): Reconciled -> EffectRow {
    (r: Reconciled) => EffectRow(r.id, r.output.status, r.output.reasons, r.output.evidence)
  }

  function BuildRollup(sorted: seq<Reconciled>): Rollup {
    var effectRows := Map(RowOf(), sorted);
    var s := ComputeRollupStatus(effectRows);
    Rollup(Map((r: Reconciled) => (r.id, r.request), sorted), s.status, s.reasons, |sorted|, effectRows)
  }

  function ReconcileEffect(js: Platform, fetch: Request -> Fetch): Effect -> Reconciled {
    (e: Effect) => Reconciled(e.id, e.request, ReconcileFetch(js, fetch(e.request), e.request))
  }

  function RollupMultiEffects(js: Platform, fetch: Request -> Fetch, effects: seq<Effect>): Rollup {
    BuildRollup(Sort(Map(ReconcileEffect(js, fetch), effects), ReconciledById()))
  }

  ghost predicate Answers(fetch: Request -> Fetch, db: Db) {
    forall req :: IsFetchOf(fetch(req), db, req)
  }

  // ----- the rollup's status machine, exactly

  predicate Failed(s: Status) { s.Missing? || s.Inconsistent? }

  /** The four statuses a single check can have. */
  predicate Single(rows: seq<EffectRow>) {
    forall i :: 0 <= i < |rows| ==> var s := rows[i].status; s.Verified? || s.IncompleteVerification? || Failed(s)
  }

  lemma {:induction false} FilterAll<T(!new)>(p: T -> bool, s: seq<T>)
    ensures |Filter(p, s)| == |s| <==> forall i :: 0 <= i < |s| ==> p(s[i])
  {
    if s != [] {
      FilterAll(p, s[1..]);
      assert forall i :: 1 <= i < |s| ==> s[i] == s[1..][i - 1];
    }
  }

  /** Which effect statuses give which rollup status. */
  lemma RollupDecides(rows: seq<EffectRow>)
    requires Single(rows)
    ensures var s := ComputeRollupStatus(rows).status;
            && (s.Verified? <==> forall i :: 0 <= i < |rows| ==> rows[i].status.Verified?)
            && (s.IncompleteVerification? <==> exists i :: 0 <= i < |rows| && rows[i].status.IncompleteVerification?)
            && (s.Inconsistent? <==> rows != [] && forall i :: 0 <= i < |rows| ==> Failed(rows[i].status))
            && (s.PartiallyVerified? <==>
                  (forall i :: 0 <= i < |rows| ==> !rows[i].status.IncompleteVerification?)
                  && (exists i :: 0 <= i < |rows| && rows[i].status.Verified?)
                  && (exists i :: 0 <= i < |rows| && Failed(rows[i].status)))
  {
    var inc, ver := HasStatus((s: Status) => s.IncompleteVerification?), HasStatus((s: Status) => s.Verified?);
    FilterAll(ver, rows);
    CountZero(inc, rows);
    CountZero(ver, rows);
    assert (exists i :: 0 <= i < |rows| && rows[i].status.IncompleteVerification?) <==> Filter(inc, rows) != [] by {
      forall i | 0 <= i < |rows| && rows[i].status.IncompleteVerification? ensures inc(rows[i]) {}
    }
    assert (exists i :: 0 <= i < |rows| && rows[i].status.Verified?) <==> Filter(ver, rows) != [] by {
      forall i | 0 <= i < |rows| && rows[i].status.Verified? ensures ver(rows[i]) {}
    }
  }

  function IdsOf(rows: seq<EffectRow>, p: Status -> bool): seq<Str> { Map(IdOf(), Filter(HasStatus(p), rows)) }

  /** The ids that a rollup reason names, ascending: the incomplete ones, or all that failed. */
  lemma RollupNames(rows: seq<EffectRow>)
    requires Single(rows)
    ensures var r := ComputeRollupStatus(rows);
            && |r.reasons| == (if r.status.Verified? then 0 else 1)
            && (r.status.IncompleteVerification? ==>
                  multiset(r.reasons[0].ids) == multiset(IdsOf(rows, (s: Status) => s.IncompleteVerification?)))
            && (r.status.Inconsistent? ==> multiset(r.reasons[0].ids) == multiset(Map(IdOf(), rows)))
            && (r.status.PartiallyVerified? ==>
                  multiset(r.reasons[0].ids) == multiset(IdsOf(rows, (s: Status) => s.Missing? || s.Inconsistent?))
                  && r.reasons[0].total == |rows| && r.reasons[0].verified == |IdsOf(rows, (s: Status) => s.Verified?)|)
            && (!r.status.Verified? ==> Sorted(r.reasons[0].ids, Le))
  {
    LeOrder();
    var all := Map(IdOf(), rows);
    var incomplete := IdsOf(rows, (s: Status) => s.IncompleteVerification?);
    var bad := IdsOf(rows, (s: Status) => s.Missing? || s.Inconsistent?);
    SortContents(all, Le);
    SortContents(incomplete, Le);
    SortContents(bad, Le);
    SortSorted(all, Le);
    SortSorted(incomplete, Le);
    SortSorted(bad, Le);
  }

  // ----- what the rollup means, and that order does not matter

  lemma ReconciledSingle(js: Platform, f: Fetch, req: Request)
    ensures var s := ReconcileFetch(js, f, req).status; s.Verified? || s.IncompleteVerification? || Failed(s)
  {
    match f
    case ConnectorError =>
    case Fetched(rows) =>
      if |rows| == 1 { ScanSingle(js, AllCells(js, rows)[0], Sort(req.requiredFields, ByName(js))); }
  }

  lemma {:induction false} ScanSingle(js: Platform, row: CellRow, fields: seq<Field>)
    ensures var s := Scan(js, row, fields).status; s.Verified? || s.IncompleteVerification? || Failed(s)
  {
    if fields != [] {
      ScanSingle(js, row, fields[1..]);
    }
  }

  function StatusOf(js: Platform, fetch: Request -> Fetch, e: Effect): Status {
    ReconcileFetch(js, fetch(e.request), e.request).status
  }

  lemma RowHasEffect(js: Platform, fetch: Request -> Fetch, effects: seq<Effect>, i: nat)
    requires i < |RollupMultiEffects(js, fetch, effects).effects|
    ensures exists e :: e in effects && RollupMultiEffects(js, fetch, effects).effects[i].status == StatusOf(js, fetch, e)
  {
    var all := Map(ReconcileEffect(js, fetch), effects);
    var sorted := Sort(all, ReconciledById());
    SortContents(all, ReconciledById());
    var r := sorted[i];
    assert r in sorted;
    assert r in all;
    var j :| 0 <= j < |all| && all[j] == r;
    var e := effects[j];
    assert e in effects && r.output.status == StatusOf(js, fetch, e);
  }

  lemma EffectHasRow(js: Platform, fetch: Request -> Fetch, effects: seq<Effect>, e: Effect)
    requires e in effects
    ensures exists i :: 0 <= i < |RollupMultiEffects(js, fetch, effects).effects|
                        && RollupMultiEffects(js, fetch, effects).effects[i].status == StatusOf(js, fetch, e)
  {
    var all := Map(ReconcileEffect(js, fetch), effects);
    var sorted := Sort(all, ReconciledById());
    SortContents(all, ReconciledById());
    var j :| 0 <= j < |effects| && effects[j] == e;
    var r := all[j];
    assert r in all;
    assert r in sorted;
    var i :| 0 <= i < |sorted| && sorted[i] == r;
    assert RollupMultiEffects(js, fetch, effects).effects[i].status == r.output.status;
  }

  lemma RollupRows(js: Platform, fetch: Request -> Fetch, effects: seq<Effect>)
    ensures var rows := RollupMultiEffects(js, fetch, effects).effects;
            && Single(rows)
            && ((forall i :: 0 <= i < |rows| ==> rows[i].status.Verified?) <==>
                forall e :: e in effects ==> StatusOf(js, fetch, e).Verified?)
  {
    var rows := RollupMultiEffects(js, fetch, effects).effects;
    forall i | 0 <= i < |rows|
      ensures var s := rows[i].status; s.Verified? || s.IncompleteVerification? || Failed(s)
      ensures (forall e :: e in effects ==> StatusOf(js, fetch, e).Verified?) ==> rows[i].status.Verified?
    {
      RowHasEffect(js, fetch, effects, i);
      var e: Effect :| e in effects && rows[i].status == StatusOf(js, fetch, e);
      ReconciledSingle(js, fetch(e.request), e.request);
    }
    forall e | e in effects
      ensures (forall i :: 0 <= i < |rows| ==> rows[i].status.Verified?) ==> StatusOf(js, fetch, e).Verified?
    {
      EffectHasRow(js, fetch, effects, e);
    }
  }

  /** The rollup is verified iff every effect's claim holds of the database. */
  lemma RollupVerified(js: Platform, db: Db, fetch: Request -> Fetch, effects: seq<Effect>)
    requires Answers(fetch, db)
    ensures RollupMultiEffects(js, fetch, effects).status.Verified? <==> forall e :: e in effects ==> Claim(js, db, e.request)
  {
    RollupRows(js, fetch, effects);
    RollupDecides(RollupMultiEffects(js, fetch, effects).effects);
    forall e | e in effects
      ensures StatusOf(js, fetch, e).Verified? <==> Claim(js, db, e.request)
    {
      VerifiedMeansClaim(js, db, e.request, fetch(e.request));
    }
  }

  ghost predicate DistinctIds(effects: seq<Effect>) {
    forall i, j :: 0 <= i < j < |effects| ==> effects[i].id != effects[j].id
  }

  lemma SameReconciled(js: Platform, f: Request -> Fetch, g: Request -> Fetch, db: Db, effects: seq<Effect>)
    requires Answers(f, db) && Answers(g, db)
    ensures Map(ReconcileEffect(js, f), effects) == Map(ReconcileEffect(js, g), effects)
  {
    forall i | 0 <= i < |effects|
      ensures ReconcileEffect(js, f)(effects[i]) == ReconcileEffect(js, g)(effects[i])
    {
      var req := effects[i].request;
      FetchIrrelevant(js, db, req, f(req), g(req));
    }
  }

  /** The whole rollup depends neither on the order of effects with distinct ids nor on which rows the database returned. */
  lemma RollupOrderIrrelevant(js: Platform, f: Request -> Fetch, g: Request -> Fetch, db: Db, a: seq<Effect>, b: seq<Effect>)
    requires Answers(f, db) && Answers(g, db) && DistinctIds(a) && multiset(a) == multiset(b)
    ensures RollupMultiEffects(js, f, a) == RollupMultiEffects(js, g, b)
  {
    SameReconciled(js, f, g, db, b);
    var x, y := Map(ReconcileEffect(js, f), a), Map(ReconcileEffect(js, f), b);
    MapContents(ReconcileEffect(js, f), a, b);
    var le := ReconciledById();
    assert TotalPreorder(le) by {
      LeOrder();
      assert forall p, q :: le(p, q) == Le(p.id, q.id);
      forall p, q, r | le(p, q) && le(q, r) ensures le(p, r) {
        assert Le(p.id, q.id) && Le(q.id, r.id);
      }
    }
    assert Separates(x, le) by {
      forall p, q | p in x && q in x && le(p, q) && le(q, p) ensures p == q {
        LeOrder();
        var i :| 0 <= i < |x| && x[i] == p;
        var j :| 0 <= j < |x| && x[j] == q;
        assert x[i].id == a[i].id && x[j].id == a[j].id;
      }
    }
    SortPermutation(x, y, le);
  }

  // ----- a row that must be absent

  type AbsentRequest = RowSql.AbsentRequest

  function AbsentEqs(req: AbsentRequest): seq<Eq> { req.identityEq + req.filterEq }

  predicate AbsentRuns(db: Db, req: AbsentRequest) {
    AbsentEqs(req) != [] && RelationalCheck.HasColumns(db, req.table, EqColumns(AbsentEqs(req)))
  }

  /** COUNT read back as a number; bigints outside the safe range are unusable. */
  function ReconcileAbsent(db: Db, req: AbsentRequest, raw: RelationalCheck.Raw): Output {
    if !AbsentRuns(db, req) then
      Output(Verdicts.IncompleteVerification, [Reason("CONNECTOR_ERROR", None)], NoEvidence)
    else
      var norm := if raw.RawBool? then RelationalCheck.Unusable else RelationalCheck.NormalizeNumericActual(raw);
      if norm.Unusable? then Output(Verdicts.IncompleteVerification, [Reason("RELATIONAL_SCALAR_UNUSABLE", None)], NoEvidence)
      else if norm.n == 0.0 then Output(Verdicts.Verified, [], RowCount(0))
      else Output(Verdicts.Inconsistent, [Reason("ROW_PRESENT_WHEN_FORBIDDEN", None)], NoEvidence)
  }

  function AbsentCount(db: Db, req: AbsentRequest): nat
    requires req.table in db.tables
  {
    |RelationalCheck.Selected(db, EqValues(AbsentEqs(req)), db.tables[req.table].rows, ParamConds(Table([req.table]), AbsentEqs(req), 1))|
  }

  /** A database in which the table has one name answers the text of the count with the number of forbidden rows. */
  lemma CountAnswers(d: SqlText.Dialect, db: Db, req: AbsentRequest, text: Str)
    requires text == SqlText.Render(d, SqlText.RowStyle(d), RowSql.CountTokens(d, req)) && RowSql.TablePath(d, req.table) == [req.table]
    ensures SqlReader.Ask(d, SqlText.RowStyle(d), text, RowSql.Values(req), db) ==
            if AbsentRuns(db, req) then RelationalCheck.Count(AbsentCount(db, req)) else RelationalCheck.SqlError
  {
    RowSql.CountRead(d, req);
    RelationalCheck.ParamColumns(Table([req.table]), Table([req.table]), AbsentEqs(req), 1);
  }

  /** The counts that reading back accepts: numbers, and bigints in the safe range; not booleans and not text. */
  predicate ReadableCount(raw: RelationalCheck.Raw) { raw.RawNumber? || (raw.RawBigint? && RelationalCheck.SafeInteger(raw.i)) }

  /** Some row satisfies identity and filter. */
  predicate Present(db: Db, req: AbsentRequest)
    requires req.table in db.tables
  {
    exists r :: r in db.tables[req.table].rows && RelationalCheck.Satisfies(db, r, req.identityEq)
                && RelationalCheck.Satisfies(db, r, req.filterEq)
  }

  lemma AbsentCountMeans(db: Db, req: AbsentRequest)
    requires req.table in db.tables
    ensures AbsentCount(db, req) == 0 <==> !Present(db, req)
  {
    var rows := db.tables[req.table].rows;
    RelationalCheck.SelectedMeans(db, req.table, rows, AbsentEqs(req));
    RelationalCheck.ExistsMeans(db, rows, AbsentEqs(req));
    forall r: Row
      ensures RelationalCheck.Satisfies(db, r, AbsentEqs(req)) <==>
              RelationalCheck.Satisfies(db, r, req.identityEq) && RelationalCheck.Satisfies(db, r, req.filterEq)
    {
      SatisfiesConcat(db, r, req.identityEq, req.filterEq);
    }
  }

  /**
   * An absence check, whatever its driver answers: incomplete iff the query failed or the count is unreadable. From a
   * readable count it is verified iff no row satisfies identity and filter, and inconsistent iff some row does.
   */
  lemma AbsentVerdict(db: Db, req: AbsentRequest, raw: RelationalCheck.Raw)
    ensures ReconcileAbsent(db, req, raw).status.IncompleteVerification? <==> !AbsentRuns(db, req) || !ReadableCount(raw)
    ensures AbsentRuns(db, req) && ReadableCount(raw) && RelationalCheck.Represents(raw, RelationalCheck.Count(AbsentCount(db, req))) ==>
              && (ReconcileAbsent(db, req, raw).status.Verified? <==> !Present(db, req))
              && (ReconcileAbsent(db, req, raw).status.Inconsistent? <==> Present(db, req))
    ensures ReconcileAbsent(db, req, raw).reasons ==
            if !AbsentRuns(db, req) then [Reason("CONNECTOR_ERROR", None)]
            else if !ReadableCount(raw) then [Reason("RELATIONAL_SCALAR_UNUSABLE", None)]
            else if ReconcileAbsent(db, req, raw).status.Verified? then [] else [Reason("ROW_PRESENT_WHEN_FORBIDDEN", None)]
  {
    if AbsentRuns(db, req) { AbsentCountMeans(db, req); }
  }

  /** A count that arrives as text verifies no absence. */
  lemma TextCountNeverVerified(db: Db, req: AbsentRequest, s: Str)
    ensures ReconcileAbsent(db, req, RelationalCheck.RawText(s)).status.IncompleteVerification?
  {
    AbsentVerdict(db, req, RelationalCheck.RawText(s));
  }

  lemma SatisfiesConcat(db: Db, r: Row, a: seq<Eq>, b: seq<Eq>)
    ensures RelationalCheck.Satisfies(db, r, a + b) <==> RelationalCheck.Satisfies(db, r, a) && RelationalCheck.Satisfies(db, r, b)
  {
    assert forall i :: 0 <= i < |a| ==> (a + b)[i] == a[i];
    assert forall i :: 0 <= i < |b| ==> (a + b)[|a| + i] == b[i];
  }
}
