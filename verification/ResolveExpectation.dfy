/** From registry entry and tool parameters to a verification request in normal form (src/resolveExpectation.ts). */
module ResolveExpectation {
  import opened Sorting
  import opened Utf16
  import opened Json
  import opened SqlQuery
  import JsonPointer
  import RowSql

  /** A pointer as the registry schema admits it: it starts with a slash. */
  type Pointer = s: Str | s != [] && s[0] == JsonPointer.SLASH witness [47]

  datatype Text = Const(s: Str) | At(pointer: Pointer)

  /** text is String(const). */
  datatype Scalar = ConstScalar(text: Str) | ScalarAt(pointer: Pointer)

  datatype EqSpec = EqSpec(column: Text, value: Scalar)
  datatype RowSpec = RowSpec(table: Text, identityEq: seq<EqSpec>, requiredFields: Pointer)
  datatype AbsentSpec = AbsentSpec(table: Text, identityEq: seq<EqSpec>, filterEq: seq<EqSpec>)
  datatype EffectSpec = EffectSpec(id: Str, spec: RowSpec)

  datatype Field = Field(name: Str, value: Json)
  datatype RowRequest = RowRequest(table: Str, identityEq: seq<Eq>, requiredFields: seq<Field>)
  type AbsentRequest = RowSql.AbsentRequest
  datatype Effect = Effect(id: Str, request: RowRequest)

  datatype Res<T> = Ok(value: T) | Err(code: string)

  /** The parameters of the tool call, and String(x) for scalars that are no strings. */
  datatype Params = Params(doc: Json, text: JsonPointer.Cur -> Str)

  /** String(x). */
  function TextOf(params: Params, c: JsonPointer.Cur): Str {
    match c
    case Doc(String(s)) => s
    case _ => params.text(c)
  }

  function Get(params: Params, p: Pointer): JsonPointer.Cur {
    JsonPointer.Walk(JsonPointer.Doc(params.doc), JsonPointer.Tokens(p))
  }

  predicate Missing(c: JsonPointer.Cur) { c.Undefined? || c == JsonPointer.Doc(Null) }

  // ----- scalar resolvers

  predicate IdentStart(c: Unit) { 97 <= c <= 122 || 65 <= c <= 90 || c == 95 }

  /** /^[a-zA-Z_][a-zA-Z0-9_]*$/ */
  predicate IsIdent(s: Str) {
    s != [] && IdentStart(s[0]) && forall i :: 1 <= i < |s| ==> IdentStart(s[i]) || 48 <= s[i] <= 57
  }

  function ResolveString(params: Params, spec: Text): Res<Str> {
    match spec
    case Const(s) => if s == [] then Err("CONST_STRING_EMPTY") else Ok(s)
    case At(p) =>
      var got := Get(params, p);
      if Missing(got) then Err("STRING_SPEC_POINTER_MISSING")
      else if !(got.Doc? && got.v.String?) then Err("STRING_SPEC_TYPE")
      else if got.v.s == [] then Err("STRING_SPEC_EMPTY")
      else Ok(got.v.s)
  }

  function ResolveKeyValue(params: Params, spec: Scalar): Res<Str> {
    match spec
    case ConstScalar(text) => Ok(text)
    case ScalarAt(p) =>
      var got := Get(params, p);
      if Missing(got) then Err("KEY_VALUE_POINTER_MISSING")
      else if JsonPointer.IsObject(got) then Err("KEY_VALUE_NOT_SCALAR")
      else Ok(TextOf(params, got))
  }

  function ResolveTable(params: Params, spec: Text): Res<Str> {
    var table :=
      match spec
      case Const(s) => Ok(s)
      case At(p) =>
        var got := Get(params, p);
        if got.Doc? && got.v.String? && got.v.s != [] then Ok(got.v.s) else Err("TABLE_POINTER_INVALID");
    if table.Ok? && !IsIdent(table.value) then Err("INVALID_IDENTIFIER") else table
  }

  // ----- equality lists

  /** taken are the columns that may not occur: none for an identity, the identity's for a filter. */
  function ResolvePair(params: Params, taken: set<Str>, spec: EqSpec): Res<Eq> {
    var col := ResolveString(params, spec.column);
    if col.Err? then Err(col.code)
    else if !IsIdent(col.value) then Err("INVALID_IDENTIFIER")
    else if col.value in taken then Err("FILTER_EQ_OVERLAPS_IDENTITY")
    else
      var val := ResolveKeyValue(params, spec.value);
      if val.Err? then Err(val.code) else Ok(Eq(col.value, val.value))
  }

  function ResolvePairs(params: Params, taken: set<Str>, specs: seq<EqSpec>): Res<seq<Eq>> {
    if specs == [] then Ok([]) else
    var first := ResolvePair(params, taken, specs[0]);
    if first.Err? then Err(first.code) else
    var rest := ResolvePairs(params, taken, specs[1..]);
    if rest.Err? then rest else Ok([first.value] + rest.value)
  }

  predicate ByColumn(a: Eq, b: Eq) { Le(a.column, b.column) }

  predicate NeighboursDiffer(s: seq<Eq>) { forall i :: 1 <= i < |s| ==> s[i].column != s[i - 1].column }

  function Normalize(pairs: seq<Eq>): Res<seq<Eq>> {
    var sorted := Sort(pairs, ByColumn);
    if NeighboursDiffer(sorted) then Ok(sorted) else Err("EQUALITY_DUPLICATE_COLUMN")
  }

  function EqualityList(params: Params, taken: set<Str>, specs: seq<EqSpec>): Res<seq<Eq>> {
    var raw := ResolvePairs(params, taken, specs);
    if raw.Err? then raw else Normalize(raw.value)
  }

  method NormalizeSortedIdentityEq(pairs: seq<Eq>) returns (r: Res<seq<Eq>>)
    ensures r == Normalize(pairs)
  {
    var sorted := Sort(pairs, ByColumn);
    var i := 1;
    while i < |sorted|
      invariant 1 <= i && forall k :: 1 <= k < i && k < |sorted| ==> sorted[k].column != sorted[k - 1].column
    {
      if sorted[i].column == sorted[i - 1].column {
        return Err("EQUALITY_DUPLICATE_COLUMN");
      }
      i := i + 1;
    }
    return Ok(sorted);
  }

  function After<T>(front: seq<T>, rest: Res<seq<T>>): Res<seq<T>> {
    if rest.Err? then rest else Ok(front + rest.value)
  }

  lemma Prefixed<T>(rest: Res<seq<T>>)
    ensures After([], rest) == rest
  {
    if rest.Ok? { assert [] + rest.value == rest.value; }
  }

  lemma OneMore<T>(front: seq<T>, x: T, rest: Res<seq<T>>)
    ensures After(front, if rest.Err? then rest else Ok([x] + rest.value)) == After(front + [x], rest)
  {
    if rest.Ok? { assert front + ([x] + rest.value) == front + [x] + rest.value; }
  }

  /** The loop that resolves pairs in registry order and stops at the first error, then normalises. */
  method ResolveEqualityList(params: Params, taken: set<Str>, specs: seq<EqSpec>) returns (r: Res<seq<Eq>>)
    ensures ListFor(params, taken, specs, r)
    ensures r == EqualityList(params, taken, specs)
  {
    var raw: seq<Eq> := [];
    assert specs[0..] == specs;
    Prefixed(ResolvePairs(params, taken, specs));
    for i := 0 to |specs|
      invariant ResolvePairs(params, taken, specs) == After(raw, ResolvePairs(params, taken, specs[i..]))
    {
      assert specs[i..][1..] == specs[i + 1..];
      var p := ResolvePair(params, taken, specs[i]);
      if p.Err? {
        ListMeans(params, taken, specs);
        return Err(p.code);
      }
      OneMore(raw, p.value, ResolvePairs(params, taken, specs[i + 1..]));
      raw := raw + [p.value];
    }
    assert raw + [] == raw;
    r := NormalizeSortedIdentityEq(raw);
    ListMeans(params, taken, specs);
  }

  /** A pointer reaches the value that its tokens lead to step by step, unless they end on an inherited name. */
  lemma PointerReaches(params: Params, p: Pointer)
    ensures Get(params, p) == JsonPointer.Reached(JsonPointer.Direct(params.doc, JsonPointer.Tokens(p))) <==>
            !JsonPointer.EndsInherited(params.doc, JsonPointer.Tokens(p))
  {
    JsonPointer.WalkMatches(params.doc, JsonPointer.Tokens(p));
  }

  // ----- what a list resolves to, from its specs and what their pointers reach

  /** The non-empty string that a spec names. */
  predicate NamesString(params: Params, spec: Text, s: Str) {
    s != [] &&
    match spec
    case Const(c) => s == c
    case At(p) => Get(params, p) == JsonPointer.Doc(String(s))
  }

  /** The text of the scalar that a spec holds: a string is its own text. */
  predicate HoldsValue(params: Params, spec: Scalar, t: Str) {
    match spec
    case ConstScalar(text) => t == text
    case ScalarAt(p) =>
      var c := Get(params, p);
      && !Missing(c) && !JsonPointer.IsObject(c)
      && if c.Doc? && c.v.String? then t == c.v.s else t == params.text(c)
  }

  predicate PairFor(params: Params, taken: set<Str>, spec: EqSpec, e: Eq) {
    NamesString(params, spec.column, e.column) && IsIdent(e.column) && e.column !in taken && HoldsValue(params, spec.value, e.value)
  }

  predicate StringFault(params: Params, spec: Text, code: string) {
    match spec
    case Const(c) => c == [] && code == "CONST_STRING_EMPTY"
    case At(p) =>
      var c := Get(params, p);
      || (Missing(c) && code == "STRING_SPEC_POINTER_MISSING")
      || (!Missing(c) && !(c.Doc? && c.v.String?) && code == "STRING_SPEC_TYPE")
      || (c == JsonPointer.Doc(String([])) && code == "STRING_SPEC_EMPTY")
  }

  predicate ValueFault(params: Params, spec: Scalar, code: string) {
    spec.ScalarAt? &&
    var c := Get(params, spec.pointer);
    || (Missing(c) && code == "KEY_VALUE_POINTER_MISSING")
    || (!Missing(c) && JsonPointer.IsObject(c) && code == "KEY_VALUE_NOT_SCALAR")
  }

  /** Why a spec gives no pair: its column first, then its value. */
  ghost predicate PairFault(params: Params, taken: set<Str>, spec: EqSpec, code: string) {
    || StringFault(params, spec.column, code)
    || exists s :: NamesString(params, spec.column, s)
                   && if !IsIdent(s) then code == "INVALID_IDENTIFIER"
                      else if s in taken then code == "FILTER_EQ_OVERLAPS_IDENTITY"
                      else ValueFault(params, spec.value, code)
  }

  ghost predicate PairsFor(params: Params, taken: set<Str>, specs: seq<EqSpec>, pairs: seq<Eq>) {
    |pairs| == |specs| && forall i :: 0 <= i < |specs| ==> PairFor(params, taken, specs[i], pairs[i])
  }

  /** Spec i is the first that gives no pair. */
  ghost predicate FirstPairFault(params: Params, taken: set<Str>, specs: seq<EqSpec>, i: nat, code: string) {
    && i < |specs| && PairFault(params, taken, specs[i], code)
    && exists pairs :: PairsFor(params, taken, specs[..i], pairs)
  }

  /**
   * A list resolves to exactly one pair for each spec, ascending by column, or fails for the first spec that gives no
   * pair, or because two columns coincide.
   */
  ghost predicate ListFor(params: Params, taken: set<Str>, specs: seq<EqSpec>, r: Res<seq<Eq>>) {
    match r
    case Ok(eqs) => Ascending(Columns(eqs)) && exists pairs :: PairsFor(params, taken, specs, pairs) && multiset(eqs) == multiset(pairs)
    case Err(code) =>
      || (exists i: nat :: FirstPairFault(params, taken, specs, i, code))
      || (code == "EQUALITY_DUPLICATE_COLUMN" && exists pairs :: PairsFor(params, taken, specs, pairs) && !Distinct(Columns(pairs)))
  }

  lemma StringMeans(params: Params, spec: Text)
    ensures match ResolveString(params, spec) case Ok(s) => NamesString(params, spec, s) case Err(code) => StringFault(params, spec, code)
  {
  }

  lemma ValueMeans(params: Params, spec: Scalar)
    ensures match ResolveKeyValue(params, spec) case Ok(t) => HoldsValue(params, spec, t) case Err(code) => ValueFault(params, spec, code)
  {
  }

  lemma PairMeans(params: Params, taken: set<Str>, spec: EqSpec)
    ensures match ResolvePair(params, taken, spec)
            case Ok(e) => PairFor(params, taken, spec, e)
            case Err(code) => PairFault(params, taken, spec, code)
  {
    StringMeans(params, spec.column);
    ValueMeans(params, spec.value);
  }

  lemma PairsMore(params: Params, taken: set<Str>, specs: seq<EqSpec>, e: Eq, rest: seq<Eq>)
    requires specs != [] && PairFor(params, taken, specs[0], e) && PairsFor(params, taken, specs[1..], rest)
    ensures PairsFor(params, taken, specs, [e] + rest)
  {
    forall i | 1 <= i < |specs| ensures PairFor(params, taken, specs[i], ([e] + rest)[i]) {
      assert specs[i] == specs[1..][i - 1];
    }
  }

  lemma FaultLater(params: Params, taken: set<Str>, specs: seq<EqSpec>, e: Eq, i: nat, code: string)
    requires specs != [] && PairFor(params, taken, specs[0], e) && FirstPairFault(params, taken, specs[1..], i, code)
    ensures FirstPairFault(params, taken, specs, i + 1, code)
  {
    var pairs :| PairsFor(params, taken, specs[1..][..i], pairs);
    assert specs[..i + 1][1..] == specs[1..][..i];
    PairsMore(params, taken, specs[..i + 1], e, pairs);
  }

  lemma FaultFirst(params: Params, taken: set<Str>, specs: seq<EqSpec>, code: string)
    requires specs != [] && PairFault(params, taken, specs[0], code)
    ensures FirstPairFault(params, taken, specs, 0, code)
  {
    assert PairsFor(params, taken, specs[..0], []);
  }

  lemma {:induction false} PairsFound(params: Params, taken: set<Str>, specs: seq<EqSpec>)
    requires ResolvePairs(params, taken, specs).Ok?
    ensures PairsFor(params, taken, specs, ResolvePairs(params, taken, specs).value)
  {
    if specs != [] {
      PairMeans(params, taken, specs[0]);
      PairsFound(params, taken, specs[1..]);
      PairsMore(params, taken, specs, ResolvePair(params, taken, specs[0]).value, ResolvePairs(params, taken, specs[1..]).value);
    }
  }

  lemma {:induction false} FaultFound(params: Params, taken: set<Str>, specs: seq<EqSpec>) returns (i: nat)
    requires ResolvePairs(params, taken, specs).Err?
    ensures FirstPairFault(params, taken, specs, i, ResolvePairs(params, taken, specs).code)
  {
    PairMeans(params, taken, specs[0]);
    if ResolvePair(params, taken, specs[0]).Err? {
      FaultFirst(params, taken, specs, ResolvePair(params, taken, specs[0]).code);
      i := 0;
    } else {
      i := FaultFound(params, taken, specs[1..]);
      FaultLater(params, taken, specs, ResolvePair(params, taken, specs[0]).value, i, ResolvePairs(params, taken, specs[1..]).code);
      i := i + 1;
    }
  }

  /** What a list of equalities resolves to: the pairs its specs name, or why there is none. */
  lemma ListMeans(params: Params, taken: set<Str>, specs: seq<EqSpec>)
    ensures ListFor(params, taken, specs, EqualityList(params, taken, specs))
  {
    var raw := ResolvePairs(params, taken, specs);
    if raw.Ok? {
      PairsFound(params, taken, specs);
      NormalizeMeans(raw.value);
    } else {
      var i := FaultFound(params, taken, specs);
    }
  }

  lemma PairOnce(params: Params, taken: set<Str>, spec: EqSpec, e: Eq, f: Eq)
    requires PairFor(params, taken, spec, e) && PairFor(params, taken, spec, f)
    ensures e == f
  {
  }

  lemma PairOrFault(params: Params, taken: set<Str>, spec: EqSpec, e: Eq, code: string)
    requires PairFor(params, taken, spec, e)
    ensures !PairFault(params, taken, spec, code)
  {
  }

  /** The specs and their pointers leave no choice: two results that they admit agree. */
  lemma ListOnce(params: Params, taken: set<Str>, specs: seq<EqSpec>, a: Res<seq<Eq>>, eqs: seq<Eq>)
    requires ListFor(params, taken, specs, a) && ListFor(params, taken, specs, Ok(eqs))
    ensures a == Ok(eqs)
  {
    var pairs :| PairsFor(params, taken, specs, pairs) && multiset(eqs) == multiset(pairs);
    forall i, code | 0 <= i < |specs| ensures !PairFault(params, taken, specs[i], code) {
      PairOrFault(params, taken, specs[i], pairs[i], code);
    }
    forall other | PairsFor(params, taken, specs, other) ensures other == pairs {
      forall i | 0 <= i < |specs| ensures other[i] == pairs[i] {
        PairOnce(params, taken, specs[i], other[i], pairs[i]);
      }
    }
    SameColumns(eqs, pairs);
    assert a.Ok?;
    ByColumnOrder();
    AscendingSeparates(eqs);
    AscendingSeparates(a.value);
    SortedUnique(a.value, eqs, ByColumn);
  }

  lemma SameColumns(a: seq<Eq>, b: seq<Eq>)
    requires multiset(a) == multiset(b) && Ascending(Columns(a))
    ensures Distinct(Columns(b))
  {
    MapContents((e: Eq) => e.column, a, b);
    assert Columns(a) == Map((e: Eq) => e.column, a) && Columns(b) == Map((e: Eq) => e.column, b);
    assert Distinct(Columns(a)) by {
      forall i, j | 0 <= i < j < |Columns(a)| ensures Columns(a)[i] != Columns(a)[j] {
        assert Less(Columns(a)[i], Columns(a)[j]);
      }
    }
    DistinctContents(Columns(a), Columns(b));
  }

  lemma AscendingSeparates(a: seq<Eq>)
    requires Ascending(Columns(a))
    ensures Sorted(a, ByColumn) && Separates(a, ByColumn)
  {
    forall i, j | 0 <= i < j < |a| ensures ByColumn(a[i], a[j]) && a[i].column != a[j].column {
      assert Less(Columns(a)[i], Columns(a)[j]);
    }
    assert Distinct(Columns(a));
    SeparateColumns(a);
  }

  // ----- requests

  /** requiredFields[k] = v on a plain object: assigning a scalar to __proto__ adds no property. */
  function Assign(fields: seq<Field>, f: Field): seq<Field> {
    if f.name == JsonPointer.PROTO then fields else fields + [f]
  }

  function FieldsFrom(es: seq<Entry>, fields: seq<Field>): Res<seq<Field>> {
    if es == [] then Ok(fields)
    else if !IsIdent(es[0].key) then Err("INVALID_IDENTIFIER")
    else if es[0].value.Array? || es[0].value.Object? then Err("REQUIRED_FIELDS_VALUE_NOT_SCALAR")
    else FieldsFrom(es[1..], Assign(fields, Field(es[0].key, es[0].value)))
  }

  function RequiredFields(params: Params, p: Pointer): Res<seq<Field>> {
    var raw := Get(params, p);
    if Missing(raw) then Err("REQUIRED_FIELDS_POINTER_MISSING")
    else if raw.Prototype? then Ok([])
    else if !(raw.Doc? && raw.v.Object?) then Err("REQUIRED_FIELDS_NOT_OBJECT")
    else FieldsFrom(raw.v.entries, [])
  }

  function ResolveRow(params: Params, spec: RowSpec): Res<RowRequest> {
    var table := ResolveTable(params, spec.table);
    if table.Err? then Err(table.code) else
    var identity := EqualityList(params, {}, spec.identityEq);
    if identity.Err? then Err(identity.code) else
    var fields := RequiredFields(params, spec.requiredFields);
    if fields.Err? then Err(fields.code) else
    Ok(RowRequest(table.value, identity.value, fields.value))
  }

  function ResolveAbsent(params: Params, spec: AbsentSpec): Res<AbsentRequest> {
    var table := ResolveTable(params, spec.table);
    if table.Err? then Err(table.code) else
    var identity := EqualityList(params, {}, spec.identityEq);
    if identity.Err? then Err(identity.code) else
    var filter := EqualityList(params, EqColumns(identity.value), spec.filterEq);
    if filter.Err? then Err(filter.code) else
    Ok(RowSql.AbsentRequest(table.value, identity.value, filter.value))
  }

  predicate ById(a: Effect, b: Effect) { Le(a.id, b.id) }

  function EffectsFrom(params: Params, items: seq<EffectSpec>, seen: set<Str>): Res<seq<Effect>> {
    if items == [] then Ok([])
    else if items[0].id in seen then Err("DUPLICATE_EFFECT_ID")
    else
      var row := ResolveRow(params, items[0].spec);
      if row.Err? then Err(row.code) else
      var rest := EffectsFrom(params, items[1..], seen + {items[0].id});
      if rest.Err? then rest else Ok([Effect(items[0].id, row.value)] + rest.value)
  }

  function ResolveEffects(params: Params, items: seq<EffectSpec>): Res<seq<Effect>> {
    var effects := EffectsFrom(params, items, {});
    if effects.Err? then effects else Ok(Sort(effects.value, ById))
  }

  method ResolveSqlEffects(params: Params, items: seq<EffectSpec>) returns (r: Res<seq<Effect>>)
    ensures EffectsFor(params, items, r)
    ensures r == ResolveEffects(params, items)
  {
    r := EffectsInOrder(params, items);
    EffectsMean(params, items);
  }

  method EffectsInOrder(params: Params, items: seq<EffectSpec>) returns (r: Res<seq<Effect>>)
    ensures r == ResolveEffects(params, items)
  {
    var seen: set<Str> := {};
    var effects: seq<Effect> := [];
    assert items[0..] == items;
    Prefixed(EffectsFrom(params, items, {}));
    for i := 0 to |items|
      invariant EffectsFrom(params, items, {}) == After(effects, EffectsFrom(params, items[i..], seen))
    {
      var item := items[i];
      assert items[i..][1..] == items[i + 1..];
      if item.id in seen {
        return Err("DUPLICATE_EFFECT_ID");
      }
      var row := ResolveRow(params, item.spec);
      if row.Err? {
        return Err(row.code);
      }
      OneMore(effects, Effect(item.id, row.value), EffectsFrom(params, items[i + 1..], seen + {item.id}));
      seen := seen + {item.id};
      effects := effects + [Effect(item.id, row.value)];
    }
    assert effects + [] == effects;
    effects := Sort(effects, ById);
    return Ok(effects);
  }

  // ----- normal form

  function Columns(eqs: seq<Eq>): (r: seq<Str>)
    ensures |r| == |eqs|
  {
    seq(|eqs|, i requires 0 <= i < |eqs| => eqs[i].column)
  }

  function Ids(effects: seq<Effect>): (r: seq<Str>)
    ensures |r| == |effects|
  {
    seq(|effects|, i requires 0 <= i < |effects| => effects[i].id)
  }

  /** Valid column names in strictly ascending order, none of them taken. */
  ghost predicate NormalEqs(eqs: seq<Eq>, taken: set<Str>) {
    Ascending(Columns(eqs)) && forall i :: 0 <= i < |eqs| ==> IsIdent(eqs[i].column) && eqs[i].column !in taken
  }

  ghost predicate NormalRow(r: RowRequest) {
    && IsIdent(r.table) && NormalEqs(r.identityEq, {})
    && forall i :: 0 <= i < |r.requiredFields| ==>
         IsIdent(r.requiredFields[i].name) && !r.requiredFields[i].value.Array? && !r.requiredFields[i].value.Object?
  }

  ghost predicate NormalAbsent(r: AbsentRequest) {
    IsIdent(r.table) && NormalEqs(r.identityEq, {}) && NormalEqs(r.filterEq, EqColumns(r.identityEq))
  }

  ghost predicate NormalEffects(effects: seq<Effect>) {
    Ascending(Ids(effects)) && forall i :: 0 <= i < |effects| ==> NormalRow(effects[i].request)
  }

  lemma ByColumnOrder()
    ensures TotalPreorder(ByColumn)
  {
    LeOrder();
    forall a, b, c | ByColumn(a, b) && ByColumn(b, c) ensures ByColumn(a, c) {
      assert Le(a.column, b.column) && Le(b.column, c.column);
    }
  }

  lemma ByIdOrder()
    ensures TotalPreorder(ById)
  {
    LeOrder();
    forall a, b, c | ById(a, b) && ById(b, c) ensures ById(a, c) {
      assert Le(a.id, b.id) && Le(b.id, c.id);
    }
  }

  /** In a sorted list, differing neighbours make all columns differ. */
  lemma SortedNeighbours(s: seq<Eq>)
    requires Sorted(s, ByColumn)
    ensures NeighboursDiffer(s) <==> Ascending(Columns(s))
    ensures NeighboursDiffer(s) <==> Distinct(Columns(s))
  {
    LeOrder();
    var c := Columns(s);
    if NeighboursDiffer(s) {
      forall i, j | 0 <= i < j < |c| ensures Less(c[i], c[j]) {
        assert ByColumn(s[i], s[j - 1]) || i == j - 1;
        assert ByColumn(s[j - 1], s[j]) && ByColumn(s[i], s[j]);
        assert s[j].column != s[j - 1].column;
      }
    }
    if Ascending(c) || Distinct(c) {
      forall i | 1 <= i < |s| ensures s[i].column != s[i - 1].column {
        assert c[i - 1] != c[i];
      }
    }
  }

  lemma {:induction false} PairsSucceed(params: Params, taken: set<Str>, specs: seq<EqSpec>)
    ensures ResolvePairs(params, taken, specs).Ok? <==> forall s :: s in specs ==> ResolvePair(params, taken, s).Ok?
  {
    if specs != [] {
      PairsSucceed(params, taken, specs[1..]);
      assert specs == [specs[0]] + specs[1..];
    }
  }

  lemma {:induction false} PairsValue(params: Params, taken: set<Str>, specs: seq<EqSpec>)
    requires ResolvePairs(params, taken, specs).Ok?
    ensures ResolvePairs(params, taken, specs).value == Map(PairOf(params, taken), specs)
  {
    if specs != [] {
      PairsValue(params, taken, specs[1..]);
      assert Map(PairOf(params, taken), specs)[1..] == Map(PairOf(params, taken), specs[1..]);
    }
  }

  lemma PairsResolve(params: Params, taken: set<Str>, specs: seq<EqSpec>)
    ensures ResolvePairs(params, taken, specs).Ok? <==> forall s :: s in specs ==> ResolvePair(params, taken, s).Ok?
    ensures ResolvePairs(params, taken, specs).Ok? ==> ResolvePairs(params, taken, specs).value == Map(PairOf(params, taken), specs)
  {
    PairsSucceed(params, taken, specs);
    if ResolvePairs(params, taken, specs).Ok? {
      PairsValue(params, taken, specs);
    }
  }

  /** The pair a spec resolves to, where it does. */
  function PairOf(params: Params, taken: set<Str>): EqSpec -> Eq {
    (s: EqSpec) => match ResolvePair(params, taken, s) case Ok(e) => e case Err(_) => Eq([], [])
  }

  lemma SortedColumns(pairs: seq<Eq>)
    ensures multiset(Columns(Sort(pairs, ByColumn))) == multiset(Columns(pairs))
  {
    SortContents(pairs, ByColumn);
    MapContents((e: Eq) => e.column, Sort(pairs, ByColumn), pairs);
    assert Columns(pairs) == Map((e: Eq) => e.column, pairs);
    assert Columns(Sort(pairs, ByColumn)) == Map((e: Eq) => e.column, Sort(pairs, ByColumn));
  }

  lemma {:induction false} DistinctContents(a: seq<Str>, b: seq<Str>)
    requires multiset(a) == multiset(b)
    ensures Distinct(a) <==> Distinct(b)
  {
    if Distinct(a) { CountsOnce(a); OnceDistinct(b); }
    if Distinct(b) { CountsOnce(b); OnceDistinct(a); }
  }

  lemma {:induction false} CountsOnce(s: seq<Str>)
    requires Distinct(s)
    ensures forall x :: multiset(s)[x] <= 1
  {
    if s != [] {
      CountsOnce(s[1..]);
      assert s == [s[0]] + s[1..];
      assert s[0] !in s[1..];
    }
  }

  lemma OnceDistinct(s: seq<Str>)
    requires forall x :: multiset(s)[x] <= 1
    ensures Distinct(s)
  {
    forall i, j | 0 <= i < j < |s| ensures s[i] != s[j] {
      assert s == s[..i] + [s[i]] + s[i + 1..];
      assert s[j] in s[i + 1..] by { assert s[i + 1..][j - i - 1] == s[j]; }
      assert multiset(s)[s[i]] >= 1 + multiset(s[i + 1..])[s[i]];
    }
  }

  /** A list normalises iff its columns are distinct, and then it is sorted. */
  lemma NormalizeMeans(pairs: seq<Eq>)
    ensures Normalize(pairs).Ok? <==> Distinct(Columns(pairs))
    ensures Normalize(pairs).Ok? ==> Ascending(Columns(Normalize(pairs).value)) && multiset(Normalize(pairs).value) == multiset(pairs)
  {
    var s := Sort(pairs, ByColumn);
    ByColumnOrder();
    SortSorted(pairs, ByColumn);
    SortContents(pairs, ByColumn);
    SortedNeighbours(s);
    SortedColumns(pairs);
    DistinctContents(Columns(s), Columns(pairs));
  }

  lemma PairsNormal(params: Params, taken: set<Str>, specs: seq<EqSpec>, eqs: seq<Eq>)
    requires forall s :: s in specs ==> ResolvePair(params, taken, s).Ok?
    requires multiset(eqs) == multiset(Map(PairOf(params, taken), specs))
    ensures forall i :: 0 <= i < |eqs| ==> IsIdent(eqs[i].column) && eqs[i].column !in taken
  {
    var raw := Map(PairOf(params, taken), specs);
    SameElements(eqs, raw);
    forall i | 0 <= i < |eqs| ensures IsIdent(eqs[i].column) && eqs[i].column !in taken {
      var e := eqs[i];
      assert e in eqs;
      var j :| 0 <= j < |raw| && raw[j] == e;
      assert specs[j] in specs;
    }
  }

  lemma EqualityListNormal(params: Params, taken: set<Str>, specs: seq<EqSpec>)
    ensures EqualityList(params, taken, specs).Ok? ==> NormalEqs(EqualityList(params, taken, specs).value, taken)
  {
    var raw := ResolvePairs(params, taken, specs);
    PairsResolve(params, taken, specs);
    if raw.Ok? {
      NormalizeMeans(raw.value);
      if Normalize(raw.value).Ok? {
        PairsNormal(params, taken, specs, Normalize(raw.value).value);
      }
    }
  }

  lemma {:induction false} FieldsNormal(es: seq<Entry>, fields: seq<Field>)
    requires forall i :: 0 <= i < |fields| ==> IsIdent(fields[i].name) && !fields[i].value.Array? && !fields[i].value.Object?
    ensures FieldsFrom(es, fields).Ok? ==>
              forall i :: 0 <= i < |FieldsFrom(es, fields).value| ==>
                var f := FieldsFrom(es, fields).value[i]; IsIdent(f.name) && !f.value.Array? && !f.value.Object?
  {
    if es != [] && IsIdent(es[0].key) && !es[0].value.Array? && !es[0].value.Object? {
      FieldsNormal(es[1..], Assign(fields, Field(es[0].key, es[0].value)));
    }
  }

  /** A resolved row request is in normal form. */
  lemma RowNormal(params: Params, spec: RowSpec)
    ensures ResolveRow(params, spec).Ok? ==> NormalRow(ResolveRow(params, spec).value)
  {
    EqualityListNormal(params, {}, spec.identityEq);
    var raw := Get(params, spec.requiredFields);
    if raw.Doc? && raw.v.Object? {
      FieldsNormal(raw.v.entries, []);
    }
  }

  /** A resolved absence request is in normal form, its filter disjoint from its identity. */
  lemma AbsentNormal(params: Params, spec: AbsentSpec)
    ensures ResolveAbsent(params, spec).Ok? ==> NormalAbsent(ResolveAbsent(params, spec).value)
  {
    EqualityListNormal(params, {}, spec.identityEq);
    var identity := EqualityList(params, {}, spec.identityEq);
    if identity.Ok? {
      EqualityListNormal(params, EqColumns(identity.value), spec.filterEq);
    }
  }

  // ----- which fields are required

  function KeptFields(es: seq<Entry>): seq<Field> {
    if es == [] then []
    else (if es[0].key == JsonPointer.PROTO then [] else [Field(es[0].key, es[0].value)]) + KeptFields(es[1..])
  }

  lemma {:induction false} FieldsKept(es: seq<Entry>, fields: seq<Field>)
    ensures FieldsFrom(es, fields).Ok? <==>
            forall i :: 0 <= i < |es| ==> IsIdent(es[i].key) && !es[i].value.Array? && !es[i].value.Object?
    ensures FieldsFrom(es, fields).Ok? ==> FieldsFrom(es, fields).value == fields + KeptFields(es)
  {
    if es != [] {
      var next := Assign(fields, Field(es[0].key, es[0].value));
      FieldsKept(es[1..], next);
      assert forall i :: 1 <= i < |es| ==> es[i] == es[1..][i - 1];
      assert next + KeptFields(es[1..]) == fields + KeptFields(es);
    }
  }

  function AllFields(es: seq<Entry>): (r: seq<Field>)
    ensures |r| == |es|
  {
    seq(|es|, i requires 0 <= i < |es| => Field(es[i].key, es[i].value))
  }

  lemma {:induction false} KeptAll(es: seq<Entry>)
    ensures |KeptFields(es)| <= |es|
    ensures KeptFields(es) == AllFields(es) <==> forall i :: 0 <= i < |es| ==> es[i].key != JsonPointer.PROTO
  {
    if es != [] {
      KeptAll(es[1..]);
      assert AllFields(es) == [Field(es[0].key, es[0].value)] + AllFields(es[1..]);
      assert forall i :: 1 <= i < |es| ==> es[i] == es[1..][i - 1];
      if es[0].key != JsonPointer.PROTO {
        assert KeptFields(es)[1..] == KeptFields(es[1..]);
        assert AllFields(es)[1..] == AllFields(es[1..]);
      }
    }
  }

  /** A successful resolution requires every field of the object iff none is named __proto__, which is dropped silently. */
  lemma EveryFieldRequired(params: Params, p: Pointer)
    requires Get(params, p).Doc? && Get(params, p).v.Object? && RequiredFields(params, p).Ok?
    ensures RequiredFields(params, p).value == AllFields(Get(params, p).v.entries) <==>
            forall i :: 0 <= i < |Get(params, p).v.entries| ==> Get(params, p).v.entries[i].key != JsonPointer.PROTO
  {
    var es := Get(params, p).v.entries;
    FieldsKept(es, []);
    KeptAll(es);
    assert [] + KeptFields(es) == KeptFields(es);
  }

  /** Parameters {"f": {"__proto__": true}} and the pointer /f name one field, and none is required. */
  lemma ProtoDropped(params: Params, p: Pointer)
    requires params.doc == Object([Entry(Ascii("f"), Object([Entry(JsonPointer.PROTO, Bool(true))]))])
    requires p == JsonPointer.PointerText([Ascii("f")])
    ensures Get(params, p) == JsonPointer.Doc(Object([Entry(JsonPointer.PROTO, Bool(true))]))
    ensures RequiredFields(params, p) == Ok([])
  {
    var tokens := [Ascii("f")];
    var inner := Object([Entry(JsonPointer.PROTO, Bool(true))]);
    JsonPointer.TokensOfText(tokens);
    assert tokens[1..] == [];
    assert JsonPointer.StepInto(JsonPointer.Doc(params.doc), Ascii("f")) == JsonPointer.Doc(inner);
    assert JsonPointer.Walk(JsonPointer.Doc(params.doc), tokens) == JsonPointer.Walk(JsonPointer.Doc(inner), []);
    ProtoFieldDropped(inner.entries);
  }

  lemma ProtoFieldDropped(es: seq<Entry>)
    requires es == [Entry(JsonPointer.PROTO, Bool(true))]
    ensures FieldsFrom(es, []) == Ok([])
  {
    assert IsIdent(JsonPointer.PROTO);
    assert es[1..] == [];
  }

  // ----- order of the registry lists does not matter

  /** Both fail, or both succeed with one result. */
  ghost predicate SameOutcome<T>(a: Res<T>, b: Res<T>) { a.Ok? == b.Ok? && (a.Ok? ==> a == b) }

  lemma SeparateColumns(pairs: seq<Eq>)
    requires Distinct(Columns(pairs))
    ensures Separates(pairs, ByColumn)
  {
    LeOrder();
    forall x, y | x in pairs && y in pairs && ByColumn(x, y) && ByColumn(y, x) ensures x == y {
      var i :| 0 <= i < |pairs| && pairs[i] == x;
      var j :| 0 <= j < |pairs| && pairs[j] == y;
      assert Columns(pairs)[i] == Columns(pairs)[j];
    }
  }

  lemma NormalizePermutation(a: seq<Eq>, b: seq<Eq>)
    requires multiset(a) == multiset(b)
    ensures SameOutcome(Normalize(a), Normalize(b))
  {
    NormalizeMeans(a);
    NormalizeMeans(b);
    MapContents((e: Eq) => e.column, a, b);
    assert Columns(a) == Map((e: Eq) => e.column, a) && Columns(b) == Map((e: Eq) => e.column, b);
    DistinctContents(Columns(a), Columns(b));
    if Distinct(Columns(a)) {
      ByColumnOrder();
      SeparateColumns(a);
      SortPermutation(a, b, ByColumn);
    }
  }

  lemma EqualityListPermutation(params: Params, taken: set<Str>, a: seq<EqSpec>, b: seq<EqSpec>)
    requires multiset(a) == multiset(b)
    ensures SameOutcome(EqualityList(params, taken, a), EqualityList(params, taken, b))
  {
    SameElements(a, b);
    PairsResolve(params, taken, a);
    PairsResolve(params, taken, b);
    if ResolvePairs(params, taken, a).Ok? {
      MapContents(PairOf(params, taken), a, b);
      NormalizePermutation(ResolvePairs(params, taken, a).value, ResolvePairs(params, taken, b).value);
    }
  }

  /** Reordering identityEq of a row spec changes neither success nor the successful result. */
  lemma RowPermutation(params: Params, spec: RowSpec, identityEq: seq<EqSpec>)
    requires multiset(spec.identityEq) == multiset(identityEq)
    ensures SameOutcome(ResolveRow(params, spec), ResolveRow(params, spec.(identityEq := identityEq)))
  {
    EqualityListPermutation(params, {}, spec.identityEq, identityEq);
  }

  /** Reordering identityEq and filterEq of an absence spec changes neither success nor the successful result. */
  lemma AbsentPermutation(params: Params, spec: AbsentSpec, identityEq: seq<EqSpec>, filterEq: seq<EqSpec>)
    requires multiset(spec.identityEq) == multiset(identityEq) && multiset(spec.filterEq) == multiset(filterEq)
    ensures SameOutcome(ResolveAbsent(params, spec), ResolveAbsent(params, spec.(identityEq := identityEq, filterEq := filterEq)))
  {
    EqualityListPermutation(params, {}, spec.identityEq, identityEq);
    var identity := EqualityList(params, {}, spec.identityEq);
    if identity.Ok? {
      EqualityListPermutation(params, EqColumns(identity.value), spec.filterEq, filterEq);
    }
  }

  // ----- effects

  function ItemIds(items: seq<EffectSpec>): (r: seq<Str>)
    ensures |r| == |items|
  {
    seq(|items|, i requires 0 <= i < |items| => items[i].id)
  }

  function EffectOf(params: Params): EffectSpec -> Effect {
    (s: EffectSpec) => Effect(s.id, match ResolveRow(params, s.spec) case Ok(r) => r case Err(_) => RowRequest([], [], []))
  }

  ghost predicate AllFresh(items: seq<EffectSpec>, seen: set<Str>) {
    Distinct(ItemIds(items)) && forall i :: 0 <= i < |items| ==> items[i].id !in seen
  }

  lemma FreshCons(items: seq<EffectSpec>, seen: set<Str>)
    requires items != []
    ensures AllFresh(items, seen) <==> items[0].id !in seen && AllFresh(items[1..], seen + {items[0].id})
  {
    var ids, rest := ItemIds(items), ItemIds(items[1..]);
    assert ids == [items[0].id] + rest;
    if AllFresh(items, seen) {
      forall i, j | 0 <= i < j < |rest| ensures rest[i] != rest[j] {
        assert ids[i + 1] != ids[j + 1];
      }
      forall i | 0 <= i < |items[1..]| ensures items[1..][i].id !in seen + {items[0].id} {
        assert ids[0] != ids[i + 1];
      }
    }
    if items[0].id !in seen && AllFresh(items[1..], seen + {items[0].id}) {
      forall i, j | 0 <= i < j < |ids| ensures ids[i] != ids[j] {
        assert items[1..][j - 1].id !in seen + {items[0].id};
        assert i > 0 ==> rest[i - 1] != rest[j - 1];
      }
      forall i | 1 <= i < |items| ensures items[i].id !in seen {
        assert items[i] == items[1..][i - 1];
        assert items[1..][i - 1].id !in seen + {items[0].id};
      }
    }
  }

  ghost predicate RowsResolve(params: Params, items: seq<EffectSpec>) { forall s :: s in items ==> ResolveRow(params, s.spec).Ok? }

  lemma RowsResolveCons(params: Params, items: seq<EffectSpec>)
    requires items != []
    ensures RowsResolve(params, items) <==> ResolveRow(params, items[0].spec).Ok? && RowsResolve(params, items[1..])
  {
    assert items == [items[0]] + items[1..];
  }

  lemma {:induction false} EffectsSucceed(params: Params, items: seq<EffectSpec>, seen: set<Str>)
    ensures EffectsFrom(params, items, seen).Ok? <==> AllFresh(items, seen) && RowsResolve(params, items)
    decreases |items|
  {
    if items != [] {
      EffectsSucceed(params, items[1..], seen + {items[0].id});
      FreshCons(items, seen);
      RowsResolveCons(params, items);
    }
  }

  lemma {:induction false} EffectsValue(params: Params, items: seq<EffectSpec>, seen: set<Str>)
    requires EffectsFrom(params, items, seen).Ok?
    ensures EffectsFrom(params, items, seen).value == Map(EffectOf(params), items)
    decreases |items|
  {
    if items != [] {
      EffectsValue(params, items[1..], seen + {items[0].id});
      assert Map(EffectOf(params), items)[1..] == Map(EffectOf(params), items[1..]);
    }
  }

  lemma EffectsResolve(params: Params, items: seq<EffectSpec>, seen: set<Str>)
    ensures EffectsFrom(params, items, seen).Ok? <==>
            AllFresh(items, seen) && forall s :: s in items ==> ResolveRow(params, s.spec).Ok?
    ensures EffectsFrom(params, items, seen).Ok? ==> EffectsFrom(params, items, seen).value == Map(EffectOf(params), items)
  {
    EffectsSucceed(params, items, seen);
    if EffectsFrom(params, items, seen).Ok? {
      EffectsValue(params, items, seen);
    }
  }

  lemma SeparateIds(effects: seq<Effect>)
    requires Distinct(Ids(effects))
    ensures Separates(effects, ById)
  {
    LeOrder();
    forall x, y | x in effects && y in effects && ById(x, y) && ById(y, x) ensures x == y {
      var i :| 0 <= i < |effects| && effects[i] == x;
      var j :| 0 <= j < |effects| && effects[j] == y;
      assert Ids(effects)[i] == Ids(effects)[j];
    }
  }

  lemma MappedIds(params: Params, items: seq<EffectSpec>)
    ensures Ids(Map(EffectOf(params), items)) == ItemIds(items)
  {
  }

  /** Effects resolve iff their ids are distinct and every row resolves; the result is ascending by id and in normal form. */
  lemma EffectsNormal(params: Params, items: seq<EffectSpec>)
    ensures ResolveEffects(params, items).Ok? <==>
            Distinct(ItemIds(items)) && forall s :: s in items ==> ResolveRow(params, s.spec).Ok?
    ensures ResolveEffects(params, items).Ok? ==> NormalEffects(ResolveEffects(params, items).value)
  {
    EffectsResolve(params, items, {});
    if ResolveEffects(params, items).Ok? {
      var raw := Map(EffectOf(params), items);
      MappedIds(params, items);
      EffectsSorted(raw);
      var sorted := Sort(raw, ById);
      forall i | 0 <= i < |sorted| ensures NormalRow(sorted[i].request) {
        var e := sorted[i];
        assert e in sorted;
        SortContents(raw, ById);
        assert e in raw;
        var j :| 0 <= j < |raw| && raw[j] == e;
        assert items[j] in items;
        RowNormal(params, items[j].spec);
      }
    }
  }

  lemma EffectsSorted(raw: seq<Effect>)
    requires Distinct(Ids(raw))
    ensures Ascending(Ids(Sort(raw, ById)))
  {
    var s := Sort(raw, ById);
    LeOrder();
    ByIdOrder();
    SortSorted(raw, ById);
    SortContents(raw, ById);
    MapContents((e: Effect) => e.id, s, raw);
    assert Ids(s) == Map((e: Effect) => e.id, s) && Ids(raw) == Map((e: Effect) => e.id, raw);
    DistinctContents(Ids(s), Ids(raw));
    forall i, j | 0 <= i < j < |s| ensures Less(Ids(s)[i], Ids(s)[j]) {
      assert ById(s[i], s[j]);
      assert Ids(s)[i] != Ids(s)[j];
    }
  }

  /** Reordering the effects of a registry entry changes neither success nor the successful result. */
  lemma EffectsPermutation(params: Params, a: seq<EffectSpec>, b: seq<EffectSpec>)
    requires multiset(a) == multiset(b)
    ensures SameOutcome(ResolveEffects(params, a), ResolveEffects(params, b))
  {
    SameElements(a, b);
    EffectsNormal(params, a);
    EffectsNormal(params, b);
    EffectsResolve(params, a, {});
    EffectsResolve(params, b, {});
    MapContents((s: EffectSpec) => s.id, a, b);
    assert ItemIds(a) == Map((s: EffectSpec) => s.id, a) && ItemIds(b) == Map((s: EffectSpec) => s.id, b);
    DistinctContents(ItemIds(a), ItemIds(b));
    if ResolveEffects(params, a).Ok? {
      MapContents(EffectOf(params), a, b);
      MappedIds(params, a);
      SeparateIds(Map(EffectOf(params), a));
      ByIdOrder();
      SortPermutation(Map(EffectOf(params), a), Map(EffectOf(params), b), ById);
    }
  }

  // ----- what rows, absences and effects resolve to

  predicate TableFor(params: Params, spec: Text, t: Str) {
    IsIdent(t) &&
    match spec
    case Const(s) => t == s
    case At(p) => Get(params, p) == JsonPointer.Doc(String(t))
  }

  predicate TableFault(params: Params, spec: Text, code: string) {
    match spec
    case Const(s) => !IsIdent(s) && code == "INVALID_IDENTIFIER"
    case At(p) =>
      var c := Get(params, p);
      if c.Doc? && c.v.String? && c.v.s != [] then !IsIdent(c.v.s) && code == "INVALID_IDENTIFIER" else code == "TABLE_POINTER_INVALID"
  }

  lemma TableMeans(params: Params, spec: Text)
    ensures match ResolveTable(params, spec) case Ok(t) => TableFor(params, spec, t) case Err(code) => TableFault(params, spec, code)
  {
  }

  predicate GoodEntry(e: Entry) { IsIdent(e.key) && !e.value.Array? && !e.value.Object? }

  /** The fields of the object reached, but for those named __proto__; of the prototype itself there are none. */
  ghost predicate FieldsFor(params: Params, p: Pointer, fields: seq<Field>) {
    match Get(params, p)
    case Prototype => fields == []
    case Doc(Object(es)) => (forall i :: 0 <= i < |es| ==> GoodEntry(es[i])) && fields == KeptFields(es)
    case _ => false
  }

  /** Why the fields fail: nothing there, no object, or the first entry with a bad name or no scalar. */
  ghost predicate FieldsFault(params: Params, p: Pointer, code: string) {
    match Get(params, p)
    case Prototype => false
    case Doc(Object(es)) =>
      exists i :: 0 <= i < |es| && (forall j :: 0 <= j < i ==> GoodEntry(es[j])) && !GoodEntry(es[i])
                  && code == if !IsIdent(es[i].key) then "INVALID_IDENTIFIER" else "REQUIRED_FIELDS_VALUE_NOT_SCALAR"
    case c => code == if Missing(c) then "REQUIRED_FIELDS_POINTER_MISSING" else "REQUIRED_FIELDS_NOT_OBJECT"
  }

  lemma {:induction false} BadEntry(es: seq<Entry>, fields: seq<Field>) returns (i: nat)
    requires FieldsFrom(es, fields).Err?
    ensures i < |es| && (forall j :: 0 <= j < i ==> GoodEntry(es[j])) && !GoodEntry(es[i])
    ensures FieldsFrom(es, fields).code == if !IsIdent(es[i].key) then "INVALID_IDENTIFIER" else "REQUIRED_FIELDS_VALUE_NOT_SCALAR"
  {
    if GoodEntry(es[0]) {
      i := BadEntry(es[1..], Assign(fields, Field(es[0].key, es[0].value)));
      assert forall j :: 1 <= j < |es| ==> es[j] == es[1..][j - 1];
      i := i + 1;
    } else {
      i := 0;
    }
  }

  lemma FieldsMean(params: Params, p: Pointer)
    ensures match RequiredFields(params, p) case Ok(fs) => FieldsFor(params, p, fs) case Err(code) => FieldsFault(params, p, code)
  {
    var c := Get(params, p);
    if c.Doc? && c.v.Object? {
      FieldsKept(c.v.entries, []);
      assert [] + KeptFields(c.v.entries) == KeptFields(c.v.entries);
      if FieldsFrom(c.v.entries, []).Err? {
        var i := BadEntry(c.v.entries, []);
      }
    }
  }

  /** A row request has the table, the equalities and the fields of its spec; the first of them that fails decides the error. */
  ghost predicate RowFor(params: Params, spec: RowSpec, r: Res<RowRequest>) {
    match r
    case Ok(q) =>
      && TableFor(params, spec.table, q.table)
      && ListFor(params, {}, spec.identityEq, Ok(q.identityEq))
      && FieldsFor(params, spec.requiredFields, q.requiredFields)
    case Err(code) =>
      || TableFault(params, spec.table, code)
      || ((exists t :: TableFor(params, spec.table, t)) && ListFor(params, {}, spec.identityEq, Err(code)))
      || ((exists t :: TableFor(params, spec.table, t)) && (exists eqs :: ListFor(params, {}, spec.identityEq, Ok(eqs)))
          && FieldsFault(params, spec.requiredFields, code))
  }

  /** What a row spec resolves to. */
  lemma RowMeans(params: Params, spec: RowSpec)
    ensures RowFor(params, spec, ResolveRow(params, spec))
  {
    TableMeans(params, spec.table);
    var table, identity := ResolveTable(params, spec.table), EqualityList(params, {}, spec.identityEq);
    if table.Ok? {
      assert TableFor(params, spec.table, table.value);
      ListMeans(params, {}, spec.identityEq);
      if identity.Ok? {
        assert ListFor(params, {}, spec.identityEq, Ok(identity.value));
        FieldsMean(params, spec.requiredFields);
      }
    }
  }

  /** An absence request has the table and both lists of its spec, the filter over columns that the identity leaves. */
  ghost predicate AbsentFor(params: Params, spec: AbsentSpec, r: Res<AbsentRequest>) {
    match r
    case Ok(q) =>
      && TableFor(params, spec.table, q.table)
      && ListFor(params, {}, spec.identityEq, Ok(q.identityEq))
      && ListFor(params, EqColumns(q.identityEq), spec.filterEq, Ok(q.filterEq))
    case Err(code) =>
      || TableFault(params, spec.table, code)
      || ((exists t :: TableFor(params, spec.table, t)) && ListFor(params, {}, spec.identityEq, Err(code)))
      || ((exists t :: TableFor(params, spec.table, t))
          && exists eqs :: ListFor(params, {}, spec.identityEq, Ok(eqs)) && ListFor(params, EqColumns(eqs), spec.filterEq, Err(code)))
  }

  /** What an absence spec resolves to. */
  lemma AbsentMeans(params: Params, spec: AbsentSpec)
    ensures AbsentFor(params, spec, ResolveAbsent(params, spec))
  {
    TableMeans(params, spec.table);
    var table, identity := ResolveTable(params, spec.table), EqualityList(params, {}, spec.identityEq);
    if table.Ok? {
      assert TableFor(params, spec.table, table.value);
      ListMeans(params, {}, spec.identityEq);
      if identity.Ok? {
        assert ListFor(params, {}, spec.identityEq, Ok(identity.value));
        ListMeans(params, EqColumns(identity.value), spec.filterEq);
      }
    }
  }

  ghost predicate EffectFor(params: Params, item: EffectSpec, e: Effect) {
    e.id == item.id && RowFor(params, item.spec, Ok(e.request))
  }

  ghost predicate EffectsAligned(params: Params, items: seq<EffectSpec>, effects: seq<Effect>) {
    Aligned((i: EffectSpec, e: Effect) => EffectFor(params, i, e), items, effects)
  }

  /** Element by element, p holds of both lists. */
  ghost predicate Aligned<S, T>(p: (S, T) -> bool, s: seq<S>, t: seq<T>) {
    |s| == |t| && forall i :: 0 <= i < |s| ==> p(s[i], t[i])
  }

  lemma AlignedCons<S, T>(p: (S, T) -> bool, s: seq<S>, x: T, t: seq<T>)
    requires s != [] && p(s[0], x) && Aligned(p, s[1..], t)
    ensures Aligned(p, s, [x] + t)
  {
    forall i | 1 <= i < |s| ensures p(s[i], ([x] + t)[i]) {
      assert s[i] == s[1..][i - 1];
    }
  }

  function IdsOf(items: seq<EffectSpec>): set<Str> { set e | e in items :: e.id }

  ghost predicate SomeAligned(params: Params, items: seq<EffectSpec>) { exists effects :: EffectsAligned(params, items, effects) }

  predicate Duplicate(code: string) { code == "DUPLICATE_EFFECT_ID" }

  /** Item i is the first whose id was there before or whose row fails. */
  ghost predicate FirstEffectFault(params: Params, items: seq<EffectSpec>, seen: set<Str>, i: nat, code: string) {
    && i < |items| && AllFresh(items[..i], seen) && SomeAligned(params, items[..i])
    && if items[i].id in seen + IdsOf(items[..i]) then Duplicate(code) else RowFor(params, items[i].spec, Err(code))
  }

  /** A list of effects resolves to one effect for each item, ascending by id, or fails for the first item at fault. */
  ghost predicate EffectsFor(params: Params, items: seq<EffectSpec>, r: Res<seq<Effect>>) {
    match r
    case Ok(effects) =>
      Ascending(Ids(effects)) && exists raw :: EffectsAligned(params, items, raw) && multiset(effects) == multiset(raw)
    case Err(code) => exists i: nat :: FirstEffectFault(params, items, {}, i, code)
  }

  lemma AlignedMore(params: Params, items: seq<EffectSpec>, e: Effect, rest: seq<Effect>)
    requires items != [] && EffectFor(params, items[0], e) && EffectsAligned(params, items[1..], rest)
    ensures EffectsAligned(params, items, [e] + rest)
  {
    AlignedCons((i: EffectSpec, e: Effect) => EffectFor(params, i, e), items, e, rest);
  }

  lemma AlignedFront(params: Params, items: seq<EffectSpec>, e: Effect)
    requires items != [] && EffectFor(params, items[0], e) && SomeAligned(params, items[1..])
    ensures SomeAligned(params, items)
  {
    var effects :| EffectsAligned(params, items[1..], effects);
    AlignedMore(params, items, e, effects);
  }

  lemma EffectFaultLater(params: Params, items: seq<EffectSpec>, seen: set<Str>, e: Effect, i: nat, code: string)
    requires items != [] && items[0].id !in seen && EffectFor(params, items[0], e)
    requires FirstEffectFault(params, items[1..], seen + {items[0].id}, i, code)
    ensures FirstEffectFault(params, items, seen, i + 1, code)
  {
    var front := items[..i + 1];
    assert front[1..] == items[1..][..i] && front[0] == items[0];
    assert items[i + 1] == items[1..][i];
    AlignedFront(params, front, e);
    FreshCons(front, seen);
    IdsOfFront(front, seen);
  }

  lemma IdsOfFront(items: seq<EffectSpec>, seen: set<Str>)
    requires items != []
    ensures seen + IdsOf(items) == seen + {items[0].id} + IdsOf(items[1..])
  {
    forall x ensures x in IdsOf(items) <==> x == items[0].id || x in IdsOf(items[1..]) {
      if x in IdsOf(items[1..]) {
        var e :| e in items[1..] && e.id == x;
        assert e in items;
      }
      if x in IdsOf(items) && x != items[0].id {
        var e :| e in items && e.id == x;
        assert e in items[1..] by { assert items == [items[0]] + items[1..]; }
      }
      assert items[0] in items;
    }
  }

  lemma {:induction false} EffectsFound(params: Params, items: seq<EffectSpec>, seen: set<Str>)
    requires EffectsFrom(params, items, seen).Ok?
    ensures EffectsAligned(params, items, EffectsFrom(params, items, seen).value)
    decreases |items|
  {
    if items != [] {
      RowMeans(params, items[0].spec);
      EffectsFound(params, items[1..], seen + {items[0].id});
      AlignedMore(params, items, Effect(items[0].id, ResolveRow(params, items[0].spec).value),
                  EffectsFrom(params, items[1..], seen + {items[0].id}).value);
    }
  }

  lemma EffectFaultFirst(params: Params, items: seq<EffectSpec>, seen: set<Str>, code: string)
    requires items != []
    requires if items[0].id in seen then Duplicate(code) else RowFor(params, items[0].spec, Err(code))
    ensures FirstEffectFault(params, items, seen, 0, code)
  {
    assert EffectsAligned(params, items[..0], []);
    assert seen + IdsOf(items[..0]) == seen;
  }

  lemma EffectFaultHere(params: Params, items: seq<EffectSpec>, seen: set<Str>, code: string)
    requires items != []
    requires if items[0].id in seen then Duplicate(code) else ResolveRow(params, items[0].spec) == Err(code)
    ensures FirstEffectFault(params, items, seen, 0, code)
  {
    RowMeans(params, items[0].spec);
    EffectFaultFirst(params, items, seen, code);
  }

  lemma EffectFaultNext(params: Params, items: seq<EffectSpec>, seen: set<Str>, k: nat, code: string)
    requires items != [] && items[0].id !in seen && ResolveRow(params, items[0].spec).Ok?
    requires FirstEffectFault(params, items[1..], seen + {items[0].id}, k, code)
    ensures FirstEffectFault(params, items, seen, k + 1, code)
  {
    RowMeans(params, items[0].spec);
    EffectFaultLater(params, items, seen, Effect(items[0].id, ResolveRow(params, items[0].spec).value), k, code);
  }

  lemma {:induction false} EffectFaultFound(params: Params, items: seq<EffectSpec>, seen: set<Str>) returns (i: nat)
    requires EffectsFrom(params, items, seen).Err?
    ensures FirstEffectFault(params, items, seen, i, EffectsFrom(params, items, seen).code)
    decreases |items|
  {
    var code := EffectsFrom(params, items, seen).code;
    if items[0].id in seen || ResolveRow(params, items[0].spec).Err? {
      EffectFaultHere(params, items, seen, code);
      i := 0;
    } else {
      var k := EffectFaultFound(params, items[1..], seen + {items[0].id});
      EffectFaultNext(params, items, seen, k, code);
      i := k + 1;
    }
  }

  /** What a list of effects resolves to. */
  lemma EffectsMean(params: Params, items: seq<EffectSpec>)
    ensures EffectsFor(params, items, ResolveEffects(params, items))
  {
    var raw := EffectsFrom(params, items, {});
    if raw.Ok? {
      EffectsFound(params, items, {});
      EffectsNormal(params, items);
      SortContents(raw.value, ById);
    } else {
      var i := EffectFaultFound(params, items, {});
    }
  }
}
