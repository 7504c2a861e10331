/** The canonical printer behind divergence detection (src/canonicalParams.ts). */
module CanonicalParams {
  import opened Sorting
  import opened Utf16
  import opened Json

  predicate KeyLe(a: Entry, b: Entry) { Le(a.key, b.key) }

  function JoinRest(parts: seq<Str>): Str {
    if parts == [] then [] else [44] + parts[0] + JoinRest(parts[1..])
  }

  /** Array.prototype.join(","). */
  function Join(parts: seq<Str>): Str {
    if parts == [] then [] else parts[0] + JoinRest(parts[1..])
  }

  function Print(v: Json): Str
    requires Valid(v)
  {
    match v
    case String(s) => Quote(s)
    case Array(items) =>
      [91] + Join(seq(|items|, i requires 0 <= i < |items| => Print(items[i]))) + [93]
    case Object(es) =>
      var sorted := SortedEntries(v);
      [123] + Join(seq(|sorted|, i requires 0 <= i < |sorted| =>
        Quote(sorted[i].key) + [58] + Print(sorted[i].value))) + [125]
    case _ => AtomText(v)
  }

  function SortedEntries(v: Json): (r: seq<Entry>)
    requires v.Object? && Valid(v)
    ensures |r| == |v.entries|
    ensures forall i :: 0 <= i < |r| ==> r[i] in v.entries && r[i].value < v && Valid(r[i].value)
  {
    SortContents(v.entries, KeyLe);
    EntriesSmaller(v);
    Sort(v.entries, KeyLe)
  }

  lemma EntriesSmaller(v: Json)
    requires v.Object? && Valid(v)
    ensures forall e :: e in v.entries ==> e.value < v && Valid(e.value)
  {
    forall e | e in v.entries ensures e.value < v && Valid(e.value) {
      var i :| 0 <= i < |v.entries| && v.entries[i] == e;
      assert v.entries[i].value < v;
    }
  }

  function ItemTexts(v: Json): (r: seq<Str>)
    requires v.Array? && Valid(v)
    ensures |r| == |v.items|
  {
    seq(|v.items|, i requires 0 <= i < |v.items| => Print(v.items[i]))
  }

  function EntryTexts(v: Json): (r: seq<Str>)
    requires v.Object? && Valid(v)
    ensures |r| == |v.entries|
  {
    var sorted := SortedEntries(v);
    seq(|sorted|, i requires 0 <= i < |sorted| => Quote(sorted[i].key) + [58] + Print(sorted[i].value))
  }

  // ----- reading printed text back

  predicate Ends(x: Str) { x == [] || IsDelimiter(x[0]) }

  predicate Opens(p: Str) { p != [] && !IsDelimiter(p[0]) }

  /** Two texts that start the same character stream, each followed by a delimiter, are equal. */
  ghost predicate Delimited(p: Str, q: Str) {
    forall x, y :: Ends(x) && Ends(y) && p + x == q + y ==> p == q && x == y
  }

  ghost predicate Readable(ps: seq<Str>, qs: seq<Str>) {
    && (forall i :: 0 <= i < |ps| ==> Opens(ps[i]))
    && (forall i :: 0 <= i < |qs| ==> Opens(qs[i]))
    && (forall i :: 0 <= i < |ps| && i < |qs| ==> Delimited(ps[i], qs[i]))
  }

  lemma RestSplits(ps: seq<Str>, z: Str)
    requires ps != []
    ensures JoinRest(ps) + z != [] && (JoinRest(ps) + z)[1..] == ps[0] + (JoinRest(ps[1..]) + z)
  {
  }

  lemma {:induction false} RestRead(ps: seq<Str>, qs: seq<Str>, close: Unit, x: Str, y: Str)
    requires Readable(ps, qs) && IsDelimiter(close) && close != 44
    requires JoinRest(ps) + ([close] + x) == JoinRest(qs) + ([close] + y)
    ensures ps == qs && x == y
  {
    var u, w := JoinRest(ps) + ([close] + x), JoinRest(qs) + ([close] + y);
    if ps == [] || qs == [] {
      assert u[0] == w[0];
      assert ps == [] && qs == [];
      assert x == u[1..] && y == w[1..];
    } else {
      var s, t := JoinRest(ps[1..]) + ([close] + x), JoinRest(qs[1..]) + ([close] + y);
      RestSplits(ps, [close] + x);
      RestSplits(qs, [close] + y);
      assert ps[0] + s == u[1..] == w[1..] == qs[0] + t;
      assert Delimited(ps[0], qs[0]);
      assert Ends(s) && Ends(t);
      RestRead(ps[1..], qs[1..], close, x, y);
      assert ps == [ps[0]] + ps[1..] && qs == [qs[0]] + qs[1..];
    }
  }

  lemma JoinFirst(ps: seq<Str>, z: Str)
    requires ps != [] ==> Opens(ps[0])
    ensures ps != [] ==> |Join(ps) + z| > 0 && (Join(ps) + z)[0] == ps[0][0]
  {
  }

  lemma JoinBase(ps: seq<Str>, qs: seq<Str>, close: Unit, x: Str, y: Str)
    requires Readable(ps, qs) && IsDelimiter(close) && (ps == [] || qs == [])
    requires Join(ps) + ([close] + x) == Join(qs) + ([close] + y)
    ensures ps == qs && x == y
  {
    JoinFirst(ps, [close] + x);
    JoinFirst(qs, [close] + y);
    assert ps == [] && qs == [];
    assert x == (Join(ps) + ([close] + x))[1..] && y == (Join(qs) + ([close] + y))[1..];
  }

  /** A joined list can be taken apart again. */
  lemma JoinRead(ps: seq<Str>, qs: seq<Str>, close: Unit, x: Str, y: Str)
    requires Readable(ps, qs) && IsDelimiter(close) && close != 44
    requires Join(ps) + ([close] + x) == Join(qs) + ([close] + y)
    ensures ps == qs && x == y
  {
    if ps == [] || qs == [] {
      JoinBase(ps, qs, close, x, y);
    } else {
      var s, t := JoinRest(ps[1..]) + ([close] + x), JoinRest(qs[1..]) + ([close] + y);
      Reassociate(ps[0], JoinRest(ps[1..]), [close] + x);
      Reassociate(qs[0], JoinRest(qs[1..]), [close] + y);
      assert Delimited(ps[0], qs[0]);
      assert Ends(s) && Ends(t);
      RestRead(ps[1..], qs[1..], close, x, y);
      assert ps == [ps[0]] + ps[1..] && qs == [qs[0]] + qs[1..];
    }
  }

  lemma Starts(v: Json)
    requires Valid(v)
    ensures var t := Print(v);
            && Opens(t)
            && (t[0] == QUOTE <==> v.String?) && (t[0] == 91 <==> v.Array?) && (t[0] == 123 <==> v.Object?)
  {
    if IsAtom(v) {
      AtomUnits(v);
    }
  }

  lemma BracketRead(open: Unit, close: Unit, ps: seq<Str>, qs: seq<Str>, x: Str, y: Str)
    requires Readable(ps, qs) && IsDelimiter(close) && close != 44
    requires [open] + Join(ps) + [close] + x == [open] + Join(qs) + [close] + y
    ensures ps == qs && x == y
  {
    var u := [open] + Join(ps) + [close] + x;
    assert u[1..] == Join(ps) + ([close] + x);
    assert u[1..] == Join(qs) + ([close] + y);
    JoinRead(ps, qs, close, x, y);
  }

  lemma QuoteThen(s: Str, z: Str)
    ensures (Quote(s) + z)[1..] == Escape(s) + ([QUOTE] + z)
  {
    assert Quote(s) + z == [QUOTE] + (Escape(s) + ([QUOTE] + z));
  }

  lemma EntryThen(k: Str, p: Str, x: Str)
    ensures Quote(k) + [58] + p + x == Quote(k) + ([58] + (p + x))
  {
  }

  lemma EntryDelimited(k: Str, l: Str, p: Str, q: Str)
    requires Delimited(p, q)
    ensures Delimited(Quote(k) + [58] + p, Quote(l) + [58] + q)
  {
    forall x, y | Ends(x) && Ends(y) && Quote(k) + [58] + p + x == Quote(l) + [58] + q + y
      ensures Quote(k) + [58] + p == Quote(l) + [58] + q && x == y
    {
      EntryThen(k, p, x);
      EntryThen(l, q, y);
      QuoteThen(k, [58] + (p + x));
      QuoteThen(l, [58] + (q + y));
      QuoteRead(k, l, [58] + (p + x), [58] + (q + y));
      assert p + x == ([58] + (p + x))[1..] == ([58] + (q + y))[1..] == q + y;
    }
  }

  lemma AtomDelimited(v: Json, w: Json)
    requires Valid(v) && Valid(w) && IsAtom(v) && IsAtom(w)
    ensures Delimited(Print(v), Print(w))
  {
    forall x, y | Ends(x) && Ends(y) && Print(v) + x == Print(w) + y
      ensures Print(v) == Print(w) && x == y
    {
      AtomUnits(v);
      AtomUnits(w);
      ReadToken(Print(v), Print(w), x, y);
    }
  }

  lemma StringDelimited(s: Str, t: Str)
    ensures Delimited(Quote(s), Quote(t))
  {
    forall x, y | Ends(x) && Ends(y) && Quote(s) + x == Quote(t) + y
      ensures Quote(s) == Quote(t) && x == y
    {
      QuoteThen(s, x);
      QuoteThen(t, y);
      QuoteRead(s, t, x, y);
    }
  }

  lemma BracketDelimited(open: Unit, close: Unit, ps: seq<Str>, qs: seq<Str>)
    requires Readable(ps, qs) && IsDelimiter(close) && close != 44
    ensures Delimited([open] + Join(ps) + [close], [open] + Join(qs) + [close])
  {
    forall x, y | Ends(x) && Ends(y) && [open] + Join(ps) + [close] + x == [open] + Join(qs) + [close] + y
      ensures [open] + Join(ps) + [close] == [open] + Join(qs) + [close] && x == y
    {
      BracketRead(open, close, ps, qs, x, y);
    }
  }

  lemma FirstDiffers(p: Str, q: Str)
    requires p != [] && q != [] && p[0] != q[0]
    ensures Delimited(p, q)
  {
    forall x, y ensures p + x != q + y {
      assert (p + x)[0] == p[0] && (q + y)[0] == q[0];
    }
  }

  /** Printed values are self-delimiting: in a stream, no printed value continues another one. */
  lemma {:induction false} PrintDelimited(v: Json, w: Json)
    requires Valid(v) && Valid(w)
    ensures Delimited(Print(v), Print(w))
    decreases v
  {
    if IsAtom(v) && IsAtom(w) {
      AtomDelimited(v, w);
    } else if v.String? && w.String? {
      StringDelimited(v.s, w.s);
    } else if v.Array? && w.Array? {
      ItemsReadable(v, w);
      BracketDelimited(91, 93, ItemTexts(v), ItemTexts(w));
    } else if v.Object? && w.Object? {
      EntriesReadable(v, w);
      BracketDelimited(123, 125, EntryTexts(v), EntryTexts(w));
    } else {
      Starts(v);
      Starts(w);
      FirstDiffers(Print(v), Print(w));
    }
  }

  lemma ItemsReadable(v: Json, w: Json)
    requires Valid(v) && Valid(w) && v.Array? && w.Array?
    ensures Readable(ItemTexts(v), ItemTexts(w))
    decreases v, 0
  {
    forall i | 0 <= i < |v.items| ensures Opens(ItemTexts(v)[i]) { Starts(v.items[i]); }
    forall i | 0 <= i < |w.items| ensures Opens(ItemTexts(w)[i]) { Starts(w.items[i]); }
    forall i | 0 <= i < |v.items| && i < |w.items| ensures Delimited(ItemTexts(v)[i], ItemTexts(w)[i]) {
      PrintDelimited(v.items[i], w.items[i]);
    }
  }

  lemma EntriesReadable(v: Json, w: Json)
    requires Valid(v) && Valid(w) && v.Object? && w.Object?
    ensures Readable(EntryTexts(v), EntryTexts(w))
    decreases v, 0
  {
    var a, b := SortedEntries(v), SortedEntries(w);
    forall i | 0 <= i < |a| && i < |b| ensures Delimited(EntryTexts(v)[i], EntryTexts(w)[i]) {
      PrintDelimited(a[i].value, b[i].value);
      EntryDelimited(a[i].key, b[i].key, Print(a[i].value), Print(b[i].value));
    }
  }

  // ----- equal text means equal values

  lemma KeyOrder()
    ensures TotalPreorder(KeyLe)
  {
    LeOrder();
  }

  lemma SortedKeysAscend(v: Json)
    requires v.Object? && Valid(v)
    ensures var r := SortedEntries(v); forall i, j :: 0 <= i < j < |r| ==> Less(r[i].key, r[j].key)
  {
    var r := SortedEntries(v);
    KeyOrder();
    SortSorted(v.entries, KeyLe);
    SortDistinctKeys(v.entries);
  }

  lemma SortDistinctKeys(es: seq<Entry>)
    requires DistinctKeys(es)
    ensures DistinctKeys(Sort(es, KeyLe))
  {
    var r := Sort(es, KeyLe);
    SortDistinct(es, KeyLe);
    SortContents(es, KeyLe);
    forall i, j | 0 <= i < j < |r| ensures r[i].key != r[j].key {
      assert r[i] != r[j] && r[i] in es && r[j] in es;
      var k :| 0 <= k < |es| && es[k] == r[i];
      var l :| 0 <= l < |es| && es[l] == r[j];
    }
  }

  lemma EntryRead(k: Str, l: Str, p: Str, q: Str)
    requires Quote(k) + [58] + p == Quote(l) + [58] + q
    ensures k == l && p == q
  {
    EntryThen(k, p, []);
    EntryThen(l, q, []);
    assert p + [] == p && q + [] == q;
    assert Quote(k) + ([58] + p) == Quote(k) + [58] + p && Quote(l) + ([58] + q) == Quote(l) + [58] + q;
    QuoteThen(k, [58] + p);
    QuoteThen(l, [58] + q);
    QuoteRead(k, l, [58] + p, [58] + q);
    assert p == ([58] + p)[1..] && q == ([58] + q)[1..];
  }

  lemma {:induction false} SameWhenPrintedAlike(v: Json, w: Json)
    requires Valid(v) && Valid(w) && AllFinite(v) && AllFinite(w)
    requires Print(v) == Print(w)
    ensures Same(v, w)
    decreases v
  {
    Starts(v);
    Starts(w);
    if IsAtom(v) {
      AtomInjective(v, w);
    } else if v.String? {
      QuoteThen(v.s, []);
      QuoteThen(w.s, []);
      assert Quote(v.s) + [] == Quote(v.s) && Quote(w.s) + [] == Quote(w.s);
      QuoteRead(v.s, w.s, [], []);
    } else if v.Array? {
      ItemsReadable(v, w);
      assert Print(v) + [] == Print(w) + [];
      BracketRead(91, 93, ItemTexts(v), ItemTexts(w), [], []);
      forall i | 0 <= i < |v.items| ensures Same(v.items[i], w.items[i]) {
        assert ItemTexts(v)[i] == ItemTexts(w)[i];
        SameWhenPrintedAlike(v.items[i], w.items[i]);
      }
    } else {
      EntriesReadable(v, w);
      assert Print(v) + [] == Print(w) + [];
      BracketRead(123, 125, EntryTexts(v), EntryTexts(w), [], []);
      SameEntries(v, w);
    }
  }

  lemma SortedFinite(v: Json)
    requires v.Object? && Valid(v) && AllFinite(v)
    ensures forall i :: 0 <= i < |v.entries| ==> AllFinite(SortedEntries(v)[i].value)
  {
    forall i | 0 <= i < |v.entries| ensures AllFinite(SortedEntries(v)[i].value) {
      assert SortedEntries(v)[i] in v.entries;
    }
  }

  /** Where the sort puts entry i. */
  lemma Position(v: Json, i: nat) returns (k: nat)
    requires v.Object? && Valid(v) && i < |v.entries|
    ensures k < |v.entries| && SortedEntries(v)[k] == v.entries[i]
  {
    SortContents(v.entries, KeyLe);
    assert v.entries[i] in SortedEntries(v);
    k :| 0 <= k < |v.entries| && SortedEntries(v)[k] == v.entries[i];
  }

  lemma SortedKeySet(v: Json)
    requires v.Object? && Valid(v)
    ensures KeySet(SortedEntries(v)) == KeySet(v.entries)
  {
    var a, es := SortedEntries(v), v.entries;
    forall k | k in Keys(es) ensures k in Keys(a) {
      var i :| 0 <= i < |es| && Keys(es)[i] == k;
      var j := Position(v, i);
      assert Keys(a)[j] == k;
    }
    forall k | k in Keys(a) ensures k in Keys(es) {
      var i :| 0 <= i < |a| && Keys(a)[i] == k;
      assert a[i] in es;
      var j :| 0 <= j < |es| && es[j] == a[i];
      assert Keys(es)[j] == k;
    }
  }

  lemma SameEntries(v: Json, w: Json)
    requires Valid(v) && Valid(w) && AllFinite(v) && AllFinite(w) && v.Object? && w.Object?
    requires EntryTexts(v) == EntryTexts(w)
    ensures Same(v, w)
    decreases v, 0
  {
    var a, b := SortedEntries(v), SortedEntries(w);
    SortedFinite(v);
    SortedFinite(w);
    assert |a| == |EntryTexts(v)| == |EntryTexts(w)| == |b|;
    forall i | 0 <= i < |a| ensures a[i].key == b[i].key && Same(a[i].value, b[i].value) {
      assert EntryTexts(v)[i] == EntryTexts(w)[i];
      EntryRead(a[i].key, b[i].key, Print(a[i].value), Print(b[i].value));
      SameWhenPrintedAlike(a[i].value, b[i].value);
    }
    SameBySorted(v, w);
  }

  lemma SameBySorted(v: Json, w: Json)
    requires Valid(v) && Valid(w) && v.Object? && w.Object? && |v.entries| == |w.entries|
    requires var a, b := SortedEntries(v), SortedEntries(w);
             forall i :: 0 <= i < |a| ==> a[i].key == b[i].key && Same(a[i].value, b[i].value)
    ensures Same(v, w)
  {
    var a, b := SortedEntries(v), SortedEntries(w);
    assert Keys(a) == Keys(b);
    SortedKeySet(v);
    SortedKeySet(w);
    SortedKeysAscend(v);
    forall i, j | 0 <= i < |v.entries| && 0 <= j < |w.entries| && v.entries[i].key == w.entries[j].key
      ensures Same(v.entries[i].value, w.entries[j].value)
    {
      var k := Position(v, i);
      var l := Position(w, j);
      assert a[k].key == a[l].key;
    }
  }

  // ----- equal values have equal text

  lemma SortedKeysAgree(v: Json, w: Json)
    requires Valid(v) && Valid(w) && v.Object? && w.Object? && KeySet(v.entries) == KeySet(w.entries)
    ensures Keys(SortedEntries(v)) == Keys(SortedEntries(w))
  {
    SortedKeysAscend(v);
    SortedKeysAscend(w);
    SortedKeySet(v);
    SortedKeySet(w);
    AscendingUnique(Keys(SortedEntries(v)), Keys(SortedEntries(w)));
  }

  lemma SortedValueSame(v: Json, w: Json, i: nat)
    requires Valid(v) && Valid(w) && v.Object? && w.Object? && Same(v, w)
    requires i < |v.entries| && i < |w.entries| && SortedEntries(v)[i].key == SortedEntries(w)[i].key
    ensures Same(SortedEntries(v)[i].value, SortedEntries(w)[i].value)
  {
    var e, f := SortedEntries(v)[i], SortedEntries(w)[i];
    assert e in v.entries && f in w.entries;
    var k :| 0 <= k < |v.entries| && v.entries[k] == e;
    var l :| 0 <= l < |w.entries| && w.entries[l] == f;
  }

  lemma {:induction false} PrintedAlikeWhenSame(v: Json, w: Json)
    requires Valid(v) && Valid(w) && Same(v, w)
    ensures Print(v) == Print(w)
    decreases v
  {
    if v.Array? {
      forall i | 0 <= i < |v.items| ensures Print(v.items[i]) == Print(w.items[i]) {
        PrintedAlikeWhenSame(v.items[i], w.items[i]);
      }
      assert ItemTexts(v) == ItemTexts(w);
    } else if v.Object? {
      EntriesAlike(v, w);
    }
  }

  lemma EntriesAlike(v: Json, w: Json)
    requires Valid(v) && Valid(w) && v.Object? && w.Object? && Same(v, w)
    ensures EntryTexts(v) == EntryTexts(w)
    decreases v, 0
  {
    var a, b := SortedEntries(v), SortedEntries(w);
    SortedKeysAgree(v, w);
    assert |a| == |Keys(a)| == |Keys(b)| == |b|;
    forall i | 0 <= i < |a| ensures EntryTexts(v)[i] == EntryTexts(w)[i] {
      assert Keys(a)[i] == Keys(b)[i];
      SortedValueSame(v, w, i);
      PrintedAlikeWhenSame(a[i].value, b[i].value);
    }
  }

  // ----- the printer on every parsed value, infinities included

  lemma {:induction false} WrittenValid(v: Json)
    requires Valid(v)
    ensures Valid(Written(v)) && AllFinite(Written(v))
  {
    match v
    case Array(items) =>
      forall i | 0 <= i < |items| ensures Valid(Written(items[i])) && AllFinite(Written(items[i])) {
        WrittenValid(items[i]);
      }
    case Object(es) =>
      forall i | 0 <= i < |es| ensures Valid(Written(es[i].value)) && AllFinite(Written(es[i].value)) {
        WrittenValid(es[i].value);
      }
    case _ =>
  }

  ghost function WrittenEntry(e: Entry): Entry { Entry(e.key, Written(e.value)) }

  lemma WrittenSorted(v: Json)
    requires Valid(v) && v.Object? && Valid(Written(v))
    ensures SortedEntries(Written(v)) == Map(WrittenEntry, SortedEntries(v))
  {
    assert Written(v).entries == Map(WrittenEntry, v.entries);
    SortMap(WrittenEntry, v.entries, KeyLe, KeyLe);
  }

  lemma {:induction false} PrintWritten(v: Json)
    requires Valid(v)
    ensures Valid(Written(v)) && Print(Written(v)) == Print(v)
    decreases v
  {
    WrittenValid(v);
    if v.Array? {
      forall i | 0 <= i < |v.items| ensures Valid(Written(v.items[i])) && Print(Written(v.items[i])) == Print(v.items[i]) {
        PrintWritten(v.items[i]);
      }
      assert ItemTexts(Written(v)) == ItemTexts(v);
    } else if v.Object? {
      WrittenSorted(v);
      var a := SortedEntries(v);
      forall i | 0 <= i < |a| ensures EntryTexts(Written(v))[i] == EntryTexts(v)[i] {
        PrintWritten(a[i].value);
      }
      assert EntryTexts(Written(v)) == EntryTexts(v);
    }
  }

  /** Two parsed values print alike iff they are the same value once infinities are written as null. */
  lemma PrintInjective(v: Json, w: Json)
    requires Valid(v) && Valid(w)
    ensures Print(v) == Print(w) <==> Same(Written(v), Written(w))
  {
    WrittenValid(v);
    WrittenValid(w);
    PrintWritten(v);
    PrintWritten(w);
    if Print(v) == Print(w) {
      SameWhenPrintedAlike(Written(v), Written(w));
    }
    if Same(Written(v), Written(w)) {
      PrintedAlikeWhenSame(Written(v), Written(w));
    }
  }

  /** Without infinities the canonical text decides equality up to key order. */
  lemma PrintDecides(v: Json, w: Json)
    requires Valid(v) && Valid(w) && AllFinite(v) && AllFinite(w)
    ensures Print(v) == Print(w) <==> Same(v, w)
  {
    PrintInjective(v, w);
    WrittenFinite(v);
    WrittenFinite(w);
  }

  /** [1e999] and [null] are different parsed values with the same canonical text. */
  lemma InfinityCollides()
    ensures var v, w := Array([Num(Infinite(false))]), Array([Null]);
            Valid(v) && Valid(w) && !Same(v, w) && Print(v) == Print(w)
  {
    var v, w := Array([Num(Infinite(false))]), Array([Null]);
    assert !Same(v.items[0], w.items[0]);
    assert Written(v) == w == Written(w);
    assert Same(w, w);
    PrintInjective(v, w);
  }
}
