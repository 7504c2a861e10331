/** The NUL-delimited output of git diff -z --name-status and its parser (src/planTransition.ts). */
module GitNameStatus {
  import opened LogicalSteps
  import opened Utf8

  datatype RowKind = Add | Modify | Delete | TypeChange | Unmerged | Rename | Copy
  datatype Row = Row(rowKind: RowKind, paths: seq<Text>)
  datatype Parsed = Truncated | UnknownStatus(status: Text) | Rows(rows: seq<Row>)

  function NormalizeSlashes(t: Text): (r: Text)
    ensures |r| == |t|
    ensures forall i :: 0 <= i < |t| ==> r[i] == if t[i] == 92 then 47 else t[i]
  {
    seq(|t|, i requires 0 <= i < |t| => if t[i] == 92 then 47 else t[i])
  }

  // ----- reading

  predicate Plain(path: Bytes) { 0 !in path }

  function Terminated(s: Bytes): Bytes { s + [0] }

  /** A stream up to its first NUL and after it. */
  datatype Piece = NoNul | Piece(s: Bytes, rest: Bytes)

  function NextString(buf: Bytes): (r: Piece)
    ensures r.Piece? ==> Plain(r.s) && buf == Terminated(r.s) + r.rest
    ensures r.NoNul? ==> Plain(buf)
  {
    if buf == [] then NoNul
    else if buf[0] == 0 then Piece([], buf[1..])
    else
      match NextString(buf[1..])
      case NoNul => NoNul
      case Piece(s, rest) => Piece([buf[0]] + s, rest)
  }

  predicate IsDigit(c: int) { 48 <= c <= 57 }

  /** What a status token announces: the kind of row and how many paths follow. */
  function KindOf(status: Text): Option<RowKind> {
    if status == [65] then Some(Add)
    else if status == [77] then Some(Modify)
    else if status == [68] then Some(Delete)
    else if status == [84] then Some(TypeChange)
    else if status == [85] then Some(Unmerged)
    else if |status| >= 2 && (forall i :: 1 <= i < |status| ==> IsDigit(status[i])) then
      if status[0] == 82 then Some(Rename) else if status[0] == 67 then Some(Copy) else None
    else None
  }

  predicate TwoPaths(k: RowKind) { k.Rename? || k.Copy? }

  function AppendRows(front: seq<Row>, r: Parsed): Parsed {
    match r
    case Rows(rows) => Rows(front + rows)
    case _ => r
  }

  /** The first record of a stream: an empty status ends it, a fault stops it, or there is a row. */
  datatype First = End | Fault(p: Parsed) | Got(row: Row, rest: Bytes)

  function ParsePaths(k: RowKind, buf: Bytes): (r: First)
    ensures r.Got? ==> |r.rest| < |buf|
    ensures r.Fault? ==> r.p == Truncated
  {
    match NextString(buf)
    case NoNul => Fault(Truncated)
    case Piece(a, rest) =>
      if !TwoPaths(k) then Got(Row(k, [NormalizeSlashes(Decode(a))]), rest) else
      match NextString(rest)
      case NoNul => Fault(Truncated)
      case Piece(b, rest2) => Got(Row(k, [NormalizeSlashes(Decode(a)), NormalizeSlashes(Decode(b))]), rest2)
  }

  function ParseFirst(buf: Bytes): (r: First)
    ensures r.Got? ==> |r.rest| < |buf|
    ensures r.Fault? ==> !r.p.Rows?
  {
    match NextString(buf)
    case NoNul => Fault(Truncated)
    case Piece(s, rest) =>
      var status := Decode(s);
      if status == [] then End
      else if KindOf(status).None? then Fault(UnknownStatus(status))
      else ParsePaths(KindOf(status).value, rest)
  }

  function Parse(buf: Bytes): Parsed
    decreases |buf|
  {
    if buf == [] then Rows([]) else
    match ParseFirst(buf)
    case End => Rows([])
    case Fault(p) => p
    case Got(row, rest) => AppendRows([row], Parse(rest))
  }

  lemma SplitAt(buf: Bytes, start: nat, z: nat)
    requires start <= z < |buf| && buf[z] == 0
    ensures buf[start..] == Terminated(buf[start..z]) + buf[z + 1..]
  {
  }

  /** buf.indexOf(0, start). */
  method IndexOfNul(buf: Bytes, start: nat) returns (z: int)
    requires start <= |buf|
    ensures z == -1 || start <= z < |buf|
    ensures z == -1 ==> NextString(buf[start..]) == NoNul
    ensures z >= 0 ==> NextString(buf[start..]) == Piece(buf[start..z], buf[z + 1..])
  {
    z := start;
    while z < |buf|
      invariant start <= z <= |buf|
      invariant Plain(buf[start..z])
    {
      if buf[z] == 0 {
        NextOf(buf[start..z], buf[z + 1..]);
        SplitAt(buf, start, z);
        return;
      }
      assert buf[start..z + 1] == buf[start..z] + [buf[z]];
      z := z + 1;
    }
    assert buf[start..z] == buf[start..];
    PlainHasNone(buf[start..]);
    z := -1;
  }

  datatype Read = NoString | Str(text: Text, next: nat)

  method ReadStr(buf: Bytes, start: nat) returns (r: Read)
    requires start <= |buf|
    ensures r.NoString? ==> NextString(buf[start..]) == NoNul
    ensures r.Str? ==> start < r.next <= |buf| && NextString(buf[start..]).Piece?
                       && r.text == Decode(NextString(buf[start..]).s) && buf[r.next..] == NextString(buf[start..]).rest
  {
    var z := IndexOfNul(buf, start);
    if z == -1 {
      return NoString;
    }
    return Str(Decode(buf[start..z]), z + 1);
  }

  /** The parser: a cursor moves over the buffer and rows are pushed. */
  method ParseGitNameStatusZ(buf: Bytes) returns (r: Parsed)
    ensures r == Parse(buf)
  {
    var rows: seq<Row> := [];
    var p := 0;
    assert buf[0..] == buf;
    while p < |buf|
      invariant p <= |buf|
      invariant Parse(buf) == AppendRows(rows, Parse(buf[p..]))
      decreases |buf| - p
    {
      var s := ReadStr(buf, p);
      if s.NoString? { return Truncated; }
      if s.text == [] { return Rows(rows); }
      var k := KindOf(s.text);
      if k.None? { return UnknownStatus(s.text); }
      var a := ReadStr(buf, s.next);
      if a.NoString? { return Truncated; }
      if !TwoPaths(k.value) {
        var row := Row(k.value, [NormalizeSlashes(a.text)]);
        AppendTwice(rows, row, Parse(buf[a.next..]));
        rows, p := rows + [row], a.next;
        continue;
      }
      var b := ReadStr(buf, a.next);
      if b.NoString? { return Truncated; }
      var row := Row(k.value, [NormalizeSlashes(a.text), NormalizeSlashes(b.text)]);
      AppendTwice(rows, row, Parse(buf[b.next..]));
      rows, p := rows + [row], b.next;
    }
    return Rows(rows);
  }

  lemma AppendTwice(rows: seq<Row>, row: Row, r: Parsed)
    ensures AppendRows(rows, AppendRows([row], r)) == AppendRows(rows + [row], r)
  {
    if r.Rows? { assert rows + ([row] + r.rows) == rows + [row] + r.rows; }
  }

  // ----- encoding

  /** A record as git writes it: score is the similarity of a rename or copy, paths are raw bytes. */
  datatype RawRecord = Record(kind: RowKind, score: Bytes, paths: seq<Bytes>)

  predicate WellFormed(r: RawRecord) {
    && |r.paths| == (if TwoPaths(r.kind) then 2 else 1)
    && (forall i :: 0 <= i < |r.paths| ==> Plain(r.paths[i]))
    && (if TwoPaths(r.kind) then r.score != [] && forall i :: 0 <= i < |r.score| ==> IsDigit(r.score[i]) else r.score == [])
  }

  type Record = r: RawRecord | WellFormed(r) witness Record(Add, [], [[]])

  function Letter(k: RowKind): Byte {
    match k case Add => 65 case Modify => 77 case Delete => 68 case TypeChange => 84 case Unmerged => 85 case Rename => 82 case Copy => 67
  }

  function EncodeRecord(r: Record): Bytes
  {
    Terminated([Letter(r.kind)] + r.score) + Terminated(r.paths[0]) + if TwoPaths(r.kind) then Terminated(r.paths[1]) else []
  }

  function EncodeAll(rs: seq<Record>): Bytes
  {
    if rs == [] then [] else EncodeRecord(rs[0]) + EncodeAll(rs[1..])
  }

  function RowOf(r: Record): Row
  {
    Row(r.kind, seq(|r.paths|, i requires 0 <= i < |r.paths| => NormalizeSlashes(Decode(r.paths[i]))))
  }

  function RowsOf(rs: seq<Record>): (r: seq<Row>)
    ensures |r| == |rs|
  {
    seq(|rs|, i requires 0 <= i < |rs| => RowOf(rs[i]))
  }

  // ----- round trip

  lemma {:induction false} NextOf(s: Bytes, rest: Bytes)
    requires Plain(s)
    ensures NextString(Terminated(s) + rest) == Piece(s, rest)
  {
    var t := Terminated(s) + rest;
    if s == [] {
      assert t[1..] == rest;
    } else {
      assert s[0] in s && s == [s[0]] + s[1..];
      assert t[1..] == Terminated(s[1..]) + rest;
      NextOf(s[1..], rest);
    }
  }

  lemma {:induction false} PlainHasNone(s: Bytes)
    requires Plain(s)
    ensures NextString(s) == NoNul
  {
    if s != [] {
      assert s[0] in s && s == [s[0]] + s[1..];
      PlainHasNone(s[1..]);
    }
  }

  lemma {:induction false} DecodeAscii(s: Bytes)
    requires forall i :: 0 <= i < |s| ==> s[i] < 0x80
    ensures Decode(s) == s
  {
    if s != [] {
      DecodeAscii(s[1..]);
      assert s == [s[0]] + s[1..];
    }
  }

  lemma {:induction false} AsciiDecoded(st: State, s: Bytes)
    requires ValidState(st) && forall i :: 0 <= i < |DecodeFrom(st, s)| ==> DecodeFrom(st, s)[i] < 0x80
    ensures DecodeFrom(st, s) == s && st.Start?
    decreases |s|, if st.Start? then 0 else 1
  {
    var d := DecodeFrom(st, s);
    assert d != [] ==> d[0] != REPLACEMENT;
    if s != [] {
      match StepOf(st, s[0])
      case Emit(c) =>
        var rest := DecodeFrom(Start, s[1..]);
        assert d == [c] + rest && d[0] == c;
        assert forall i :: 0 <= i < |rest| ==> rest[i] == d[i + 1];
        AsciiDecoded(Start, s[1..]);
        assert s == [s[0]] + s[1..];
      case Continue(next) =>
        AsciiDecoded(next, s[1..]);
      case Again =>
    }
  }

  lemma StatusReads(r: Record)
    ensures var s := [Letter(r.kind)] + r.score; Plain(s) && Decode(s) == s && KindOf(s) == Some(r.kind)
  {
    var s := [Letter(r.kind)] + r.score;
    DecodeAscii(s);
    assert forall i :: 1 <= i < |s| ==> s[i] == r.score[i - 1];
  }

  lemma PathsOfRecord(r: Record, tail: Bytes)
    ensures ParsePaths(r.kind, Terminated(r.paths[0]) + (if TwoPaths(r.kind) then Terminated(r.paths[1]) else []) + tail) == Got(RowOf(r), tail)
  {
    if TwoPaths(r.kind) {
      var last := Terminated(r.paths[1]) + tail;
      assert Terminated(r.paths[0]) + Terminated(r.paths[1]) + tail == Terminated(r.paths[0]) + last;
      NextOf(r.paths[0], last);
      NextOf(r.paths[1], tail);
      assert RowOf(r).paths == [NormalizeSlashes(Decode(r.paths[0])), NormalizeSlashes(Decode(r.paths[1]))];
    } else {
      assert Terminated(r.paths[0]) + [] + tail == Terminated(r.paths[0]) + tail;
      NextOf(r.paths[0], tail);
      assert RowOf(r).paths == [NormalizeSlashes(Decode(r.paths[0]))];
    }
  }

  lemma RecordSplits(r: Record, tail: Bytes)
    ensures EncodeRecord(r) + tail ==
            Terminated([Letter(r.kind)] + r.score) + (Terminated(r.paths[0]) + (if TwoPaths(r.kind) then Terminated(r.paths[1]) else []) + tail)
  {
    var s, a, b := Terminated([Letter(r.kind)] + r.score), Terminated(r.paths[0]), if TwoPaths(r.kind) then Terminated(r.paths[1]) else [];
    Assoc(s, a, b);
    Assoc(s, a + b, tail);
  }

  lemma FirstOfRecord(r: Record, tail: Bytes)
    ensures ParseFirst(EncodeRecord(r) + tail) == Got(RowOf(r), tail)
  {
    var s := [Letter(r.kind)] + r.score;
    var rest := Terminated(r.paths[0]) + (if TwoPaths(r.kind) then Terminated(r.paths[1]) else []) + tail;
    RecordSplits(r, tail);
    StatusReads(r);
    NextOf(s, rest);
    PathsOfRecord(r, tail);
  }

  lemma ParseRecord(r: Record, tail: Bytes)
    ensures Parse(EncodeRecord(r) + tail) == AppendRows([RowOf(r)], Parse(tail))
  {
    FirstOfRecord(r, tail);
    assert EncodeRecord(r) + tail != [];
  }

  lemma Assoc(a: Bytes, b: Bytes, c: Bytes)
    ensures a + b + c == a + (b + c)
  {
  }

  lemma AppendMore(row: Row, front: seq<Row>, last: Parsed)
    ensures AppendRows([row], AppendRows(front, last)) == AppendRows([row] + front, last)
  {
    if last.Rows? { assert [row] + (front + last.rows) == [row] + front + last.rows; }
  }

  lemma EncodeCons(rs: seq<Record>, tail: Bytes)
    requires rs != []
    ensures EncodeAll(rs) + tail == EncodeRecord(rs[0]) + (EncodeAll(rs[1..]) + tail)
  {
    Assoc(EncodeRecord(rs[0]), EncodeAll(rs[1..]), tail);
  }

  lemma RowsCons(rs: seq<Record>)
    requires rs != []
    ensures RowsOf(rs) == [RowOf(rs[0])] + RowsOf(rs[1..])
  {
  }

  /** Records in front of any stream parse to their rows in front of whatever that stream gives. */
  lemma {:induction false} ParseConcat(rs: seq<Record>, tail: Bytes)
    ensures Parse(EncodeAll(rs) + tail) == AppendRows(RowsOf(rs), Parse(tail))
    decreases |rs|
  {
    if rs == [] {
      assert EncodeAll(rs) + tail == tail;
    } else {
      ParseConcat(rs[1..], tail);
      EncodeCons(rs, tail);
      RowsCons(rs);
      ParseRecord(rs[0], EncodeAll(rs[1..]) + tail);
      AppendMore(RowOf(rs[0]), RowsOf(rs[1..]), Parse(tail));
    }
  }

  /** The parser undoes the encoder, for every list of records. */
  lemma ParseEncoded(rs: seq<Record>)
    ensures Parse(EncodeAll(rs)) == Rows(RowsOf(rs))
  {
    ParseConcat(rs, []);
    assert EncodeAll(rs) + [] == EncodeAll(rs);
  }

  lemma {:induction false} EncodePlain(t: Text)
    requires 0 !in t
    ensures Plain(Encode(t))
  {
    if t != [] {
      var c := t[0];
      assert c in t;
      ScalarParts(c);
      assert forall x :: x in t[1..] ==> x in t;
      EncodePlain(t[1..]);
    }
  }

  /** For paths that are text without NUL the rows have the original paths, slashes normalised. */
  lemma TextPaths(k: RowKind, score: Bytes, texts: seq<Text>)
    requires |texts| == (if TwoPaths(k) then 2 else 1) && forall i :: 0 <= i < |texts| ==> 0 !in texts[i]
    requires if TwoPaths(k) then score != [] && forall i :: 0 <= i < |score| ==> IsDigit(score[i]) else score == []
    ensures var r := Record(k, score, seq(|texts|, i requires 0 <= i < |texts| => Encode(texts[i])));
            WellFormed(r) && forall i :: 0 <= i < |texts| ==> RowOf(r).paths[i] == NormalizeSlashes(texts[i])
  {
    forall i | 0 <= i < |texts| ensures Plain(Encode(texts[i])) && Decode(Encode(texts[i])) == texts[i] {
      EncodePlain(texts[i]);
      DecodeEncode(texts[i]);
    }
  }

  // ----- cut streams

  lemma CutString(s: Bytes, rest: Bytes, k: nat)
    requires Plain(s) && k <= |s|
    ensures NextString((Terminated(s) + rest)[..k]) == NoNul
  {
    assert (Terminated(s) + rest)[..k] == s[..k];
    PlainHasNone(s[..k]);
  }

  lemma CutAfter(s: Bytes, rest: Bytes, k: nat)
    requires Plain(s) && |s| < k <= |s| + 1 + |rest|
    ensures NextString((Terminated(s) + rest)[..k]) == Piece(s, rest[..k - |s| - 1])
  {
    assert (Terminated(s) + rest)[..k] == Terminated(s) + rest[..k - |s| - 1];
    NextOf(s, rest[..k - |s| - 1]);
  }

  lemma CutPaths(k: RowKind, a: Bytes, b: Bytes, n: nat)
    requires Plain(a) && Plain(b) && n < |Terminated(a) + if TwoPaths(k) then Terminated(b) else []|
    ensures ParsePaths(k, (Terminated(a) + if TwoPaths(k) then Terminated(b) else [])[..n]) == Fault(Truncated)
  {
    var last := if TwoPaths(k) then Terminated(b) else [];
    if n <= |a| {
      CutString(a, last, n);
    } else {
      CutAfter(a, last, n);
      assert Terminated(b) + [] == Terminated(b);
      CutString(b, [], n - |a| - 1);
    }
  }

  lemma CutFirst(s: Bytes, k: RowKind, rest: Bytes, n: nat)
    requires Plain(s) && s != [] && Decode(s) == s && KindOf(s) == Some(k) && 0 < n < |Terminated(s) + rest|
    requires forall m :: 0 <= m < |rest| ==> ParsePaths(k, rest[..m]) == Fault(Truncated)
    ensures ParseFirst((Terminated(s) + rest)[..n]) == Fault(Truncated)
  {
    if n <= |s| {
      CutString(s, rest, n);
    } else {
      CutAfter(s, rest, n);
      var m := n - |s| - 1;
      assert ParsePaths(k, rest[..m]) == Fault(Truncated);
    }
  }

  /** A record that is cut short, at least one byte and not all of it, is rejected. */
  lemma CutRecord(r: Record, k: nat)
    requires 0 < k < |EncodeRecord(r)|
    ensures Parse(EncodeRecord(r)[..k]) == Truncated
  {
    var s := [Letter(r.kind)] + r.score;
    StatusReads(r);
    var second := if TwoPaths(r.kind) then r.paths[1] else [];
    var rest := Terminated(r.paths[0]) + if TwoPaths(r.kind) then Terminated(second) else [];
    Assoc(Terminated(s), Terminated(r.paths[0]), if TwoPaths(r.kind) then Terminated(second) else []);
    assert EncodeRecord(r) == Terminated(s) + rest;
    forall m | 0 <= m < |rest| ensures ParsePaths(r.kind, rest[..m]) == Fault(Truncated) {
      CutPaths(r.kind, r.paths[0], second, m);
    }
    CutFirst(s, r.kind, rest, k);
    assert EncodeRecord(r)[..k] != [];
  }

  /** The end of one of the records, or the start of the stream. */
  ghost predicate Boundary(rs: seq<Record>, k: nat)
  {
    exists i :: 0 <= i <= |rs| && k == |EncodeAll(rs[..i])|
  }

  lemma BoundaryRest(rs: seq<Record>, k: nat)
    requires rs != [] && |EncodeRecord(rs[0])| <= k
    ensures Boundary(rs, k) <==> Boundary(rs[1..], k - |EncodeRecord(rs[0])|)
  {
    var n := |EncodeRecord(rs[0])|;
    forall i | 0 < i <= |rs| ensures |EncodeAll(rs[..i])| == n + |EncodeAll(rs[1..][..i - 1])| {
      assert rs[..i][1..] == rs[1..][..i - 1];
    }
    if Boundary(rs, k) {
      var i :| 0 <= i <= |rs| && k == |EncodeAll(rs[..i])|;
      assert i > 0;
      assert k - n == |EncodeAll(rs[1..][..i - 1])|;
    }
    if Boundary(rs[1..], k - n) {
      var i :| 0 <= i <= |rs[1..]| && k - n == |EncodeAll(rs[1..][..i])|;
      assert k == |EncodeAll(rs[..i + 1])|;
    }
  }

  lemma ShortIsNoBoundary(rs: seq<Record>, k: nat)
    requires rs != [] && 0 < k < |EncodeRecord(rs[0])|
    ensures !Boundary(rs, k)
  {
    assert EncodeAll(rs[..0]) == [];
    forall i | 0 < i <= |rs| ensures k != |EncodeAll(rs[..i])| {
      assert rs[..i][0] == rs[0];
    }
  }

  lemma CutNothing(rs: seq<Record>)
    ensures Boundary(rs, 0) && Parse(EncodeAll(rs)[..0]) == Rows([])
  {
    assert rs[..0] == [];
    assert 0 == |EncodeAll(rs[..0])|;
  }

  lemma CutLater(rs: seq<Record>, k: nat)
    requires rs != [] && |EncodeRecord(rs[0])| <= k <= |EncodeAll(rs)|
    ensures var rest := Parse(EncodeAll(rs[1..])[..k - |EncodeRecord(rs[0])|]);
            Parse(EncodeAll(rs)[..k]) == AppendRows([RowOf(rs[0])], rest)
  {
    CutSplits(rs, k);
    ParseRecord(rs[0], EncodeAll(rs[1..])[..k - |EncodeRecord(rs[0])|]);
  }

  lemma CutSplits(rs: seq<Record>, k: nat)
    requires rs != [] && k <= |EncodeAll(rs)|
    ensures var n := |EncodeRecord(rs[0])|;
            EncodeAll(rs)[..k] == if k < n then EncodeRecord(rs[0])[..k] else EncodeRecord(rs[0]) + EncodeAll(rs[1..])[..k - n]
  {
  }

  /** A cut at a record boundary is accepted; a cut elsewhere is rejected as truncated. */
  ghost predicate CutDecides(rs: seq<Record>, k: nat)
    requires k <= |EncodeAll(rs)|
  {
    var r := Parse(EncodeAll(rs)[..k]);
    if Boundary(rs, k) then r.Rows? else r == Truncated
  }

  lemma CutShort(rs: seq<Record>, k: nat)
    requires rs != [] && 0 < k < |EncodeRecord(rs[0])| && k <= |EncodeAll(rs)|
    ensures CutDecides(rs, k)
  {
    CutSplits(rs, k);
    CutRecord(rs[0], k);
    ShortIsNoBoundary(rs, k);
  }

  lemma CutLong(rs: seq<Record>, k: nat)
    requires rs != [] && |EncodeRecord(rs[0])| <= k <= |EncodeAll(rs)|
    requires CutDecides(rs[1..], k - |EncodeRecord(rs[0])|)
    ensures CutDecides(rs, k)
  {
    BoundaryRest(rs, k);
    CutLater(rs, k);
  }

  /** Every stream of records, cut anywhere: accepted iff the cut is at a record boundary, otherwise truncated. */
  lemma {:induction false} CutStream(rs: seq<Record>, k: nat)
    requires k <= |EncodeAll(rs)|
    ensures CutDecides(rs, k)
    decreases |rs|
  {
    if k == 0 {
      CutNothing(rs);
    } else if k < |EncodeRecord(rs[0])| {
      CutShort(rs, k);
    } else {
      CutStream(rs[1..], k - |EncodeRecord(rs[0])|);
      CutLong(rs, k);
    }
  }

  // ----- nothing else is accepted

  lemma StatusOf(s: Bytes, k: RowKind)
    requires KindOf(Decode(s)) == Some(k)
    ensures s != [] && s[0] == Letter(k) && Decode(s) == s
    ensures TwoPaths(k) ==> |s| >= 2 && forall i :: 0 <= i < |s[1..]| ==> IsDigit(s[1..][i])
    ensures !TwoPaths(k) ==> s[1..] == []
  {
    var d := Decode(s);
    forall i | 0 <= i < |d| ensures d[i] < 0x80 {
      if |d| >= 2 && i >= 1 { assert IsDigit(d[i]); }
    }
    AsciiDecoded(Start, s);
  }

  /** Whatever the parser accepts is a list of records, up to an empty status, at which it stops reading. */
  lemma {:induction false} AcceptedIsEncoded(buf: Bytes) returns (rs: seq<Record>, tail: Bytes)
    requires Parse(buf).Rows?
    ensures buf == EncodeAll(rs) + tail && (tail == [] || tail[0] == 0)
    ensures Parse(buf) == Rows(RowsOf(rs))
    decreases |buf|
  {
    if buf == [] || buf[0] == 0 {
      rs, tail := [], buf;
      if buf != [] { EmptyStatus(buf); }
      assert EncodeAll(rs) + tail == buf;
    } else {
      NotEnd(buf);
      var r, rest := FirstRecord(buf);
      var more, t := AcceptedIsEncoded(rest);
      rs, tail := [r] + more, t;
      assert rs[0] == r && rs[1..] == more;
      EncodeCons(rs, tail);
      RowsCons(rs);
    }
  }

  lemma EmptyStatus(buf: Bytes)
    requires buf != [] && buf[0] == 0
    ensures Parse(buf) == Rows([])
  {
    assert NextString(buf) == Piece([], buf[1..]);
  }

  lemma DecodeNonEmpty(s: Bytes)
    requires s != []
    ensures Decode(s) != []
  {
    var b := s[0];
    match StepOf(Start, b)
    case Emit(c) =>
    case Continue(st) => InsideEmits(st, s[1..]);
  }

  lemma {:induction false} InsideEmits(st: State, s: Bytes)
    requires st.Inside? && ValidState(st)
    ensures DecodeFrom(st, s) != []
    decreases |s|
  {
    if s != [] {
      match StepOf(st, s[0])
      case Continue(next) => InsideEmits(next, s[1..]);
      case _ =>
    }
  }

  lemma FirstRecord(buf: Bytes) returns (r: Record, rest: Bytes)
    requires ParseFirst(buf).Got?
    ensures buf == EncodeRecord(r) + rest && |rest| < |buf|
    ensures ParseFirst(buf) == Got(RowOf(r), rest)
  {
    var s, rest0 := NextString(buf).s, NextString(buf).rest;
    var k := KindOf(Decode(s)).value;
    StatusOf(s, k);
    r, rest := FirstPaths(k, s[1..], rest0);
    assert s == [Letter(k)] + s[1..];
    RecordSplits(r, rest);
    FirstOfRecord(r, rest);
  }

  lemma FirstPaths(k: RowKind, score: Bytes, buf: Bytes) returns (r: Record, rest: Bytes)
    requires ParsePaths(k, buf).Got?
    requires if TwoPaths(k) then score != [] && forall i :: 0 <= i < |score| ==> IsDigit(score[i]) else score == []
    ensures r.kind == k && r.score == score
    ensures buf == Terminated(r.paths[0]) + (if TwoPaths(k) then Terminated(r.paths[1]) else []) + rest
  {
    var a, rest1 := NextString(buf).s, NextString(buf).rest;
    if TwoPaths(k) {
      var b := NextString(rest1).s;
      rest := NextString(rest1).rest;
      r := Record(k, score, [a, b]);
      assert buf == Terminated(a) + (Terminated(b) + rest);
    } else {
      r, rest := Record(k, score, [a]), rest1;
      assert Terminated(a) + [] == Terminated(a);
    }
  }

  lemma NotEnd(buf: Bytes)
    requires buf != [] && buf[0] != 0
    ensures !ParseFirst(buf).End?
  {
    if NextString(buf).Piece? {
      var s := NextString(buf).s;
      assert s != [];
      DecodeNonEmpty(s);
    }
  }
}
