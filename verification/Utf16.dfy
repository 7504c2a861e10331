/** Strings as sequences of UTF-16 code units, with the code-unit order of `compareUtf16Id`. */
module Utf16 {
  import opened Sorting

  type Unit = n: int | 0 <= n < 0x1_0000
  type Str = seq<Unit>

  predicate Le(a: Str, b: Str) {
    a == [] || (b != [] && (a[0] < b[0] || (a[0] == b[0] && Le(a[1..], b[1..]))))
  }

  predicate Less(a: Str, b: Str) {
    a != b && Le(a, b)
  }

  lemma {:induction false} LeTotal(a: Str, b: Str)
    ensures Le(a, b) || Le(b, a)
  {
    if a != [] && b != [] && a[0] == b[0] {
      LeTotal(a[1..], b[1..]);
    }
  }

  lemma {:induction false} LeTransitive(a: Str, b: Str, c: Str)
    requires Le(a, b) && Le(b, c)
    ensures Le(a, c)
  {
    if a != [] && a[0] == b[0] && b[0] == c[0] {
      LeTransitive(a[1..], b[1..], c[1..]);
    }
  }

  lemma {:induction false} LeAntisymmetric(a: Str, b: Str)
    requires Le(a, b) && Le(b, a)
    ensures a == b
  {
    if a != [] {
      LeAntisymmetric(a[1..], b[1..]);
      assert a == [a[0]] + a[1..] && b == [b[0]] + b[1..];
    }
  }

  /** The code-unit order is a total order, so every sort by it is deterministic. */
  lemma LeOrder()
    ensures TotalOrder(Le)
  {
    forall a: Str, b: Str ensures Le(a, b) || Le(b, a) { LeTotal(a, b); }
    forall a: Str, b: Str, c: Str | Le(a, b) && Le(b, c) ensures Le(a, c) { LeTransitive(a, b, c); }
    forall a: Str, b: Str | Le(a, b) && Le(b, a) ensures a == b { LeAntisymmetric(a, b); }
  }

  // ----- sorted lists of distinct keys, as the code gets by sorting the keys of a Map or Set

  ghost predicate Ascending(s: seq<Str>) {
    forall i, j :: 0 <= i < j < |s| ==> Less(s[i], s[j])
  }

  ghost function Elements(s: seq<Str>): set<Str> {
    set x | x in s
  }

  /** The keys of a Set or Map in code-unit order. */
  method SortedKeys(keys: set<Str>) returns (r: seq<Str>)
    ensures Ascending(r) && Elements(r) == keys
  {
    var rest, list := keys, [];
    while rest != {}
      invariant rest <= keys && Elements(list) == keys - rest
      invariant Distinct(list)
      decreases rest
    {
      var k :| k in rest;
      assert k !in list by { assert k !in Elements(list); }
      assert Elements(list + [k]) == Elements(list) + {k};
      rest, list := rest - {k}, list + [k];
    }
    r := Sort(list, Le);
    LeOrder();
    SortContents(list, Le);
    SortSorted(list, Le);
    SortDistinct(list, Le);
    assert forall x :: x in Elements(r) <==> x in keys by {
      assert forall x :: x in r <==> x in list;
      assert forall x :: x in list <==> x in Elements(list);
    }
  }

  /** There is only one ascending list of a set of keys. */
  lemma {:induction false} AscendingUnique(a: seq<Str>, b: seq<Str>)
    requires Ascending(a) && Ascending(b) && Elements(a) == Elements(b)
    ensures a == b
  {
    if a == [] || b == [] {
      NoElements(a);
      NoElements(b);
    } else {
      assert a[0] in Elements(b) && b[0] in Elements(a);
      var i :| 0 <= i < |b| && b[i] == a[0];
      var j :| 0 <= j < |a| && a[j] == b[0];
      assert a[0] == b[0] by {
        if i > 0 && j > 0 {
          assert Less(b[0], b[i]) && Less(a[0], a[j]);
          LeAntisymmetric(a[0], b[0]);
        }
      }
      DropLeast(a);
      DropLeast(b);
      AscendingUnique(a[1..], b[1..]);
      assert a == [a[0]] + a[1..] && b == [b[0]] + b[1..];
    }
  }

  lemma NoElements(s: seq<Str>)
    ensures s == [] <==> Elements(s) == {}
  {
    if s != [] {
      assert s[0] in Elements(s);
    }
  }

  lemma DropLeast(a: seq<Str>)
    requires Ascending(a) && a != []
    ensures Elements(a[1..]) == Elements(a) - {a[0]}
  {
    assert a == [a[0]] + a[1..];
    assert a[0] !in a[1..];
  }

  // ----- text

  /** The code units of an ASCII literal. */
  function Ascii(s: string): (r: Str)
    ensures |r| == |s|
  {
    seq(|s|, i requires 0 <= i < |s| => if s[i] < 128 as char then s[i] as int else 63)
  }

  /** t.split(sep) for a separator of one unit. */
  function Split(t: Str, sep: Unit): (r: seq<Str>)
    ensures r != []
  {
    if t == [] then [[]]
    else
      var rest := Split(t[1..], sep);
      if t[0] == sep then [[]] + rest else [[t[0]] + rest[0]] + rest[1..]
  }

  /** parts.join(sep). */
  function Joined(parts: seq<Str>, sep: Unit): Str {
    if parts == [] then [] else if |parts| == 1 then parts[0] else parts[0] + [sep] + Joined(parts[1..], sep)
  }

  lemma {:induction false} SplitPlain(a: Str, sep: Unit)
    requires sep !in a
    ensures Split(a, sep) == [a]
  {
    if a != [] {
      assert a[0] in a && a == [a[0]] + a[1..];
      SplitPlain(a[1..], sep);
    }
  }

  lemma {:induction false} SplitFirst(a: Str, rest: Str, sep: Unit)
    requires sep !in a
    ensures Split(a + [sep] + rest, sep) == [a] + Split(rest, sep)
  {
    var t := a + [sep] + rest;
    if a == [] {
      assert t[1..] == rest;
    } else {
      assert a[0] in a && a == [a[0]] + a[1..];
      assert t[1..] == a[1..] + [sep] + rest;
      SplitFirst(a[1..], rest, sep);
    }
  }

  /** Splitting undoes joining parts that do not contain the separator; no parts at all read back as one empty part. */
  lemma {:induction false} SplitJoined(parts: seq<Str>, sep: Unit)
    requires forall i :: 0 <= i < |parts| ==> sep !in parts[i]
    ensures Split(Joined(parts, sep), sep) == if parts == [] then [[]] else parts
  {
    if |parts| == 1 {
      SplitPlain(parts[0], sep);
    } else if |parts| > 1 {
      SplitJoined(parts[1..], sep);
      SplitFirst(parts[0], Joined(parts[1..], sep), sep);
      assert parts == [parts[0]] + parts[1..];
    }
  }

  lemma {:induction false} SplitParts(t: Str, sep: Unit)
    ensures forall i :: 0 <= i < |Split(t, sep)| ==> sep !in Split(t, sep)[i]
  {
    if t != [] { SplitParts(t[1..], sep); }
  }
}
