/** Stable sorting, as Array.prototype.sort does it, for any total preorder. */
module Sorting {

  ghost predicate TotalPreorder<T(!new)>(le: (T, T) -> bool) {
    && (forall a, b :: le(a, b) || le(b, a))
    && (forall a, b, c :: le(a, b) && le(b, c) ==> le(a, c))
  }

  ghost predicate TotalOrder<T(!new)>(le: (T, T) -> bool) {
    && TotalPreorder(le)
    && (forall a, b :: le(a, b) && le(b, a) ==> a == b)
  }

  ghost predicate Sorted<T>(s: seq<T>, le: (T, T) -> bool) {
    forall i, j :: 0 <= i < j < |s| ==> le(s[i], s[j])
  }

  ghost predicate Distinct<T>(s: seq<T>) {
    forall i, j :: 0 <= i < j < |s| ==> s[i] != s[j]
  }

  /** x goes before the first element it is not after, so equal elements keep their order. */
  function Insert<T>(x: T, s: seq<T>, le: (T, T) -> bool): seq<T> {
    if s == [] || le(x, s[0]) then [x] + s else [s[0]] + Insert(x, s[1..], le)
  }

  function Sort<T>(s: seq<T>, le: (T, T) -> bool): seq<T> {
    if s == [] then [] else Insert(s[0], Sort(s[1..], le), le)
  }

  function Map<T, U>(f: T -> U, s: seq<T>): (r: seq<U>)
    ensures |r| == |s|
    ensures forall i :: 0 <= i < |s| ==> r[i] == f(s[i])
  {
    seq(|s|, i requires 0 <= i < |s| => f(s[i]))
  }

  function Filter<T>(p: T -> bool, s: seq<T>): (r: seq<T>)
    ensures |r| <= |s|
    ensures forall i :: 0 <= i < |r| ==> r[i] in s && p(r[i])
    ensures forall i :: 0 <= i < |s| && p(s[i]) ==> s[i] in r
  {
    if s == [] then []
    else if p(s[0]) then [s[0]] + Filter(p, s[1..])
    else Filter(p, s[1..])
  }

  function CountIf<T>(p: T -> bool, s: seq<T>): nat {
    if s == [] then 0 else (if p(s[0]) then 1 else 0) + CountIf(p, s[1..])
  }

  /** [...new Set(s)]: the first occurrence of every element. */
  function Dedup<T(==)>(s: seq<T>): (r: seq<T>)
    ensures Distinct(r)
    ensures forall i :: 0 <= i < |r| ==> r[i] in s
    ensures forall i :: 0 <= i < |s| ==> s[i] in r
  {
    if s == [] then [] else
    var r := Dedup(s[..|s| - 1]);
    assert s == s[..|s| - 1] + [s[|s| - 1]];
    if s[|s| - 1] in r then r else r + [s[|s| - 1]]
  }

  // ----- a sort is a sorted permutation

  lemma {:induction false} InsertContents<T(!new)>(x: T, s: seq<T>, le: (T, T) -> bool)
    ensures multiset(Insert(x, s, le)) == multiset{x} + multiset(s)
    ensures |Insert(x, s, le)| == |s| + 1
  {
    if s == [] || le(x, s[0]) {
    } else {
      InsertContents(x, s[1..], le);
      assert s == [s[0]] + s[1..];
    }
  }

  lemma {:induction false} SortContents<T(!new)>(s: seq<T>, le: (T, T) -> bool)
    ensures multiset(Sort(s, le)) == multiset(s)
    ensures |Sort(s, le)| == |s|
    ensures forall x :: x in Sort(s, le) <==> x in s
  {
    if s != [] {
      SortContents(s[1..], le);
      InsertContents(s[0], Sort(s[1..], le), le);
      assert s == [s[0]] + s[1..];
    }
    SameElements(Sort(s, le), s);
  }

  lemma SameElements<T(!new)>(a: seq<T>, b: seq<T>)
    requires multiset(a) == multiset(b)
    ensures forall x :: x in a <==> x in b
    ensures |a| == |b|
  {
    forall x ensures x in a <==> x in b {
      assert x in a <==> x in multiset(a);
      assert x in b <==> x in multiset(b);
    }
    assert |multiset(a)| == |a| && |multiset(b)| == |b|;
  }

  lemma {:induction false} InsertSorted<T(!new)>(x: T, s: seq<T>, le: (T, T) -> bool)
    requires TotalPreorder(le) && Sorted(s, le)
    ensures Sorted(Insert(x, s, le), le)
  {
    if s == [] || le(x, s[0]) {
    } else {
      var t := Insert(x, s[1..], le);
      InsertSorted(x, s[1..], le);
      InsertContents(x, s[1..], le);
      forall j | 0 <= j < |t| ensures le(s[0], t[j]) {
        assert t[j] in multiset(t);
        if t[j] != x {
          assert t[j] in s[1..];
        }
      }
    }
  }

  lemma {:induction false} SortSorted<T(!new)>(s: seq<T>, le: (T, T) -> bool)
    requires TotalPreorder(le)
    ensures Sorted(Sort(s, le), le)
  {
    if s != [] {
      SortSorted(s[1..], le);
      InsertSorted(s[0], Sort(s[1..], le), le);
    }
  }

  lemma {:induction false} SortIdentity<T(!new)>(s: seq<T>, le: (T, T) -> bool)
    requires Sorted(s, le)
    ensures Sort(s, le) == s
  {
    if s != [] {
      SortIdentity(s[1..], le);
      if |s| > 1 { assert le(s[0], s[1]); }
      assert s == [s[0]] + s[1..];
    }
  }

  /** The order tells the elements of s apart. */
  ghost predicate Separates<T>(s: seq<T>, le: (T, T) -> bool) {
    forall x, y :: x in s && y in s && le(x, y) && le(y, x) ==> x == y
  }

  lemma LeastIsFirst<T(!new)>(a: seq<T>, le: (T, T) -> bool, x: T)
    requires TotalPreorder(le) && Sorted(a, le) && x in a
    ensures le(a[0], x)
  {
    var i :| 0 <= i < |a| && a[i] == x;
    assert le(a[0], a[0]);
  }

  lemma DropFirst<T(!new)>(a: seq<T>)
    requires a != []
    ensures multiset(a[1..]) == multiset(a) - multiset{a[0]}
  {
    assert a == [a[0]] + a[1..];
  }

  /** A sorted sequence is fixed by its contents where the order separates its elements. */
  lemma {:induction false} SortedUnique<T(!new)>(a: seq<T>, b: seq<T>, le: (T, T) -> bool)
    requires TotalPreorder(le) && Sorted(a, le) && Sorted(b, le)
    requires multiset(a) == multiset(b) && Separates(a, le)
    ensures a == b
  {
    SameElements(a, b);
    if a != [] {
      assert a[0] == b[0] by {
        assert a[0] in a && b[0] in b;
        LeastIsFirst(a, le, b[0]);
        LeastIsFirst(b, le, a[0]);
      }
      DropFirst(a);
      DropFirst(b);
      assert Separates(a[1..], le) by {
        forall x, y | x in a[1..] && y in a[1..] && le(x, y) && le(y, x) ensures x == y {
          assert x in a && y in a;
        }
      }
      SortedUnique(a[1..], b[1..], le);
      assert a == [a[0]] + a[1..] && b == [b[0]] + b[1..];
    }
  }

  /** Reordering the input of a sort whose keys are distinct does not change the output. */
  lemma SortPermutation<T(!new)>(a: seq<T>, b: seq<T>, le: (T, T) -> bool)
    requires TotalPreorder(le) && multiset(a) == multiset(b) && Separates(a, le)
    ensures Sort(a, le) == Sort(b, le)
  {
    SortContents(a, le);
    SortContents(b, le);
    SortSorted(a, le);
    SortSorted(b, le);
    assert Separates(Sort(a, le), le);
    SortedUnique(Sort(a, le), Sort(b, le), le);
  }

  lemma {:induction false} InsertDistinct<T(!new)>(x: T, s: seq<T>, le: (T, T) -> bool)
    requires Distinct(s) && x !in s
    ensures Distinct(Insert(x, s, le))
  {
    if s == [] || le(x, s[0]) {
    } else {
      InsertDistinct(x, s[1..], le);
      InsertContents(x, s[1..], le);
      forall j | 0 <= j < |Insert(x, s[1..], le)| ensures Insert(x, s[1..], le)[j] != s[0] {
        assert Insert(x, s[1..], le)[j] in multiset(Insert(x, s[1..], le));
      }
    }
  }

  lemma {:induction false} SortDistinct<T(!new)>(s: seq<T>, le: (T, T) -> bool)
    requires Distinct(s)
    ensures Distinct(Sort(s, le))
  {
    if s != [] {
      SortDistinct(s[1..], le);
      SortContents(s[1..], le);
      assert s[0] !in s[1..];
      InsertDistinct(s[0], Sort(s[1..], le), le);
    }
  }

  // ----- stability: sorting keeps the subsequence of every class of equal elements

  lemma FilterCons<T(!new)>(p: T -> bool, x: T, s: seq<T>)
    ensures Filter(p, [x] + s) == (if p(x) then [x] else []) + Filter(p, s)
  {
    assert ([x] + s)[1..] == s;
  }

  lemma Swap<T(!new)>(a: seq<T>, b: seq<T>, s: seq<T>)
    requires a == [] || b == []
    ensures a + (b + s) == b + (a + s)
  {
    assert [] + s == s;
  }

  lemma {:induction false} InsertFilter<T(!new)>(x: T, s: seq<T>, le: (T, T) -> bool, p: T -> bool)
    requires TotalPreorder(le)
    requires forall a, b :: p(a) && p(b) ==> le(a, b)
    ensures Filter(p, Insert(x, s, le)) == (if p(x) then [x] else []) + Filter(p, s)
  {
    if s == [] || le(x, s[0]) {
      FilterCons(p, x, s);
    } else {
      var t := Insert(x, s[1..], le);
      InsertFilter(x, s[1..], le, p);
      FilterCons(p, s[0], t);
      FilterCons(p, s[0], s[1..]);
      assert s == [s[0]] + s[1..];
      assert !(p(x) && p(s[0]));
      Swap(if p(s[0]) then [s[0]] else [], if p(x) then [x] else [], Filter(p, s[1..]));
    }
  }

  lemma {:induction false} SortStable<T(!new)>(s: seq<T>, le: (T, T) -> bool, p: T -> bool)
    requires TotalPreorder(le)
    requires forall a, b :: p(a) && p(b) ==> le(a, b)
    ensures Filter(p, Sort(s, le)) == Filter(p, s)
  {
    if s != [] {
      SortStable(s[1..], le, p);
      InsertFilter(s[0], Sort(s[1..], le), le, p);
    }
  }

  // ----- small facts about the sequence functions

  lemma {:induction false} FilterConcat<T(!new)>(p: T -> bool, a: seq<T>, b: seq<T>)
    ensures Filter(p, a + b) == Filter(p, a) + Filter(p, b)
  {
    if a == [] {
      assert a + b == b;
    } else {
      assert (a + b)[1..] == a[1..] + b;
      FilterConcat(p, a[1..], b);
    }
  }

  lemma {:induction false} FilterAgree<T(!new)>(p: T -> bool, q: T -> bool, s: seq<T>)
    requires forall x :: x in s ==> p(x) == q(x)
    ensures Filter(p, s) == Filter(q, s)
    ensures CountIf(p, s) == CountIf(q, s)
  {
    if s != [] {
      FilterAgree(p, q, s[1..]);
    }
  }

  lemma {:induction false} CountZero<T(!new)>(p: T -> bool, s: seq<T>)
    ensures CountIf(p, s) == |Filter(p, s)|
    ensures CountIf(p, s) == 0 <==> forall x :: x in s ==> !p(x)
  {
    if s != [] {
      CountZero(p, s[1..]);
      assert s == [s[0]] + s[1..];
    }
  }

  /** f keeps the order on s. */
  ghost predicate Keeps<T, U>(f: T -> U, s: seq<T>, le: (T, T) -> bool, leU: (U, U) -> bool) {
    forall i, j :: 0 <= i < |s| && 0 <= j < |s| ==> le(s[i], s[j]) == leU(f(s[i]), f(s[j]))
  }

  lemma {:induction false} InsertMap<T(!new), U>(f: T -> U, x: T, s: seq<T>, le: (T, T) -> bool, leU: (U, U) -> bool)
    requires forall i :: 0 <= i < |s| ==> le(x, s[i]) == leU(f(x), f(s[i]))
    ensures Map(f, Insert(x, s, le)) == Insert(f(x), Map(f, s), leU)
  {
    if s != [] {
      assert Map(f, s)[1..] == Map(f, s[1..]);
      if le(x, s[0]) {
        assert Map(f, [x] + s) == [f(x)] + Map(f, s);
      } else {
        InsertMap(f, x, s[1..], le, leU);
        assert Map(f, [s[0]] + Insert(x, s[1..], le)) == [f(s[0])] + Map(f, Insert(x, s[1..], le));
      }
    }
  }

  /** Sorting commutes with a map that keeps the order. */
  lemma {:induction false} SortMap<T(!new), U>(f: T -> U, s: seq<T>, le: (T, T) -> bool, leU: (U, U) -> bool)
    requires Keeps(f, s, le, leU)
    ensures Map(f, Sort(s, le)) == Sort(Map(f, s), leU)
  {
    if s != [] {
      var t := Sort(s[1..], le);
      SortMap(f, s[1..], le, leU);
      SortContents(s[1..], le);
      forall i | 0 <= i < |t| ensures le(s[0], t[i]) == leU(f(s[0]), f(t[i])) {
        assert t[i] in t && t[i] in s[1..];
        var j :| 0 <= j < |s| && s[j] == t[i];
      }
      InsertMap(f, s[0], t, le, leU);
      assert Map(f, s)[1..] == Map(f, s[1..]);
    }
  }

  lemma RemoveAt<T(!new)>(s: seq<T>, i: nat)
    requires i < |s|
    ensures multiset(s) == multiset(s[..i] + s[i + 1..]) + multiset{s[i]}
  {
    assert s == s[..i] + [s[i]] + s[i + 1..];
  }

  lemma MapRest<T(!new), U(!new)>(f: T -> U, s: seq<T>, i: nat)
    requires i < |s|
    ensures multiset(Map(f, s)) == multiset(Map(f, s[..i] + s[i + 1..])) + multiset{f(s[i])}
  {
    RemoveAt(Map(f, s), i);
    assert Map(f, s)[..i] + Map(f, s)[i + 1..] == Map(f, s[..i] + s[i + 1..]);
  }

  lemma MapFirst<T(!new), U(!new)>(f: T -> U, s: seq<T>)
    requires s != []
    ensures multiset(Map(f, s)) == multiset(Map(f, s[1..])) + multiset{f(s[0])}
  {
    MapRest(f, s, 0);
    assert s[..0] + s[0 + 1..] == s[1..];
  }

  lemma FindFirst<T(!new)>(a: seq<T>, b: seq<T>) returns (i: nat)
    requires a != [] && multiset(a) == multiset(b)
    ensures i < |b| && b[i] == a[0] && multiset(a[1..]) == multiset(b[..i] + b[i + 1..])
  {
    SameElements(a, b);
    var x := a[0];
    assert x in b;
    i :| 0 <= i < |b| && b[i] == x;
    DropFirst(a);
    RemoveAt(b, i);
  }

  /** Mapping permutations of one sequence gives permutations of one sequence. */
  lemma {:induction false} MapContents<T(!new), U(!new)>(f: T -> U, a: seq<T>, b: seq<T>)
    requires multiset(a) == multiset(b)
    ensures multiset(Map(f, a)) == multiset(Map(f, b))
    decreases |a|
  {
    if a == [] {
      SameElements(a, b);
    } else {
      var i := FindFirst(a, b);
      MapContents(f, a[1..], b[..i] + b[i + 1..]);
      MapFirst(f, a);
      MapRest(f, b, i);
    }
  }
}
