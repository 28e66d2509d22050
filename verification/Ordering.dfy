/**
  Python's `sorted` and list comprehensions as functions on sequences: a stable
  sort under any total preorder, filtering, and counting, with the facts that
  tie them together.
 */
module Ordering {
  import opened Wrappers

  // ---- Text order ----------------------------------------------------------

  /** Code-point order on text, as Python compares `str` values. */
  predicate TextLe(a: string, b: string) {
    a == "" || (b != "" && (a[0] < b[0] || (a[0] == b[0] && TextLe(a[1..], b[1..]))))
  }

  lemma {:induction false} TextTotal(a: string, b: string)
    ensures TextLe(a, b) || TextLe(b, a)
    ensures TextLe(a, b) && TextLe(b, a) ==> a == b
  {
    if a != "" && b != "" && a[0] == b[0] {
      TextTotal(a[1..], b[1..]);
      assert a == [a[0]] + a[1..] && b == [b[0]] + b[1..];
    }
  }

  lemma {:induction false} TextTransitive(a: string, b: string, c: string)
    requires TextLe(a, b) && TextLe(b, c)
    ensures TextLe(a, c)
  {
    if a != "" && a[0] == b[0] == c[0] {
      TextTransitive(a[1..], b[1..], c[1..]);
    }
  }

  // ---- Total preorders -----------------------------------------------------

  ghost predicate TotalPreorder<T(!new)>(le: (T, T) -> bool) {
    && (forall x, y :: le(x, y) || le(y, x))
    && (forall x, y, z :: le(x, y) && le(y, z) ==> le(x, z))
  }

  predicate Sorted<T>(s: seq<T>, le: (T, T) -> bool) {
    forall i, j :: 0 <= i < j < |s| ==> le(s[i], s[j])
  }

  // ---- Filtering and counting ----------------------------------------------

  function Filter<T>(s: seq<T>, p: T -> bool): seq<T> {
    if |s| == 0 then [] else
      Filter(s[..|s| - 1], p) + if p(s[|s| - 1]) then [s[|s| - 1]] else []
  }

  function Count<T>(s: seq<T>, p: T -> bool): nat {
    if |s| == 0 then 0 else Count(s[..|s| - 1], p) + if p(s[|s| - 1]) then 1 else 0
  }

  lemma {:induction false} FilterSound<T>(s: seq<T>, p: T -> bool)
    ensures |Filter(s, p)| == Count(s, p)
    ensures forall x :: x in Filter(s, p) <==> x in s && p(x)
  {
    if |s| > 0 {
      FilterSound(s[..|s| - 1], p);
      assert s == s[..|s| - 1] + [s[|s| - 1]];
    }
  }

  lemma {:induction false} FilterNone<T>(s: seq<T>, p: T -> bool)
    requires forall x :: x in s ==> !p(x)
    ensures Filter(s, p) == []
  {
    if |s| > 0 {
      assert s[|s| - 1] in s && forall x :: x in s[..|s| - 1] ==> x in s;
      FilterNone(s[..|s| - 1], p);
    }
  }

  lemma {:induction false} FilterConcat<T>(a: seq<T>, b: seq<T>, p: T -> bool)
    ensures Filter(a + b, p) == Filter(a, p) + Filter(b, p)
  {
    if |b| == 0 {
      assert a + b == a;
    } else {
      FilterConcat(a, b[..|b| - 1], p);
      assert (a + b)[..|a + b| - 1] == a + b[..|b| - 1];
    }
  }

  lemma {:induction false} FilterTwice<T>(s: seq<T>, p: T -> bool, q: T -> bool, both: T -> bool)
    requires forall x :: x in s ==> (both(x) <==> p(x) && q(x))
    ensures Filter(Filter(s, p), q) == Filter(s, both)
  {
    if |s| > 0 {
      var init, last := s[..|s| - 1], s[|s| - 1];
      assert last in s && forall x :: x in init ==> x in s;
      FilterTwice(init, p, q, both);
      FilterConcat(Filter(init, p), if p(last) then [last] else [], q);
      if p(last) {
        assert [last][..0] == [];
        assert Filter([last], q) == if q(last) then [last] else [];
      }
    }
  }

  lemma LastMultiset<T>(s: seq<T>)
    requires |s| > 0
    ensures multiset(s) == multiset(s[..|s| - 1]) + multiset{s[|s| - 1]}
  {
    assert s == s[..|s| - 1] + [s[|s| - 1]];
  }

  lemma RemoveBoth<T>(a: multiset<T>, b: multiset<T>, a': multiset<T>, b': multiset<T>, x: T)
    requires a == a' + multiset{x} && b == b' + multiset{x} && a <= b
    ensures a' <= b' && (a == b ==> a' == b')
  {
    forall y ensures a'[y] <= b'[y] { assert a[y] <= b[y]; }
    assert a' == a - multiset{x} && b' == b - multiset{x};
  }

  /** Counting does not depend on order: it is a sum over the multiset. */
  lemma {:induction false} CountOfMultiset<T>(a: seq<T>, b: seq<T>, p: T -> bool)
    requires multiset(a) <= multiset(b)
    ensures Count(a, p) <= Count(b, p)
    ensures multiset(a) == multiset(b) ==> Count(a, p) == Count(b, p)
  {
    if |a| == 0 {
      if multiset(a) == multiset(b) {
        SameLength(a, b);
      }
    } else {
      var x, init := a[|a| - 1], a[..|a| - 1];
      LastMultiset(a);
      assert x in multiset(b);
      var k :| 0 <= k < |b| && b[k] == x;
      var rest := b[..k] + b[k + 1..];
      CountWithout(b, k, p);
      WithoutMultiset(b, k);
      RemoveBoth(multiset(a), multiset(b), multiset(init), multiset(rest), x);
      CountOfMultiset(init, rest, p);
    }
  }

  lemma WithoutMultiset<T>(s: seq<T>, k: nat)
    requires k < |s|
    ensures multiset(s) == multiset(s[..k] + s[k + 1..]) + multiset{s[k]}
  {
    assert s == s[..k] + [s[k]] + s[k + 1..];
  }

  lemma {:induction false} CountWithout<T>(s: seq<T>, k: nat, p: T -> bool)
    requires k < |s|
    ensures Count(s, p) == Count(s[..k] + s[k + 1..], p) + if p(s[k]) then 1 else 0
  {
    if k == |s| - 1 {
      assert s[..k] + s[k + 1..] == s[..k];
    } else {
      var init := s[..|s| - 1];
      CountWithout(init, k, p);
      var less := s[..k] + s[k + 1..];
      assert less[..|less| - 1] == init[..k] + init[k + 1..];
    }
  }

  lemma CountAppend<T>(s: seq<T>, x: T, p: T -> bool)
    ensures Count(s + [x], p) == Count(s, p) + if p(x) then 1 else 0
  {
    assert (s + [x])[..|s|] == s;
  }

  lemma CountUpdate<T>(s: seq<T>, k: nat, x: T, p: T -> bool)
    requires k < |s|
    ensures Count(s[k := x], p) + (if p(s[k]) then 1 else 0) == Count(s, p) + if p(x) then 1 else 0
  {
    var t := s[k := x];
    CountWithout(s, k, p);
    CountWithout(t, k, p);
    assert t[..k] + t[k + 1..] == s[..k] + s[k + 1..];
  }

  lemma {:induction false} CountPositive<T>(s: seq<T>, p: T -> bool)
    ensures Count(s, p) > 0 <==> exists i :: 0 <= i < |s| && p(s[i])
  {
    if |s| > 0 {
      var init := s[..|s| - 1];
      CountPositive(init, p);
      if i :| 0 <= i < |s| && p(s[i]) {
        if i < |s| - 1 { assert p(init[i]); }
      }
      if Count(init, p) > 0 {
        var i :| 0 <= i < |init| && p(init[i]);
        assert p(s[i]);
      }
    }
  }

  lemma {:induction false} CountSame<T>(s: seq<T>, p: T -> bool, q: T -> bool)
    requires forall x :: x in s ==> (p(x) <==> q(x))
    ensures Count(s, p) == Count(s, q)
  {
    if |s| > 0 { CountSame(s[..|s| - 1], p, q); }
  }

  lemma {:induction false} CountWeaker<T>(s: seq<T>, p: T -> bool, q: T -> bool)
    requires forall x :: x in s && p(x) ==> q(x)
    ensures Count(s, p) <= Count(s, q)
  {
    if |s| > 0 {
      assert forall x :: x in s[..|s| - 1] ==> x in s;
      CountWeaker(s[..|s| - 1], p, q);
    }
  }

  // ---- The stable sort -----------------------------------------------------

  function InsertSorted<T>(s: seq<T>, x: T, le: (T, T) -> bool): seq<T> {
    if |s| == 0 then [x]
    else if le(s[|s| - 1], x) then s + [x]
    else InsertSorted(s[..|s| - 1], x, le) + [s[|s| - 1]]
  }

  /** `sorted(s, key=...)`: equal keys keep their order of arrival. */
  function StableSort<T>(s: seq<T>, le: (T, T) -> bool): seq<T> {
    if |s| == 0 then [] else InsertSorted(StableSort(s[..|s| - 1], le), s[|s| - 1], le)
  }

  lemma {:induction false} InsertMultiset<T(!new)>(s: seq<T>, x: T, le: (T, T) -> bool)
    ensures multiset(InsertSorted(s, x, le)) == multiset(s) + multiset{x}
    ensures |InsertSorted(s, x, le)| == |s| + 1
  {
    if |s| > 0 {
      LastMultiset(s);
      InsertMultiset(s[..|s| - 1], x, le);
    }
  }

  lemma InsertMembers<T(!new)>(s: seq<T>, x: T, le: (T, T) -> bool)
    ensures forall y :: y in InsertSorted(s, x, le) <==> y in s || y == x
  {
    InsertMultiset(s, x, le);
    forall y ensures y in InsertSorted(s, x, le) <==> y in s || y == x {
      assert y in InsertSorted(s, x, le) <==> y in multiset(InsertSorted(s, x, le));
    }
  }

  lemma AllBelowLast<T(!new)>(s: seq<T>, x: T, le: (T, T) -> bool)
    requires TotalPreorder(le) && Sorted(s, le) && |s| > 0 && le(s[|s| - 1], x)
    ensures forall y :: y in s ==> le(y, x)
  {
    assert le(s[|s| - 1], s[|s| - 1]);
    forall i | 0 <= i < |s| ensures le(s[i], x) {
      assert le(s[i], s[|s| - 1]);
    }
  }

  lemma {:induction false} InsertFacts<T(!new)>(s: seq<T>, x: T, le: (T, T) -> bool)
    requires TotalPreorder(le) && Sorted(s, le)
    ensures Sorted(InsertSorted(s, x, le), le)
    ensures multiset(InsertSorted(s, x, le)) == multiset(s) + multiset{x}
    ensures |InsertSorted(s, x, le)| == |s| + 1
  {
    InsertMultiset(s, x, le);
    if |s| > 0 {
      if le(s[|s| - 1], x) {
        AllBelowLast(s, x, le);
      } else {
        var init, last := s[..|s| - 1], s[|s| - 1];
        InsertFacts(init, x, le);
        InsertMembers(init, x, le);
        var r := InsertSorted(init, x, le);
        forall i | 0 <= i < |r| ensures le(r[i], last) {
          assert r[i] in r;
          if r[i] in init {
            var k :| 0 <= k < |init| && init[k] == r[i];
            assert le(s[k], s[|s| - 1]);
          }
        }
      }
    }
  }

  lemma {:induction false} SortMultiset<T(!new)>(s: seq<T>, le: (T, T) -> bool)
    ensures multiset(StableSort(s, le)) == multiset(s)
    ensures |StableSort(s, le)| == |s|
  {
    if |s| > 0 {
      SortMultiset(s[..|s| - 1], le);
      InsertMultiset(StableSort(s[..|s| - 1], le), s[|s| - 1], le);
      LastMultiset(s);
    }
  }

  lemma {:induction false} SortFacts<T(!new)>(s: seq<T>, le: (T, T) -> bool)
    requires TotalPreorder(le)
    ensures Sorted(StableSort(s, le), le)
    ensures multiset(StableSort(s, le)) == multiset(s)
    ensures |StableSort(s, le)| == |s|
  {
    SortMultiset(s, le);
    if |s| > 0 {
      hide TotalPreorder, Sorted, InsertSorted;
      SortFacts(s[..|s| - 1], le);
      InsertFacts(StableSort(s[..|s| - 1], le), s[|s| - 1], le);
    }
  }

  lemma FilterPush<T>(s: seq<T>, x: T, p: T -> bool)
    ensures Filter(s + [x], p) == Filter(s, p) + if p(x) then [x] else []
  {
    assert (s + [x])[..|s|] == s;
  }

  lemma FilterInsertAtEnd<T(!new)>(s: seq<T>, x: T, le: (T, T) -> bool, p: T -> bool)
    requires forall y :: y in s ==> le(y, x)
    ensures InsertSorted(Filter(s, p), x, le) == Filter(s, p) + [x]
  {
    FilterSound(s, p);
    var f := Filter(s, p);
    if |f| > 0 { assert f[|f| - 1] in f; }
  }

  lemma InsertBeforeLast<T>(s: seq<T>, last: T, x: T, le: (T, T) -> bool)
    requires !le(last, x)
    ensures InsertSorted(s + [last], x, le) == InsertSorted(s, x, le) + [last]
  {
    assert (s + [last])[..|s|] == s;
  }

  lemma FilterInsertStep<T(!new)>(init: seq<T>, last: T, x: T, le: (T, T) -> bool, p: T -> bool)
    requires !le(last, x)
    requires Filter(InsertSorted(init, x, le), p)
          == if p(x) then InsertSorted(Filter(init, p), x, le) else Filter(init, p)
    ensures Filter(InsertSorted(init + [last], x, le), p)
         == if p(x) then InsertSorted(Filter(init + [last], p), x, le) else Filter(init + [last], p)
  {
    hide Filter, InsertSorted;
    InsertBeforeLast(init, last, x, le);
    FilterPush(InsertSorted(init, x, le), last, p);
    FilterPush(init, last, p);
    InsertBeforeLast(Filter(init, p), last, x, le);
    if !p(last) {
      assert Filter(init, p) + [] == Filter(init, p);
    }
  }

  lemma {:induction false} FilterInsert<T(!new)>(s: seq<T>, x: T, le: (T, T) -> bool, p: T -> bool)
    requires TotalPreorder(le) && Sorted(s, le)
    ensures Filter(InsertSorted(s, x, le), p)
         == if p(x) then InsertSorted(Filter(s, p), x, le) else Filter(s, p)
  {
    if |s| == 0 {
      FilterPush([], x, p);
      assert [] + [x] == [x];
    } else if le(s[|s| - 1], x) {
      AllBelowLast(s, x, le);
      assert InsertSorted(s, x, le) == s + [x];
      hide TotalPreorder, Sorted, Filter, InsertSorted;
      FilterPush(s, x, p);
      FilterInsertAtEnd(s, x, le, p);
      if !p(x) { assert Filter(s, p) + [] == Filter(s, p); }
    } else {
      var init, last := s[..|s| - 1], s[|s| - 1];
      assert Sorted(init, le);
      hide TotalPreorder, Sorted, Filter, InsertSorted;
      FilterInsert(init, x, le, p);
      FilterInsertStep(init, last, x, le, p);
      assert s == init + [last];
    }
  }

  /** Filtering commutes with the stable sort. */
  lemma {:induction false} FilterSort<T(!new)>(s: seq<T>, le: (T, T) -> bool, p: T -> bool)
    requires TotalPreorder(le)
    ensures Filter(StableSort(s, le), p) == StableSort(Filter(s, p), le)
  {
    if |s| > 0 {
      var init, last := s[..|s| - 1], s[|s| - 1];
      FilterSort(init, le, p);
      SortFacts(init, le);
      FilterInsert(StableSort(init, le), last, le, p);
      if p(last) {
        assert (Filter(init, p) + [last])[..|Filter(init, p)|] == Filter(init, p);
      } else {
        assert Filter(s, p) == Filter(init, p);
      }
    }
  }

  /** Where the first element satisfying `p` of the stable sort stood before sorting. */
  function FirstWhere<T>(s: seq<T>, p: T -> bool, le: (T, T) -> bool): (r: Option<nat>)
    ensures r.Some? ==> r.value < |s|
  {
    if |s| == 0 then None else
      var r := FirstWhere(s[..|s| - 1], p, le);
      if p(s[|s| - 1]) && (r.None? || !le(s[r.value], s[|s| - 1])) then Some(|s| - 1) else r
  }

  /** It is the least such element and, among equals, the first to arrive. */
  lemma {:induction false} FirstWhereIsLeast<T(!new)>(s: seq<T>, p: T -> bool, le: (T, T) -> bool)
    requires TotalPreorder(le)
    ensures FirstWhere(s, p, le).None? ==> forall j :: 0 <= j < |s| ==> !p(s[j])
    ensures FirstWhere(s, p, le).Some? ==>
      var i := FirstWhere(s, p, le).value;
      p(s[i]) && forall j :: 0 <= j < |s| && p(s[j]) ==> le(s[i], s[j]) && (le(s[j], s[i]) ==> i <= j)
  {
    if |s| > 0 {
      var init, last := s[..|s| - 1], s[|s| - 1];
      FirstWhereIsLeast(init, p, le);
      assert forall j :: 0 <= j < |init| ==> init[j] == s[j];
      var r := FirstWhere(init, p, le);
      if r.Some? && p(last) && !le(s[r.value], last) {
        forall j | 0 <= j < |s| && p(s[j]) ensures le(last, s[j]) && (le(s[j], last) ==> |s| - 1 <= j) {
          if j < |init| { assert le(s[r.value], s[j]); }
        }
      }
    }
  }

  lemma FirstWhereUnique<T(!new)>(s: seq<T>, p: T -> bool, le: (T, T) -> bool, i: nat)
    requires TotalPreorder(le) && i < |s| && p(s[i])
    requires forall j :: 0 <= j < |s| && p(s[j]) ==> le(s[i], s[j]) && (le(s[j], s[i]) ==> i <= j)
    ensures FirstWhere(s, p, le) == Some(i)
  {
    FirstWhereIsLeast(s, p, le);
    hide FirstWhere, TotalPreorder;
    var k := FirstWhere(s, p, le).value;
    assert le(s[k], s[i]) && le(s[i], s[k]);
  }

  lemma {:induction false} FirstWhereHeads<T(!new)>(s: seq<T>, p: T -> bool, le: (T, T) -> bool)
    requires TotalPreorder(le)
    ensures var f := Filter(StableSort(s, le), p);
      if FirstWhere(s, p, le).Some? then |f| > 0 && f[0] == s[FirstWhere(s, p, le).value] else f == []
  {
    FilterSort(s, le, p);
    if |s| > 0 {
      var init, last := s[..|s| - 1], s[|s| - 1];
      FirstWhereHeads(init, p, le);
      FilterSort(init, le, p);
      var f := StableSort(Filter(init, p), le);
      SortFacts(Filter(init, p), le);
      if p(last) {
        assert (Filter(init, p) + [last])[..|Filter(init, p)|] == Filter(init, p);
        if f != [] { InsertHead(f, last, le); }
      } else {
        assert Filter(s, p) == Filter(init, p);
      }
    }
  }

  lemma {:induction false} InsertHead<T(!new)>(s: seq<T>, x: T, le: (T, T) -> bool)
    requires TotalPreorder(le) && Sorted(s, le) && |s| > 0
    ensures InsertSorted(s, x, le)[0] == if le(s[0], x) then s[0] else x
  {
    if !le(s[|s| - 1], x) && |s| > 1 {
      InsertHead(s[..|s| - 1], x, le);
      InsertFacts(s[..|s| - 1], x, le);
    }
  }

  lemma SameLast<T(!new)>(a: seq<T>, b: seq<T>, le: (T, T) -> bool)
    requires Sorted(a, le) && Sorted(b, le) && multiset(a) == multiset(b) && |a| == |b| > 0
    requires forall x, y :: x in a && y in a && le(x, y) && le(y, x) ==> x == y
    ensures a[|a| - 1] == b[|b| - 1]
  {
    var x, y := a[|a| - 1], b[|b| - 1];
    assert y in multiset(b) && x in multiset(a);
    assert y in a && x in b;
    var i :| 0 <= i < |a| && a[i] == y;
    var j :| 0 <= j < |b| && b[j] == x;
    if i < |a| - 1 && j < |b| - 1 {
      assert le(a[i], a[|a| - 1]) && le(b[j], b[|b| - 1]);
    }
  }

  /** Two sorted arrangements of the same elements agree when distinct elements never tie. */
  lemma {:induction false} SortedUnique<T(!new)>(a: seq<T>, b: seq<T>, le: (T, T) -> bool)
    requires Sorted(a, le) && Sorted(b, le) && multiset(a) == multiset(b)
    requires forall x, y :: x in a && y in a && le(x, y) && le(y, x) ==> x == y
    ensures a == b
  {
    SameLength(a, b);
    if |a| > 0 {
      var ai, bi := a[..|a| - 1], b[..|b| - 1];
      SameLast(a, b, le);
      WithoutLast(a, b, le);
      SortedUnique(ai, bi, le);
      assert a == ai + [a[|a| - 1]] && b == bi + [b[|b| - 1]];
    }
  }

  lemma WithoutLast<T(!new)>(a: seq<T>, b: seq<T>, le: (T, T) -> bool)
    requires Sorted(a, le) && Sorted(b, le) && multiset(a) == multiset(b)
    requires |a| == |b| > 0 && a[|a| - 1] == b[|b| - 1]
    ensures var ai, bi := a[..|a| - 1], b[..|b| - 1];
      Sorted(ai, le) && Sorted(bi, le) && multiset(ai) == multiset(bi) && forall y :: y in ai ==> y in a
  {
    LastMultiset(a);
    LastMultiset(b);
    RemoveBoth(multiset(a), multiset(b), multiset(a[..|a| - 1]), multiset(b[..|b| - 1]), a[|a| - 1]);
  }

  lemma SameLength<T>(a: seq<T>, b: seq<T>)
    requires multiset(a) == multiset(b)
    ensures |a| == |b|
  {
    assert |multiset(a)| == |a| && |multiset(b)| == |b|;
  }

  /** Duplicate-free sequences over the same elements are rearrangements of each other. */
  predicate Distinct<T(==)>(s: seq<T>) {
    forall i, j :: 0 <= i < j < |s| ==> s[i] != s[j]
  }

  lemma {:induction false} DistinctMultiset<T>(s: seq<T>)
    requires Distinct(s)
    ensures multiset(s) == multiset(set x | x in s)
    ensures |s| == |set x | x in s|
  {
    if |s| > 0 {
      var init, last := s[..|s| - 1], s[|s| - 1];
      DistinctMultiset(init);
      assert s == init + [last];
      assert (set x | x in s) == (set x | x in init) + {last};
      assert last !in init;
    }
  }
}
