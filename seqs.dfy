/**
 * The array operations the storefront builds everything from: filter,
 * map-with-replacement, index removal, flatMap, de-duplication through a Set,
 * and a stable sort driven by a numeric comparator.
 */
module Seqs {

  /** The elements of `s` satisfying `p`, in their original order (`Array.prototype.filter`). */
  function Filter<T(==,!new)>(s: seq<T>, p: T -> bool): (r: seq<T>)
    ensures |r| <= |s|
    ensures forall x :: x in r <==> x in s && p(x)
    ensures forall i :: 0 <= i < |r| ==> p(r[i])
    decreases |s|
  {
    if s == [] then []
    else if p(s[0]) then [s[0]] + Filter(s[1..], p)
    else Filter(s[1..], p)
  }

  /** `a` can be obtained from `b` by deleting elements (greedy matching). */
  predicate IsSubsequence<T(==)>(a: seq<T>, b: seq<T>)
    decreases |b|
  {
    if a == [] then true
    else if b == [] then false
    else if a[0] == b[0] then IsSubsequence(a[1..], b[1..])
    else IsSubsequence(a, b[1..])
  }

  lemma {:induction false} SubsequenceDropHead<T>(a: seq<T>, b: seq<T>)
    requires a != [] && IsSubsequence(a, b)
    ensures IsSubsequence(a[1..], b)
    decreases |b|, 0
  {
    if b != [] && a[0] != b[0] {
      SubsequenceDropHead(a, b[1..]);
      SubsequenceCons(a[1..], b[1..], b[0]);
      assert [b[0]] + b[1..] == b;
    } else if b != [] {
      SubsequenceCons(a[1..], b[1..], b[0]);
      assert [b[0]] + b[1..] == b;
    }
  }

  lemma {:induction false} SubsequenceCons<T>(a: seq<T>, t: seq<T>, y: T)
    requires IsSubsequence(a, t)
    ensures IsSubsequence(a, [y] + t)
    decreases |t|, 1
  {
    var b := [y] + t;
    assert b[1..] == t;
    if a != [] && a[0] == y {
      SubsequenceDropHead(a, t);
    }
  }

  lemma {:induction false} SubsequenceTrans<T>(a: seq<T>, b: seq<T>, c: seq<T>)
    requires IsSubsequence(a, b) && IsSubsequence(b, c)
    ensures IsSubsequence(a, c)
    decreases |c|
  {
    if a != [] {
      assert b != [] && c != [];
      if b[0] == c[0] {
        if a[0] == b[0] {
          SubsequenceTrans(a[1..], b[1..], c[1..]);
        } else {
          SubsequenceTrans(a, b[1..], c[1..]);
        }
      } else {
        SubsequenceTrans(a, b, c[1..]);
        SubsequenceCons(a, c[1..], c[0]);
        assert [c[0]] + c[1..] == c;
      }
    }
  }

  lemma {:induction false} SubsequenceRefl<T>(s: seq<T>)
    ensures IsSubsequence(s, s)
    decreases |s|
  {
    if s != [] {
      SubsequenceRefl(s[1..]);
    }
  }

  /** A filter result is a subsequence of its input. */
  lemma {:induction false} FilterIsSubsequence<T(!new)>(s: seq<T>, p: T -> bool)
    ensures IsSubsequence(Filter(s, p), s)
    decreases |s|
  {
    if s != [] {
      FilterIsSubsequence(s[1..], p);
      if !p(s[0]) {
        SubsequenceCons(Filter(s[1..], p), s[1..], s[0]);
        assert [s[0]] + s[1..] == s;
      }
    }
  }

  /**
   * A filter keeps every occurrence of an element satisfying `p` and drops
   * every occurrence of one that does not.
   */
  lemma {:induction false} FilterCounts<T(!new)>(s: seq<T>, p: T -> bool)
    ensures forall x :: multiset(Filter(s, p))[x] == if p(x) then multiset(s)[x] else 0
    decreases |s|
  {
    if s != [] {
      FilterCounts(s[1..], p);
      assert s == [s[0]] + s[1..];
    }
  }

  /** Filtering a list extended by one element extends the filtered list by that element when it is kept. */
  lemma {:induction false} FilterSnoc<T(!new)>(s: seq<T>, x: T, p: T -> bool)
    ensures Filter(s + [x], p) == Filter(s, p) + (if p(x) then [x] else [])
    decreases |s|
  {
    if s != [] {
      assert (s + [x])[1..] == s[1..] + [x];
      FilterSnoc(s[1..], x, p);
    }
  }

  /** Filtering with a predicate that holds everywhere gives the input back. */
  lemma {:induction false} FilterAll<T(!new)>(s: seq<T>, p: T -> bool)
    requires forall x :: x in s ==> p(x)
    ensures Filter(s, p) == s
    decreases |s|
  {
    if s != [] {
      FilterAll(s[1..], p);
    }
  }

  /** Filtering never changes a list without duplicates into one with. */
  lemma {:induction false} FilterKeepsNoDups<T(!new)>(s: seq<T>, p: T -> bool)
    requires NoDups(s)
    ensures NoDups(Filter(s, p))
    decreases |s|
  {
    if s != [] {
      FilterKeepsNoDups(s[1..], p);
    }
  }

  /** Pairwise distinct elements. */
  predicate NoDups<T(==)>(s: seq<T>)
  {
    forall i, j :: 0 <= i < j < |s| ==> s[i] != s[j]
  }

  /** `s` without position `i`; unchanged when `i` is not a position (`filter((_, k) => k !== i)`). */
  function RemoveAt<T>(s: seq<T>, i: int): (r: seq<T>)
    ensures 0 <= i < |s| ==> |r| == |s| - 1
    ensures 0 <= i < |s| ==> forall k :: 0 <= k < i ==> r[k] == s[k]
    ensures 0 <= i < |s| ==> forall k :: i <= k < |r| ==> r[k] == s[k + 1]
    ensures !(0 <= i < |s|) ==> r == s
  {
    if 0 <= i < |s| then s[..i] + s[i + 1..] else s
  }

  /** Every element satisfying `p` replaced by `x` (`s.map(e => p(e) ? x : e)`). */
  function ReplaceWhere<T>(s: seq<T>, p: T -> bool, x: T): (r: seq<T>)
    ensures |r| == |s|
    ensures forall i :: 0 <= i < |s| ==> r[i] == (if p(s[i]) then x else s[i])
    decreases |s|
  {
    if s == [] then [] else [if p(s[0]) then x else s[0]] + ReplaceWhere(s[1..], p, x)
  }

  /** Every element mapped through `f` (`Array.prototype.map`). */
  function Map<T, U>(s: seq<T>, f: T -> U): (r: seq<U>)
    ensures |r| == |s|
    ensures forall i :: 0 <= i < |s| ==> r[i] == f(s[i])
    decreases |s|
  {
    if s == [] then [] else [f(s[0])] + Map(s[1..], f)
  }

  /** Mapping a list extended by one element extends the mapped list by its image. */
  lemma {:induction false} MapSnoc<T, U>(s: seq<T>, x: T, f: T -> U)
    ensures Map(s + [x], f) == Map(s, f) + [f(x)]
  {
    var r := Map(s + [x], f);
    assert |r| == |s| + 1;
    assert forall i :: 0 <= i < |s| ==> r[i] == f(s[i]) by {
      assert forall i :: 0 <= i < |s| ==> (s + [x])[i] == s[i];
    }
    assert r[|s|] == f((s + [x])[|s|]);
  }

  /** The concatenation of `f(x)` for every `x` of `s` (`Array.prototype.flatMap`). */
  function FlatMap<T(==), U(==)>(s: seq<T>, f: T -> seq<U>): (r: seq<U>)
    decreases |s|
  {
    if s == [] then [] else f(s[0]) + FlatMap(s[1..], f)
  }

  lemma {:induction false} FlatMapMembers<T, U>(s: seq<T>, f: T -> seq<U>, y: U)
    ensures y in FlatMap(s, f) <==> exists x :: x in s && y in f(x)
    decreases |s|
  {
    if s != [] {
      FlatMapMembers(s[1..], f, y);
      if y in f(s[0]) {
        assert s[0] in s;
      }
      assert forall x :: x in s <==> x == s[0] || x in s[1..];
    }
  }

  /**
   * Each element of `s` once, in order of first occurrence
   * (`[...new Set(s)]`).
   */
  function Dedup<T(==,!new)>(s: seq<T>): (r: seq<T>)
    ensures forall x :: x in r <==> x in s
    ensures forall x :: multiset(r)[x] == if x in s then 1 else 0
    decreases |s|
  {
    if s == [] then []
    else
      var init := Dedup(s[..|s| - 1]);
      var last := s[|s| - 1];
      assert forall x :: x in s <==> x in s[..|s| - 1] || x == last by {
        assert s == s[..|s| - 1] + [last];
      }
      if last in init then init else init + [last]
  }

  /** A list whose counts are all at most one has no duplicates. */
  lemma CountOneNoDups<T>(r: seq<T>)
    requires forall x :: multiset(r)[x] <= 1
    ensures NoDups(r)
  {
    forall i, j | 0 <= i < j < |r| ensures r[i] != r[j] {
      var x := r[i];
      assert r == r[..j] + r[j..];
      assert multiset(r)[x] == multiset(r[..j])[x] + multiset(r[j..])[x];
      assert r[..j][i] == x;
      assert r[j..][0] == r[j];
    }
  }

  /** `a` orders no later than `b` under the three-way comparator `cmp`. */
  predicate Sorted<T>(s: seq<T>, cmp: (T, T) -> int)
  {
    forall i, j :: 0 <= i < j < |s| ==> cmp(s[i], s[j]) <= 0
  }

  /**
   * The conditions under which a sort comparator yields a well-defined
   * order: every pair is comparable and "not after" is transitive.
   */
  ghost predicate ConsistentComparator<T(!new)>(cmp: (T, T) -> int)
  {
    && (forall a, b :: cmp(a, b) <= 0 || cmp(b, a) <= 0)
    && (forall a, b, c :: cmp(a, b) <= 0 && cmp(b, c) <= 0 ==> cmp(a, c) <= 0)
  }

  /** `x` placed before the first element it does not compare after. */
  function Insert<T>(x: T, s: seq<T>, cmp: (T, T) -> int): (r: seq<T>)
    ensures multiset(r) == multiset(s) + multiset{x}
    ensures |r| == |s| + 1
    decreases |s|
  {
    if s == [] || cmp(x, s[0]) <= 0 then [x] + s
    else
      assert s == [s[0]] + s[1..];
      [s[0]] + Insert(x, s[1..], cmp)
  }

  /**
   * A stable sort by `cmp` (`[...s].sort(cmp)`): insertion from the back, so
   * that an element is never moved past one it compares equal to.
   */
  function Sort<T>(s: seq<T>, cmp: (T, T) -> int): (r: seq<T>)
    ensures multiset(r) == multiset(s)
    ensures |r| == |s|
    decreases |s|
  {
    if s == [] then []
    else
      assert s == [s[0]] + s[1..];
      Insert(s[0], Sort(s[1..], cmp), cmp)
  }

  lemma SortedPrepend<T>(y: T, t: seq<T>, cmp: (T, T) -> int)
    requires Sorted(t, cmp)
    requires forall k :: 0 <= k < |t| ==> cmp(y, t[k]) <= 0
    ensures Sorted([y] + t, cmp)
  {
    var r := [y] + t;
    forall i, j | 0 <= i < j < |r| ensures cmp(r[i], r[j]) <= 0 {
      assert r[j] == t[j - 1];
      if i > 0 {
        assert r[i] == t[i - 1];
      }
    }
  }

  lemma {:induction false} InsertSorted<T(!new)>(x: T, s: seq<T>, cmp: (T, T) -> int)
    requires ConsistentComparator(cmp) && Sorted(s, cmp)
    ensures Sorted(Insert(x, s, cmp), cmp)
    decreases |s|
  {
    if s == [] {
    } else if cmp(x, s[0]) <= 0 {
      forall k | 0 <= k < |s| ensures cmp(x, s[k]) <= 0 {
        if k > 0 {
          assert cmp(s[0], s[k]) <= 0;
        }
      }
      SortedPrepend(x, s, cmp);
    } else {
      var tail := Insert(x, s[1..], cmp);
      InsertSorted(x, s[1..], cmp);
      assert cmp(s[0], x) <= 0;
      forall k | 0 <= k < |tail| ensures cmp(s[0], tail[k]) <= 0 {
        assert tail[k] in multiset(tail);
        if tail[k] != x {
          assert tail[k] in s[1..];
          var m :| 0 <= m < |s[1..]| && s[1..][m] == tail[k];
          assert s[m + 1] == tail[k];
        }
      }
      SortedPrepend(s[0], tail, cmp);
    }
  }

  /** The inserted list holds the old elements and the new one. */
  lemma InsertMembers<T>(x: T, s: seq<T>, cmp: (T, T) -> int)
    ensures forall y :: y in Insert(x, s, cmp) <==> y in s || y == x
  {
    var r := Insert(x, s, cmp);
    assert forall y :: y in r <==> y in multiset(r);
    assert forall y :: y in s <==> y in multiset(s);
  }

  /** Prepending an element that is not in a duplicate-free list keeps it duplicate-free. */
  lemma NoDupsCons<T>(x: T, s: seq<T>)
    requires NoDups(s) && x !in s
    ensures NoDups([x] + s)
  {
    var r := [x] + s;
    forall i, j | 0 <= i < j < |r| ensures r[i] != r[j] {
      assert r[j] == s[j - 1];
      if i > 0 {
        assert r[i] == s[i - 1];
      }
    }
  }

  /** Inserting an element that is not in a duplicate-free list keeps it duplicate-free. */
  lemma {:induction false} InsertKeepsNoDups<T>(x: T, s: seq<T>, cmp: (T, T) -> int)
    requires NoDups(s) && x !in s
    ensures NoDups(Insert(x, s, cmp))
    decreases |s|
  {
    if s == [] || cmp(x, s[0]) <= 0 {
      NoDupsCons(x, s);
    } else {
      var t := Insert(x, s[1..], cmp);
      assert x !in s[1..];
      InsertKeepsNoDups(x, s[1..], cmp);
      assert s[0] !in t by {
        assert s[0] != x;
        assert s[0] !in multiset(s[1..]);
        InsertMembers(x, s[1..], cmp);
      }
      NoDupsCons(s[0], t);
    }
  }

  /** With a consistent comparator the sort result is ordered. */
  lemma {:induction false} SortSorted<T(!new)>(s: seq<T>, cmp: (T, T) -> int)
    requires ConsistentComparator(cmp)
    ensures Sorted(Sort(s, cmp), cmp)
    decreases |s|
  {
    if s != [] {
      SortSorted(s[1..], cmp);
      InsertSorted(s[0], Sort(s[1..], cmp), cmp);
    }
  }

  /** A comparator that never puts one element after another leaves the order unchanged. */
  lemma {:induction false} SortAllTies<T>(s: seq<T>, cmp: (T, T) -> int)
    requires forall a, b :: cmp(a, b) <= 0
    ensures Sort(s, cmp) == s
    decreases |s|
  {
    if s != [] {
      SortAllTies(s[1..], cmp);
    }
  }
}
