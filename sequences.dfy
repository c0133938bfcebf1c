/** Stream operations over lists: filter, findFirst, sorted, and sums. */
module Sequences {
  import opened Common

  /** `r` is an order-preserving subsequence of `s` (greedy matching). */
  predicate IsSubsequence<T(==)>(r: seq<T>, s: seq<T>)
    decreases |s|
  {
    if r == [] then true
    else if s == [] then false
    else if r[0] == s[0] then IsSubsequence(r[1..], s[1..])
    else IsSubsequence(r, s[1..])
  }

  /** Stream.filter(p).collect(toList()). */
  function Filter<T(!new)>(s: seq<T>, p: T -> bool): (r: seq<T>)
    ensures |r| <= |s|
    ensures forall x :: x in r <==> x in s && p(x)
  {
    if s == [] then []
    else
      var rest := Filter(s[1..], p);
      assert s == [s[0]] + s[1..];
      if p(s[0]) then [s[0]] + rest else rest
  }

  /** Filtering keeps the order of the list: the result is a subsequence. */
  lemma {:induction false} FilterIsSubsequence<T(!new)>(s: seq<T>, p: T -> bool)
    ensures IsSubsequence(Filter(s, p), s)
    decreases |s|
  {
    if s != [] {
      var rest := Filter(s[1..], p);
      FilterIsSubsequence(s[1..], p);
      if p(s[0]) {
        assert ([s[0]] + rest)[1..] == rest;
      } else {
        SubsequenceOfTail(rest, s);
      }
    }
  }

  /** Filtering keeps every occurrence of a passing element and none of a failing one. */
  lemma {:induction false} FilterMultiset<T(!new)>(s: seq<T>, p: T -> bool, x: T)
    ensures multiset(Filter(s, p))[x] == if p(x) then multiset(s)[x] else 0
    decreases |s|
  {
    if s != [] {
      FilterMultiset(s[1..], p, x);
      assert s == [s[0]] + s[1..];
    }
  }

  lemma {:induction false} SubsequenceOfTail<T>(r: seq<T>, s: seq<T>)
    requires s != [] && IsSubsequence(r, s[1..])
    ensures IsSubsequence(r, s)
    decreases |r| + |s|
  {
    if r != [] && r[0] == s[0] {
      // the greedy match takes s[0]; r[1..] still fits in s[1..]
      SubsequenceDropHead(r, s[1..]);
    }
  }

  lemma {:induction false} SubsequenceDropHead<T>(r: seq<T>, s: seq<T>)
    requires r != [] && IsSubsequence(r, s)
    ensures IsSubsequence(r[1..], s)
    decreases |r| + |s|
  {
    if r[0] == s[0] {
      if r[1..] != [] {
        SubsequenceOfTail(r[1..], s);
      }
    } else {
      SubsequenceDropHead(r, s[1..]);
      if r[1..] != [] {
        SubsequenceOfTail(r[1..], s);
      }
    }
  }

  /** Filtering a list extended at the end extends the filtered list at the end. */
  lemma {:induction false} FilterSnoc<T(!new)>(s: seq<T>, x: T, p: T -> bool)
    ensures Filter(s + [x], p) == Filter(s, p) + (if p(x) then [x] else [])
    decreases |s|
  {
    if s == [] {
      assert [x][1..] == [];
    } else {
      assert (s + [x])[1..] == s[1..] + [x];
      FilterSnoc(s[1..], x, p);
    }
  }

  /** Filtering by a condition and then by a narrower one is filtering by the narrower one. */
  lemma {:induction false} FilterNarrowed<T(!new)>(s: seq<T>, p: T -> bool, q: T -> bool)
    requires forall x | x in s && q(x) :: p(x)
    ensures Filter(Filter(s, p), q) == Filter(s, q)
    decreases |s|
  {
    if s != [] {
      FilterNarrowed(s[1..], p, q);
      var rest := Filter(s[1..], p);
      if p(s[0]) {
        assert ([s[0]] + rest)[1..] == rest;
      }
    }
  }

  /** The number of elements satisfying `p` (Stream.filter(p).count()). */
  function Count<T(!new)>(s: seq<T>, p: T -> bool): (n: nat)
    ensures n <= |s|
  {
    |Filter(s, p)|
  }

  /** The elements satisfying `p` and those failing it together make up the list. */
  lemma {:induction false} CountSplit<T(!new)>(s: seq<T>, p: T -> bool)
    ensures Count(s, p) + Count(s, x => !p(x)) == |s|
    decreases |s|
  {
    if s != [] {
      CountSplit(s[1..], p);
    }
  }

  /** Stream.filter(p).findFirst(). */
  function FindFirst<T(==)>(s: seq<T>, p: T -> bool): (r: Option<T>)
    ensures r.None? <==> forall i | 0 <= i < |s| :: !p(s[i])
    ensures r.Some? ==> exists i | 0 <= i < |s| :: s[i] == r.value && p(s[i]) && forall j | 0 <= j < i :: !p(s[j])
  {
    if s == [] then None
    else if p(s[0]) then Some(s[0])
    else
      var r := FindFirst(s[1..], p);
      assert forall i | 1 <= i < |s| :: s[i] == s[1..][i - 1];
      if r.Some? then
        var i :| 0 <= i < |s[1..]| && s[1..][i] == r.value && p(s[1..][i]) && forall j | 0 <= j < i :: !p(s[1..][j]);
        assert s[i + 1] == r.value && forall j | 0 <= j < i + 1 :: !p(s[j]);
        r
      else r
  }

  /** findFirst on a filtered list is the head of that list. */
  lemma {:induction false} FindFirstIsHeadOfFilter<T(!new)>(s: seq<T>, p: T -> bool)
    ensures FindFirst(s, p) == (if Filter(s, p) == [] then None else Some(Filter(s, p)[0]))
    decreases |s|
  {
    if s != [] && !p(s[0]) {
      FindFirstIsHeadOfFilter(s[1..], p);
    }
  }

  /** Sum of the elements' values under `f`, added from the front. */
  function SumBy<T>(s: seq<T>, f: T -> int): int
  {
    if s == [] then 0 else SumBy(s[..|s| - 1], f) + f(s[|s| - 1])
  }

  // ---------------------------------------------------------------- ordering

  /** `le` is total and transitive: a comparator usable for sorting. */
  ghost predicate TotalPreorder<T(!new)>(le: (T, T) -> bool)
  {
    && (forall a, b :: le(a, b) || le(b, a))
    && (forall a, b, c :: le(a, b) && le(b, c) ==> le(a, c))
  }

  ghost predicate SortedBy<T>(s: seq<T>, le: (T, T) -> bool)
  {
    forall i, j | 0 <= i < j < |s| :: le(s[i], s[j])
  }

  /** Putting in front of a sorted list an element that precedes all of it keeps it sorted. */
  lemma SortedCons<T>(x: T, s: seq<T>, le: (T, T) -> bool)
    requires SortedBy(s, le)
    requires forall y | y in multiset(s) :: le(x, y)
    ensures SortedBy([x] + s, le)
  {
    forall i, j | 0 <= i < j < |[x] + s| ensures le(([x] + s)[i], ([x] + s)[j]) {
      assert ([x] + s)[j] == s[j - 1];
      if i == 0 {
        assert s[j - 1] in multiset(s);
      } else {
        assert ([x] + s)[i] == s[i - 1];
      }
    }
  }

  /** The head of a sorted list precedes every element of it, under a total preorder. */
  lemma HeadPrecedesAll<T(!new)>(s: seq<T>, le: (T, T) -> bool)
    requires TotalPreorder(le) && SortedBy(s, le) && s != []
    ensures forall y | y in multiset(s) :: le(s[0], y)
  {
    forall y | y in multiset(s) ensures le(s[0], y) {
      var j :| 0 <= j < |s| && s[j] == y;
      if j == 0 {
        assert le(y, y) || le(y, y);
      }
    }
  }

  /** Insert `x` into a sorted list before the first element it may precede. */
  function InsertSorted<T(!new)>(x: T, s: seq<T>, le: (T, T) -> bool): (r: seq<T>)
    requires TotalPreorder(le) && SortedBy(s, le)
    ensures multiset(r) == multiset(s) + multiset{x}
    ensures SortedBy(r, le)
  {
    if s == [] then [x]
    else if le(x, s[0]) then
      HeadPrecedesAll(s, le);
      assert forall y | y in multiset(s) :: le(x, y);
      SortedCons(x, s, le);
      [x] + s
    else
      var rest := InsertSorted(x, s[1..], le);
      assert s == [s[0]] + s[1..];
      HeadPrecedesAll(s, le);
      assert forall y | y in multiset(rest) :: le(s[0], y);
      SortedCons(s[0], rest, le);
      [s[0]] + rest
  }

  /** In a sorted list, everything before position `m` precedes everything from `m` on. */
  lemma PrefixPrecedesRest<T>(r: seq<T>, le: (T, T) -> bool, m: nat)
    requires SortedBy(r, le) && m <= |r|
    ensures SortedBy(r[..m], le)
    ensures forall x, y | x in r[..m] && y in r[m..] :: le(x, y)
  {
    forall x, y | x in r[..m] && y in r[m..] ensures le(x, y) {
      var i :| 0 <= i < m && r[..m][i] == x;
      var j :| 0 <= j < |r| - m && r[m..][j] == y;
      assert r[i] == x && r[m + j] == y;
    }
  }

  /** Cutting a list in two splits its multiset. */
  lemma MultisetSplit<T>(r: seq<T>, m: nat)
    requires m <= |r|
    ensures multiset(r) == multiset(r[..m]) + multiset(r[m..])
  {
    assert r == r[..m] + r[m..];
  }

  /** No element occurs twice. */
  predicate NoRepeats<T(==)>(s: seq<T>)
  {
    forall i, j | 0 <= i < j < |s| :: s[i] != s[j]
  }

  /** A list without repeats holds each element at most once. */
  lemma {:induction false} NoRepeatsCount<T>(s: seq<T>, x: T)
    requires NoRepeats(s)
    ensures multiset(s)[x] <= 1
  {
    if s != [] {
      assert s == [s[0]] + s[1..];
      assert NoRepeats(s[1..]) by {
        forall i, j | 0 <= i < j < |s[1..]| ensures s[1..][i] != s[1..][j] {
          assert s[1..][i] == s[i + 1] && s[1..][j] == s[j + 1];
        }
      }
      NoRepeatsCount(s[1..], x);
      if s[0] == x {
        assert x !in s[1..];
      }
    }
  }

  /** An element at two positions is counted at least twice. */
  lemma RepeatCounted<T>(r: seq<T>, i: nat, j: nat)
    requires i < j < |r|
    ensures r[i] == r[j] ==> multiset(r)[r[i]] >= 2
  {
    if r[i] == r[j] {
      var x := r[i];
      assert r == r[..j] + r[j..];
      assert r[..j][i] == x;
      assert r[j..][0] == x;
      assert multiset(r)[x] == multiset(r[..j])[x] + multiset(r[j..])[x];
    }
  }

  /** Part of a list without repeats has none either. */
  lemma SubMultisetNoRepeats<T>(r: seq<T>, s: seq<T>)
    requires NoRepeats(s) && multiset(r) <= multiset(s)
    ensures NoRepeats(r)
  {
    forall i, j | 0 <= i < j < |r| ensures r[i] != r[j] {
      RepeatCounted(r, i, j);
      NoRepeatsCount(s, r[i]);
    }
  }

  /** Ordering then truncating keeps the best: the first `n` of the ordered
      list are ordered, are drawn from `s`, and every element left out ranks
      no higher than any element kept. */
  lemma TopOfSorted<T(!new)>(s: seq<T>, le: (T, T) -> bool, n: nat)
    requires TotalPreorder(le)
    ensures |Take(SortBy(s, le), n)| == Min(n, |s|)
    ensures SortedBy(Take(SortBy(s, le), n), le)
    ensures multiset(Take(SortBy(s, le), n)) <= multiset(s)
    ensures forall x, y | x in Take(SortBy(s, le), n) && y in multiset(s) - multiset(Take(SortBy(s, le), n)) :: le(x, y)
  {
    var r := SortBy(s, le);
    var top := Take(r, n);
    var m := |top|;
    assert top == r[..m];
    MultisetSplit(r, m);
    PrefixPrecedesRest(r, le, m);
    forall x, y | x in top && y in multiset(s) - multiset(top) ensures le(x, y) {
      assert y in multiset(r[m..]);
    }
  }

  /** The list `s` ordered by the comparator `le` (the backend's ORDER BY, Stream.sorted). */
  function SortBy<T(!new)>(s: seq<T>, le: (T, T) -> bool): (r: seq<T>)
    requires TotalPreorder(le)
    ensures multiset(r) == multiset(s)
    ensures SortedBy(r, le)
    ensures |r| == |s|
  {
    if s == [] then []
    else
      assert s == [s[0]] + s[1..];
      var r := InsertSorted(s[0], SortBy(s[1..], le), le);
      assert |r| == |multiset(r)|;
      r
  }
}
