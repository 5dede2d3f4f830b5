/** Stable insertion sort: the in-place loop the engine and the scheduler share, and what it means. */
module Sorting {
  import opened Base

  /** `less` is a strict weak order. */
  ghost predicate Order<T(!new)>(less: (T, T) -> bool) {
    && (forall a, b :: less(a, b) ==> !less(b, a))
    && (forall a, b, c :: !less(b, a) && !less(c, b) ==> !less(c, a))
  }

  ghost predicate Ordered<T>(less: (T, T) -> bool, s: seq<T>) {
    forall i, j :: 0 <= i < j < |s| ==> !less(s[j], s[i])
  }

  /** `x` moves left past everything greater than it. */
  function Insert<T>(less: (T, T) -> bool, x: T, s: seq<T>): seq<T> {
    if s == [] || !less(x, s[|s| - 1]) then s + [x]
    else Insert(less, x, s[..|s| - 1]) + [s[|s| - 1]]
  }

  function Sort<T>(less: (T, T) -> bool, s: seq<T>): seq<T> {
    if s == [] then [] else Insert(less, s[|s| - 1], Sort(less, s[..|s| - 1]))
  }

  lemma SortSnoc<T>(less: (T, T) -> bool, s: seq<T>, x: T)
    ensures Sort(less, s + [x]) == Insert(less, x, Sort(less, s))
  {
    assert (s + [x])[..|s|] == s;
  }

  lemma {:induction false} InsertPermutes<T>(less: (T, T) -> bool, x: T, s: seq<T>)
    ensures multiset(Insert(less, x, s)) == multiset(s) + multiset{x}
    ensures |Insert(less, x, s)| == |s| + 1
    decreases |s|
  {
    if !(s == [] || !less(x, s[|s| - 1])) {
      InsertPermutes(less, x, s[..|s| - 1]);
      assert s == s[..|s| - 1] + [s[|s| - 1]];
    }
  }

  lemma {:induction false} SortPermutes<T>(less: (T, T) -> bool, s: seq<T>)
    ensures multiset(Sort(less, s)) == multiset(s) && |Sort(less, s)| == |s|
    decreases |s|
  {
    if s != [] {
      SortPermutes(less, s[..|s| - 1]);
      InsertPermutes(less, s[|s| - 1], Sort(less, s[..|s| - 1]));
      assert s == s[..|s| - 1] + [s[|s| - 1]];
    }
  }

  lemma MultisetMembers<T>(a: seq<T>, b: seq<T>)
    requires multiset(a) == multiset(b)
    ensures forall x :: x in a <==> x in b
  {
    forall x ensures x in a <==> x in b {
      assert x in a <==> x in multiset(a);
      assert x in b <==> x in multiset(b);
    }
  }

  /** Ordered by `first`, and by `second` among elements `first` does not separate. */
  ghost predicate Lexicographic<T>(first: (T, T) -> bool, second: (T, T) -> bool, s: seq<T>) {
    forall i, j :: 0 <= i < j < |s| ==> !first(s[j], s[i]) && (!first(s[i], s[j]) ==> !second(s[j], s[i]))
  }

  lemma {:induction false} InsertLexicographic<T(!new)>(first: (T, T) -> bool, second: (T, T) -> bool, x: T, s: seq<T>)
    requires Order(first) && Lexicographic(first, second, s)
    requires forall y :: y in s ==> !second(x, y)
    ensures Lexicographic(first, second, Insert(first, x, s))
    decreases |s|
  {
    if s != [] && first(x, s[|s| - 1]) {
      var n := |s| - 1;
      InsertLexicographic(first, second, x, s[..n]);
      AppendLast(first, second, x, s);
    } else {
      forall i | 0 <= i < |s| ensures !first(x, s[i]) && !second(x, s[i]) {
        assert s[i] in s && (i < |s| - 1 ==> !first(s[|s| - 1], s[i]));
      }
    }
  }

  lemma AppendLast<T(!new)>(first: (T, T) -> bool, second: (T, T) -> bool, x: T, s: seq<T>)
    requires s != [] && Order(first) && Lexicographic(first, second, s) && first(x, s[|s| - 1])
    requires Lexicographic(first, second, Insert(first, x, s[..|s| - 1]))
    ensures Lexicographic(first, second, Insert(first, x, s[..|s| - 1]) + [s[|s| - 1]])
  {
    var n := |s| - 1;
    var rest := Insert(first, x, s[..n]);
    InsertPermutes(first, x, s[..n]);
    forall i | 0 <= i < |rest| ensures !first(s[n], rest[i]) && (!first(rest[i], s[n]) ==> !second(s[n], rest[i])) {
      assert rest[i] in multiset(rest);
      if rest[i] != x {
        assert rest[i] in multiset(s[..n]);
        var k :| 0 <= k < n && s[..n][k] == rest[i];
        assert s[k] == rest[i];
      }
    }
  }

  /** Sorting stably by `first` what is ordered by `second` gives the lexicographic order of the two. */
  lemma {:induction false} SortLexicographic<T(!new)>(first: (T, T) -> bool, second: (T, T) -> bool, s: seq<T>)
    requires Order(first) && Ordered(second, s)
    ensures Lexicographic(first, second, Sort(first, s))
    decreases |s|
  {
    if s != [] {
      var n := |s| - 1;
      SortLexicographic(first, second, s[..n]);
      SortPermutes(first, s[..n]);
      MultisetMembers(Sort(first, s[..n]), s[..n]);
      InsertLexicographic(first, second, s[n], Sort(first, s[..n]));
    }
  }

  lemma SortOrders<T(!new)>(less: (T, T) -> bool, s: seq<T>)
    requires Order(less)
    ensures Ordered(less, Sort(less, s))
  {
    SortLexicographic(less, (a, b) => false, s);
  }

  lemma InsertAtEnd<T>(less: (T, T) -> bool, x: T, s: seq<T>)
    requires s != [] ==> !less(x, s[|s| - 1])
    ensures Insert(less, x, s) == s + [x]
  {
  }

  lemma {:induction false} SortOfOrdered<T(!new)>(less: (T, T) -> bool, s: seq<T>)
    requires Ordered(less, s)
    ensures Sort(less, s) == s
    decreases |s|
  {
    if s != [] {
      var low, x := OrderedUpToLast(less, s);
      SortOfOrdered(less, low);
      SortOneGreater(less, low, x);
    }
  }

  lemma OrderedUpToLast<T(!new)>(less: (T, T) -> bool, s: seq<T>) returns (low: seq<T>, x: T)
    requires s != [] && Ordered(less, s)
    ensures s == low + [x] && |low| < |s| && Ordered(less, low) && (low != [] ==> !less(x, low[|low| - 1]))
  {
    low, x := s[..|s| - 1], s[|s| - 1];
  }

  lemma SortOneGreater<T>(less: (T, T) -> bool, low: seq<T>, x: T)
    requires Sort(less, low) == low && (low != [] ==> !less(x, low[|low| - 1]))
    ensures Sort(less, low + [x]) == low + [x]
  {
    InsertAtEnd(less, x, low);
    SortSnoc(less, low, x);
  }

  /** The order tells any two elements of `s` apart. */
  ghost predicate Separates<T(!new)>(less: (T, T) -> bool, s: seq<T>) {
    forall x, y :: x in s && y in s && !less(x, y) && !less(y, x) ==> x == y
  }

  lemma SameHead<T(!new)>(less: (T, T) -> bool, a: seq<T>, b: seq<T>)
    requires a != [] && b != [] && Ordered(less, a) && Ordered(less, b) && multiset(a) == multiset(b)
    requires Separates(less, a)
    ensures a[0] == b[0]
  {
    MultisetMembers(a, b);
    assert a[0] in b && b[0] in a;
    var i :| 0 <= i < |b| && b[i] == a[0];
    var j :| 0 <= j < |a| && a[j] == b[0];
  }

  lemma Tail<T(!new)>(less: (T, T) -> bool, s: seq<T>)
    requires s != []
    ensures Ordered(less, s) ==> Ordered(less, s[1..])
    ensures Separates(less, s) ==> Separates(less, s[1..])
    ensures multiset(s[1..]) == multiset(s) - multiset{s[0]}
  {
    assert s == [s[0]] + s[1..];
  }

  /** Two ordered permutations of elements that the order separates are the same sequence; so any
      correct sort, stable or not, gives `Sort`. */
  lemma {:induction false} OrderedIsUnique<T(!new)>(less: (T, T) -> bool, a: seq<T>, b: seq<T>)
    requires Ordered(less, a) && Ordered(less, b) && multiset(a) == multiset(b) && Separates(less, a)
    ensures a == b
    decreases |a|
  {
    assert |a| == |multiset(a)| == |multiset(b)| == |b|;
    if a != [] {
      SameHead(less, a, b);
      Tail(less, a);
      Tail(less, b);
      OrderedIsUnique(less, a[1..], b[1..]);
      HeadAndTail(a, b);
    }
  }

  lemma HeadAndTail<T>(a: seq<T>, b: seq<T>)
    requires a != [] && b != [] && a[0] == b[0] && a[1..] == b[1..]
    ensures a == b
  {
    assert a == [a[0]] + a[1..] && b == [b[0]] + b[1..];
  }

  // --- Stability ---

  function Filter<T>(p: T -> bool, s: seq<T>): seq<T> {
    if s == [] then []
    else Filter(p, s[..|s| - 1]) + (if p(s[|s| - 1]) then [s[|s| - 1]] else [])
  }

  lemma FilterSnoc<T>(p: T -> bool, s: seq<T>, x: T)
    ensures Filter(p, s + [x]) == Filter(p, s) + (if p(x) then [x] else [])
  {
    assert (s + [x])[..|s|] == s;
  }

  lemma {:induction false} FilterKeeps<T>(p: T -> bool, s: seq<T>)
    ensures |Filter(p, s)| <= |s| && forall x :: x in Filter(p, s) ==> p(x) && x in s
    decreases |s|
  {
    if s != [] {
      FilterKeeps(p, s[..|s| - 1]);
    }
  }

  lemma {:induction false} FilterFinds<T>(p: T -> bool, s: seq<T>)
    ensures forall x :: x in s && p(x) ==> x in Filter(p, s)
    decreases |s|
  {
    if s != [] {
      FilterFinds(p, s[..|s| - 1]);
      assert s == s[..|s| - 1] + [s[|s| - 1]];
    }
  }

  /** `p` picks elements that the order does not separate. */
  ghost predicate OneClass<T(!new)>(less: (T, T) -> bool, p: T -> bool) {
    forall x, y :: p(x) && p(y) ==> !less(x, y)
  }

  lemma {:induction false} InsertIsStable<T(!new)>(less: (T, T) -> bool, p: T -> bool, x: T, s: seq<T>)
    requires OneClass(less, p)
    ensures Filter(p, Insert(less, x, s)) == Filter(p, s) + (if p(x) then [x] else [])
    decreases |s|
  {
    if s == [] || !less(x, s[|s| - 1]) {
      FilterSnoc(p, s, x);
    } else {
      var low, y := s[..|s| - 1], s[|s| - 1];
      InsertIsStable(less, p, x, low);
      FilterSnoc(p, Insert(less, x, low), y);
    }
  }

  /** Elements the order does not separate keep their order. */
  lemma {:induction false} SortIsStable<T(!new)>(less: (T, T) -> bool, p: T -> bool, s: seq<T>)
    requires OneClass(less, p)
    ensures Filter(p, Sort(less, s)) == Filter(p, s)
    decreases |s|
  {
    if s != [] {
      SortIsStable(less, p, s[..|s| - 1]);
      InsertIsStable(less, p, s[|s| - 1], Sort(less, s[..|s| - 1]));
    }
  }

  lemma {:induction false} FilterConcat<T>(p: T -> bool, a: seq<T>, b: seq<T>)
    ensures Filter(p, a + b) == Filter(p, a) + Filter(p, b)
    decreases |b|
  {
    if b == [] {
      assert a + b == a;
    } else {
      var c, x := b[..|b| - 1], b[|b| - 1];
      assert (a + b)[..|a + b| - 1] == a + c;
      FilterConcat(p, a, c);
    }
  }

  method SwapLeft<T>(a: array<T>, j: nat, ghost low: seq<T>, ghost y: T, ghost x: T, ghost rest: seq<T>)
    requires 0 < j < a.Length && |low| == j - 1 && a[..] == low + [y, x] + rest
    modifies a
    ensures a[..] == low + [x, y] + rest
  {
    assert a[..][j - 1] == y && a[..][j] == x;
    assert forall k :: 0 <= k < |rest| ==> a[..][j + 1 + k] == rest[k];
    a[j], a[j - 1] := a[j - 1], a[j];
  }

  /** One round of the insertion loop: the element at `i` is swapped left into the ordered part. */
  method SiftLeft<T>(a: array<T>, i: nat, less: (T, T) -> bool)
    requires i < a.Length
    modifies a
    ensures a[..] == Insert(less, old(a[i]), old(a[..i])) + old(a[i + 1..])
  {
    ghost var x, low, rest := a[i], a[..i], a[i + 1..];
    ghost var target := Insert(less, x, low) + rest;
    var j := i;
    while j > 0 && less(a[j], a[j - 1])
      invariant 0 <= j <= i && |low| == j
      invariant a[..] == low + [x] + rest
      invariant Insert(less, x, low) + rest == target
    {
      assert a[..][j] == x && a[..][j - 1] == low[j - 1];
      InsertStep(less, x, low, rest);
      ghost var y := low[j - 1];
      low := low[..j - 1];
      assert low + [y] + [x] + rest == low + [y, x] + rest;
      SwapLeft(a, j, low, y, x, rest);
      Regroup(low, x, y, rest);
      rest := [y] + rest;
      j := j - 1;
    }
    assert a[..][j] == x && (j > 0 ==> a[..][j - 1] == low[j - 1]);
  }

  lemma Regroup<T>(low: seq<T>, x: T, y: T, rest: seq<T>)
    ensures low + [x, y] + rest == low + [x] + ([y] + rest)
  {
  }

  lemma {:induction false} InsertStep<T>(less: (T, T) -> bool, x: T, s: seq<T>, high: seq<T>)
    requires s != [] && less(x, s[|s| - 1])
    ensures Insert(less, x, s) + high == Insert(less, x, s[..|s| - 1]) + ([s[|s| - 1]] + high)
  {
    var y, low := s[|s| - 1], s[..|s| - 1];
    assert Insert(less, x, s) == Insert(less, x, low) + [y];
    assert Insert(less, x, low) + [y] + high == Insert(less, x, low) + ([y] + high);
  }

  /** The insertion loop on a slice, swapping neighbours in place. */
  method InsertionSort<T>(a: array<T>, less: (T, T) -> bool)
    modifies a
    ensures a[..] == Sort(less, old(a[..]))
  {
    ghost var was := a[..];
    var i := 0;
    while i < a.Length
      invariant i <= a.Length
      invariant SortedUpTo(less, was, i, a[..])
    {
      ghost var before := a[..];
      assert before[..i] == a[..i] && before[i] == a[i] && before[i + 1..] == a[i + 1..];
      SiftLeft(a, i, less);
      SortedOneMore(less, was, i, before, a[..]);
      i := i + 1;
    }
    assert was[..a.Length] == was;
  }

  /** The first `i` elements are sorted, the others where they were. */
  ghost predicate SortedUpTo<T>(less: (T, T) -> bool, was: seq<T>, i: nat, s: seq<T>) {
    i <= |was| && s == Sort(less, was[..i]) + was[i..]
  }

  lemma SortedOneMore<T>(less: (T, T) -> bool, was: seq<T>, i: nat, s: seq<T>, s': seq<T>)
    requires i < |was| == |s| && SortedUpTo(less, was, i, s)
    requires s' == Insert(less, s[i], s[..i]) + s[i + 1..]
    ensures SortedUpTo(less, was, i + 1, s')
  {
    SortPermutes(less, was[..i]);
    SplitAt(s, Sort(less, was[..i]), was[i..]);
    SortSnoc(less, was[..i], was[i]);
    assert was[..i + 1] == was[..i] + [was[i]];
  }

  lemma SplitAt<T>(s: seq<T>, done: seq<T>, rest: seq<T>)
    requires s == done + rest && rest != []
    ensures s[..|done|] == done && s[|done|] == rest[0] && s[|done| + 1..] == rest[1..]
  {
  }

  lemma FilterCountsOneMore<T>(p: T -> bool, low: seq<T>, y: T, x: T)
    requires multiset(Filter(p, low))[x] == if p(x) then multiset(low)[x] else 0
    ensures multiset(Filter(p, low + [y]))[x] == if p(x) then multiset(low + [y])[x] else 0
  {
    FilterSnoc(p, low, y);
    assert multiset(low + [y]) == multiset(low) + multiset{y};
    assert multiset(Filter(p, low) + [y]) == multiset(Filter(p, low)) + multiset{y};
  }

  lemma {:induction false} FilterCounts<T>(p: T -> bool, s: seq<T>, x: T)
    ensures multiset(Filter(p, s))[x] == if p(x) then multiset(s)[x] else 0
    decreases |s|
  {
    if s != [] {
      var low, y := Unsnoc(s);
      FilterCounts(p, low, x);
      FilterCountsOneMore(p, low, y, x);
    }
  }

  // --- The order of strings ---

  /** The first place where the strings differ decides; a proper prefix comes first. */
  lemma {:induction false} StrLessIsLexicographic(a: string, b: string)
    ensures StrLess(a, b) <==> a < b || exists k :: 0 <= k < |a| && k < |b| && a[..k] == b[..k] && a[k] < b[k]
    decreases |a|
  {
    if a != "" && b != "" {
      if a[0] == b[0] {
        StrLessIsLexicographic(a[1..], b[1..]);
        ShiftDifference(a, b);
      } else if a[0] < b[0] {
        assert a[..0] == b[..0];
      } else {
        forall k | 0 < k <= |a| && k <= |b| ensures a[..k] != b[..k] {
          assert a[..k][0] != b[..k][0];
        }
      }
    }
  }

  lemma ShiftDifference(a: string, b: string)
    requires a != "" && b != "" && a[0] == b[0]
    ensures a < b <==> a[1..] < b[1..]
    ensures (exists k :: 0 <= k < |a| && k < |b| && a[..k] == b[..k] && a[k] < b[k]) <==>
            (exists k :: 0 <= k < |a[1..]| && k < |b[1..]| && a[1..][..k] == b[1..][..k] && a[1..][k] < b[1..][k])
  {
    var x, y := a[1..], b[1..];
    assert a == [a[0]] + x && b == [b[0]] + y;
    if k :| 0 <= k < |a| && k < |b| && a[..k] == b[..k] && a[k] < b[k] {
      assert k > 0;
      assert x[..k - 1] == a[..k][1..] && y[..k - 1] == b[..k][1..];
      assert x[k - 1] < y[k - 1];
    }
    if k :| 0 <= k < |x| && k < |y| && x[..k] == y[..k] && x[k] < y[k] {
      assert a[..k + 1] == [a[0]] + x[..k] && b[..k + 1] == [b[0]] + y[..k];
      assert a[k + 1] < b[k + 1];
    }
  }

  predicate StrLess(a: string, b: string) {
    b != "" && (a == "" || a[0] < b[0] || (a[0] == b[0] && StrLess(a[1..], b[1..])))
  }

  lemma {:induction false} StrLessAsymmetric(a: string, b: string)
    ensures StrLess(a, b) ==> !StrLess(b, a)
    ensures !StrLess(a, b) && !StrLess(b, a) ==> a == b
    decreases |a|
  {
    if a != "" && b != "" && a[0] == b[0] {
      StrLessAsymmetric(a[1..], b[1..]);
      assert a == [a[0]] + a[1..] && b == [b[0]] + b[1..];
    }
  }

  lemma {:induction false} StrLessNegTransitive(a: string, b: string, c: string)
    requires !StrLess(b, a) && !StrLess(c, b)
    ensures !StrLess(c, a)
    decreases |a|
  {
    if a != "" && b != "" && c != "" && a[0] == b[0] == c[0] {
      StrLessNegTransitive(a[1..], b[1..], c[1..]);
    }
  }
}
