/** Orders and sorting. Python compares strings by code point and tuples and
    lists element by element, and its `sorted` is a stable sort; this module
    gives the lexicographic order, an insertion sort over any total preorder,
    and the `sorted(set(...))` idiom used for extensions, languages and
    frameworks. */
module Ordering {

  // ---------------------------------------------------------------------------
  // Order relations
  // ---------------------------------------------------------------------------

  ghost predicate StrictTotalOrder<T(!new)>(less: (T, T) -> bool) {
    && (forall a :: !less(a, a))
    && (forall a, b, c :: less(a, b) && less(b, c) ==> less(a, c))
    && (forall a, b :: a != b ==> less(a, b) || less(b, a))
  }

  ghost predicate TotalPreorder<T(!new)>(leq: (T, T) -> bool) {
    && (forall a, b :: leq(a, b) || leq(b, a))
    && (forall a, b, c :: leq(a, b) && leq(b, c) ==> leq(a, c))
  }

  /** Lexicographic comparison: a proper prefix is smaller, otherwise the first
      differing position decides. */
  predicate LexLess<T(==)>(a: seq<T>, b: seq<T>, less: (T, T) -> bool)
    decreases |a|
  {
    |b| > 0 && (|a| == 0 || less(a[0], b[0]) || (a[0] == b[0] && LexLess(a[1..], b[1..], less)))
  }

  lemma {:induction false} LexIrreflexive<T(!new)>(a: seq<T>, less: (T, T) -> bool)
    requires StrictTotalOrder(less)
    ensures !LexLess(a, a, less)
    decreases |a|
  {
    if |a| > 0 {
      LexIrreflexive(a[1..], less);
    }
  }

  lemma {:induction false} LexTransitive<T(!new)>(a: seq<T>, b: seq<T>, c: seq<T>, less: (T, T) -> bool)
    requires StrictTotalOrder(less)
    ensures LexLess(a, b, less) && LexLess(b, c, less) ==> LexLess(a, c, less)
    decreases |a|
  {
    if |a| > 0 && |b| > 0 && |c| > 0 {
      LexTransitive(a[1..], b[1..], c[1..], less);
    }
  }

  lemma {:induction false} LexConnected<T(!new)>(a: seq<T>, b: seq<T>, less: (T, T) -> bool)
    requires StrictTotalOrder(less)
    ensures a != b ==> LexLess(a, b, less) || LexLess(b, a, less)
    decreases |a|
  {
    if |a| > 0 && |b| > 0 {
      assert a == [a[0]] + a[1..] && b == [b[0]] + b[1..];
      LexConnected(a[1..], b[1..], less);
    }
  }

  // ---------------------------------------------------------------------------
  // Python's string order
  // ---------------------------------------------------------------------------

  predicate CharLess(a: char, b: char) {
    a < b
  }

  /** `a < b` on Python strings: lexicographic by code point. */
  predicate StrLess(a: string, b: string) {
    LexLess(a, b, CharLess)
  }

  /** `a <= b` on Python strings. */
  predicate StrLeq(a: string, b: string) {
    !StrLess(b, a)
  }

  /** Python's string order is a strict total order. */
  lemma StrLessIsStrictTotal()
    ensures StrictTotalOrder(StrLess)
  {
    assert StrictTotalOrder(CharLess);
    forall a: string
      ensures !StrLess(a, a)
    {
      LexIrreflexive(a, CharLess);
    }
    forall a: string, b: string, c: string | StrLess(a, b) && StrLess(b, c)
      ensures StrLess(a, c)
    {
      LexTransitive(a, b, c, CharLess);
    }
    forall a: string, b: string | a != b
      ensures StrLess(a, b) || StrLess(b, a)
    {
      LexConnected(a, b, CharLess);
    }
  }

  lemma StrLeqIsTotalPreorder()
    ensures TotalPreorder(StrLeq)
  {
    StrLessIsStrictTotal();
  }

  // ---------------------------------------------------------------------------
  // Sorting
  // ---------------------------------------------------------------------------

  predicate SortedBy<T>(s: seq<T>, leq: (T, T) -> bool) {
    forall i, j :: 0 <= i < j < |s| ==> leq(s[i], s[j])
  }

  /** Inserts `x` in front of the first element it does not exceed. */
  function Insert<T(!new)>(x: T, s: seq<T>, leq: (T, T) -> bool): (r: seq<T>)
    requires TotalPreorder(leq)
    requires SortedBy(s, leq)
    ensures multiset(r) == multiset(s) + multiset{x}
    ensures SortedBy(r, leq)
  {
    if |s| == 0 then [x]
    else if leq(x, s[0]) then
      PrependSorted(x, s, leq);
      [x] + s
    else
      var rest := Insert(x, s[1..], leq);
      assert s == [s[0]] + s[1..];
      InsertHeadBound(x, s, rest, leq);
      PrependSorted(s[0], rest, leq);
      [s[0]] + rest
  }

  /** An element below the head of a sorted sequence may go in front of it. */
  lemma PrependSorted<T(!new)>(y: T, s: seq<T>, leq: (T, T) -> bool)
    requires TotalPreorder(leq)
    requires SortedBy(s, leq)
    requires forall k :: 0 <= k < |s| ==> leq(y, s[k])
    ensures SortedBy([y] + s, leq)
  {
    var r := [y] + s;
    forall i, j | 0 <= i < j < |r|
      ensures leq(r[i], r[j])
    {
      assert r[j] == s[j - 1];
      if i > 0 {
        assert r[i] == s[i - 1];
      }
    }
  }

  /** The head of a sorted sequence stays below everything that the insertion of a
      larger element into its tail produces. */
  lemma InsertHeadBound<T(!new)>(x: T, s: seq<T>, rest: seq<T>, leq: (T, T) -> bool)
    requires TotalPreorder(leq)
    requires |s| > 0 && SortedBy(s, leq) && !leq(x, s[0])
    requires multiset(rest) == multiset(s[1..]) + multiset{x}
    ensures forall k :: 0 <= k < |rest| ==> leq(s[0], rest[k])
  {
    forall k | 0 <= k < |rest|
      ensures leq(s[0], rest[k])
    {
      assert rest[k] in multiset(rest);
      if rest[k] != x {
        assert rest[k] in multiset(s[1..]);
        var j :| 0 <= j < |s[1..]| && s[1..][j] == rest[k];
        assert s[j + 1] == rest[k];
      }
    }
  }

  /** Insertion sort: the result is a sorted permutation of the input. */
  function Sort<T(!new)>(s: seq<T>, leq: (T, T) -> bool): (r: seq<T>)
    requires TotalPreorder(leq)
    ensures multiset(r) == multiset(s)
    ensures SortedBy(r, leq)
  {
    if |s| == 0 then []
    else
      assert s == [s[0]] + s[1..];
      Insert(s[0], Sort(s[1..], leq), leq)
  }

  predicate Distinct<T(==)>(s: seq<T>) {
    forall i, j :: 0 <= i < j < |s| ==> s[i] != s[j]
  }

  /** A sequence is its prefix before `k`, its element at `k`, and the rest. */
  lemma SplitAround<T>(s: seq<T>, k: nat)
    requires k < |s|
    ensures s == s[..k] + [s[k]] + s[k + 1..]
  {
  }

  /** Keeps the last occurrence of every element. */
  function Dedup<T(==,!new)>(s: seq<T>): (r: seq<T>)
    ensures forall x :: x in r <==> x in s
    ensures Distinct(r)
    ensures |r| <= |s|
  {
    if |s| == 0 then []
    else
      var rest := Dedup(s[1..]);
      assert forall x :: x in s <==> x == s[0] || x in s[1..];
      if s[0] in s[1..] then rest else [s[0]] + rest
  }

  /** Dropping repeated elements keeps a sorted sequence sorted. */
  lemma {:induction false} DedupKeepsSorted<T(!new)>(s: seq<T>, leq: (T, T) -> bool)
    requires SortedBy(s, leq)
    ensures SortedBy(Dedup(s), leq)
  {
    if |s| > 0 {
      assert SortedBy(s[1..], leq);
      DedupKeepsSorted(s[1..], leq);
      var rest := Dedup(s[1..]);
      assert forall k | 0 <= k < |rest| :: rest[k] in s[1..];
    }
  }

  /** Every non-empty finite set of strings has a least element. */
  lemma {:induction false} MinimumExists(s: set<string>)
    requires s != {}
    ensures exists m :: m in s && forall y :: y in s ==> StrLeq(m, y)
    decreases |s|
  {
    StrLessIsStrictTotal();
    var a :| a in s;
    if s != {a} {
      MinimumExists(s - {a});
      var m :| m in s - {a} && forall y :: y in s - {a} ==> StrLeq(m, y);
      if StrLess(a, m) {
        BelowLeast(s, a, m);
      } else {
        assert forall y :: y in s ==> StrLeq(m, y);
      }
    }
  }

  /** An element below the least of the others is the least of all. */
  lemma BelowLeast(s: set<string>, a: string, m: string)
    requires a in s && StrLess(a, m)
    requires forall y :: y in s - {a} ==> StrLeq(m, y)
    ensures forall y :: y in s ==> StrLeq(a, y)
  {
    StrLessIsStrictTotal();
    forall y | y in s
      ensures StrLeq(a, y)
    {
      if y == a {
        LexIrreflexive(a, CharLess);
      } else {
        assert y in s - {a};
        LexTransitive(y, a, m, CharLess);
      }
    }
  }

  /** `sorted(s)` for a set of strings: its elements, each once, in strictly
      increasing order. */
  function SortedSet(s: set<string>): (r: seq<string>)
    ensures forall x :: x in r <==> x in s
    ensures StrictlySorted(r)
    ensures |r| == |s|
    decreases |s|
  {
    if s == {} then []
    else
      MinimumExists(s);
      var m :| m in s && forall y :: y in s ==> StrLeq(m, y);
      var rest := SortedSet(s - {m});
      LeastInFront(s, m, rest);
      [m] + rest
  }

  predicate StrictlySorted(r: seq<string>) {
    forall i, j :: 0 <= i < j < |r| ==> StrLess(r[i], r[j])
  }

  /** Putting the least element of a set in front of the sorted rest sorts the set. */
  lemma LeastInFront(s: set<string>, m: string, rest: seq<string>)
    requires m in s && forall y :: y in s ==> StrLeq(m, y)
    requires forall x :: x in rest <==> x in s - {m}
    requires StrictlySorted(rest) && |rest| == |s - {m}|
    ensures forall x :: x in [m] + rest <==> x in s
    ensures StrictlySorted([m] + rest)
    ensures |[m] + rest| == |s|
  {
    StrLessIsStrictTotal();
    var r := [m] + rest;
    forall i, j | 0 <= i < j < |r|
      ensures StrLess(r[i], r[j])
    {
      if i == 0 {
        assert r[j] == rest[j - 1] && r[j] in rest;
        assert r[j] != m && StrLeq(m, r[j]);
      } else {
        assert r[i] == rest[i - 1] && r[j] == rest[j - 1];
      }
    }
  }

  // ---------------------------------------------------------------------------
  // Subsequences
  // ---------------------------------------------------------------------------

  /** `a` is obtained from `b` by deleting elements, keeping the order of the rest. */
  predicate IsSubsequence<T(==)>(a: seq<T>, b: seq<T>)
    decreases |b|
  {
    if |a| == 0 then true
    else if |b| == 0 then false
    else if a[0] == b[0] then IsSubsequence(a[1..], b[1..])
    else IsSubsequence(a, b[1..])
  }

  /** A subsequence of the tail is a subsequence of the whole. */
  lemma {:induction false} SubsequenceOfTail<T>(a: seq<T>, b: seq<T>)
    requires |b| > 0 && IsSubsequence(a, b[1..])
    ensures IsSubsequence(a, b)
    decreases |b|, 0
  {
    if |a| > 0 && a[0] == b[0] {
      SubsequenceDropHead(a, b[1..]);
    }
  }

  /** Dropping the first element of a subsequence leaves a subsequence. */
  lemma {:induction false} SubsequenceDropHead<T>(a: seq<T>, c: seq<T>)
    requires |a| > 0 && IsSubsequence(a, c)
    ensures IsSubsequence(a[1..], c)
    decreases |c|, 1
  {
    if a[0] == c[0] {
      SubsequenceOfTail(a[1..], c);
    } else {
      SubsequenceDropHead(a, c[1..]);
      SubsequenceOfTail(a[1..], c);
    }
  }

  /** Optionally putting the head of `b` in front of a subsequence of its tail
      gives a subsequence of `b`. */
  lemma SubsequencePrepend<T>(keep: bool, a: seq<T>, b: seq<T>)
    requires |b| > 0 && IsSubsequence(a, b[1..])
    ensures IsSubsequence((if keep then [b[0]] else []) + a, b)
  {
    if keep {
      assert ([b[0]] + a)[1..] == a;
    } else {
      assert [] + a == a;
      SubsequenceOfTail(a, b);
    }
  }

  lemma {:induction false} SubsequenceTransitive<T>(a: seq<T>, b: seq<T>, c: seq<T>)
    requires IsSubsequence(a, b) && IsSubsequence(b, c)
    ensures IsSubsequence(a, c)
    decreases |c|
  {
    if |a| > 0 {
      if b[0] == c[0] {
        if a[0] == b[0] {
          SubsequenceTransitive(a[1..], b[1..], c[1..]);
        } else {
          SubsequenceTransitive(a, b[1..], c[1..]);
          SubsequenceOfTail(a, c);
        }
      } else {
        SubsequenceTransitive(a, b, c[1..]);
        SubsequenceOfTail(a, c);
      }
    }
  }

  /** Subsequences of two parts together form a subsequence of the two
      parts together. */
  lemma {:induction false} SubsequenceConcat<T>(a1: seq<T>, b1: seq<T>, a2: seq<T>, b2: seq<T>)
    requires IsSubsequence(a1, b1) && IsSubsequence(a2, b2)
    ensures IsSubsequence(a1 + a2, b1 + b2)
    decreases |b1|
  {
    if |b1| == 0 {
      assert a1 + a2 == a2 && b1 + b2 == b2;
    } else {
      assert (b1 + b2)[1..] == b1[1..] + b2;
      if |a1| > 0 && a1[0] == b1[0] {
        SubsequenceConcat(a1[1..], b1[1..], a2, b2);
        assert (a1 + a2)[1..] == a1[1..] + a2;
      } else {
        SubsequenceConcat(a1, b1[1..], a2, b2);
        SubsequenceOfTail(a1 + a2, b1 + b2);
      }
    }
  }

  lemma {:induction false} SubsequenceReflexive<T>(s: seq<T>)
    ensures IsSubsequence(s, s)
  {
    if |s| > 0 {
      SubsequenceReflexive(s[1..]);
    }
  }

  /** A common prefix keeps a subsequence a subsequence. */
  lemma {:induction false} SubsequenceAfterPrefix<T>(p: seq<T>, a: seq<T>, b: seq<T>)
    requires IsSubsequence(a, b)
    ensures IsSubsequence(p + a, p + b)
  {
    if |p| > 0 {
      SubsequenceAfterPrefix(p[1..], a, b);
      assert (p + a)[1..] == p[1..] + a;
      assert (p + b)[1..] == p[1..] + b;
    } else {
      assert p + a == a && p + b == b;
    }
  }

  /** Every element of a subsequence occurs in the sequence it was taken from. */
  lemma {:induction false} SubsequenceElements<T>(a: seq<T>, b: seq<T>)
    requires IsSubsequence(a, b)
    ensures forall x :: x in a ==> x in b
    decreases |b|
  {
    if |a| > 0 {
      if a[0] == b[0] {
        SubsequenceElements(a[1..], b[1..]);
        assert forall x :: x in a ==> x == a[0] || x in a[1..];
      } else {
        SubsequenceElements(a, b[1..]);
      }
    }
  }

  /** A subsequence of a sequence without repetitions has none either. */
  lemma {:induction false} SubsequenceDistinct<T>(a: seq<T>, b: seq<T>)
    requires IsSubsequence(a, b) && Distinct(b)
    ensures Distinct(a)
    decreases |b|
  {
    if |a| > 0 {
      assert Distinct(b[1..]) by {
        forall i, j | 0 <= i < j < |b[1..]|
          ensures b[1..][i] != b[1..][j]
        {
          assert b[1..][i] == b[i + 1] && b[1..][j] == b[j + 1];
        }
      }
      if a[0] == b[0] {
        SubsequenceDistinct(a[1..], b[1..]);
        SubsequenceElements(a[1..], b[1..]);
        assert b[0] !in b[1..];
        forall i, j | 0 <= i < j < |a|
          ensures a[i] != a[j]
        {
          assert a[j] == a[1..][j - 1];
          if i > 0 {
            assert a[i] == a[1..][i - 1];
          }
        }
      } else {
        SubsequenceDistinct(a, b[1..]);
      }
    }
  }

  // ---------------------------------------------------------------------------
  // Picking items by condition
  // ---------------------------------------------------------------------------

  /** The items whose condition holds, in their original order: the shape of a
      run of `if condition: items.append(item)` statements. */
  function Pick<T(!new)>(keep: seq<bool>, items: seq<T>): (r: seq<T>)
    requires |keep| == |items|
    ensures IsSubsequence(r, items)
    ensures forall x :: x in r <==> exists i :: 0 <= i < |items| && keep[i] && items[i] == x
    decreases |items|, 1
  {
    if |items| == 0 then []
    else
      var rest := Pick(keep[1..], items[1..]);
      var r := (if keep[0] then [items[0]] else []) + rest;
      SubsequencePrepend(keep[0], rest, items);
      PickStep(keep, items, rest, r);
      r
  }

  lemma PickStep<T(!new)>(keep: seq<bool>, items: seq<T>, rest: seq<T>, r: seq<T>)
    requires |keep| == |items| > 0
    requires rest == Pick(keep[1..], items[1..])
    requires r == (if keep[0] then [items[0]] else []) + rest
    ensures forall x :: x in r <==> exists i :: 0 <= i < |items| && keep[i] && items[i] == x
    decreases |items|, 0
  {
    forall x | x in r
      ensures exists i :: 0 <= i < |items| && keep[i] && items[i] == x
    {
      if !(keep[0] && x == items[0]) {
        assert x in rest;
        var i :| 0 <= i < |items| - 1 && keep[1..][i] && items[1..][i] == x;
        assert keep[i + 1] && items[i + 1] == x;
      }
    }
    forall x | exists i :: 0 <= i < |items| && keep[i] && items[i] == x
      ensures x in r
    {
      var i :| 0 <= i < |items| && keep[i] && items[i] == x;
      if i > 0 {
        assert keep[1..][i - 1] && items[1..][i - 1] == x;
      }
    }
  }

  /** Five conditional appends in a row. */
  lemma PickFive<T(!new)>(k: seq<bool>, x: seq<T>)
    requires |k| == |x| == 5
    ensures Pick(k, x) == (if k[0] then [x[0]] else []) + (if k[1] then [x[1]] else [])
      + (if k[2] then [x[2]] else []) + (if k[3] then [x[3]] else []) + (if k[4] then [x[4]] else [])
  {
    var p4 := Pick(k[4..], x[4..]);
    assert k[4..][1..] == k[5..] && x[4..][1..] == x[5..];
    assert p4 == (if k[4] then [x[4]] else []) + Pick(k[5..], x[5..]);
    assert Pick(k[5..], x[5..]) == [];
    assert k[3..][1..] == k[4..] && x[3..][1..] == x[4..];
    var p3 := Pick(k[3..], x[3..]);
    assert p3 == (if k[3] then [x[3]] else []) + p4;
    assert k[2..][1..] == k[3..] && x[2..][1..] == x[3..];
    var p2 := Pick(k[2..], x[2..]);
    assert p2 == (if k[2] then [x[2]] else []) + p3;
    assert k[1..][1..] == k[2..] && x[1..][1..] == x[2..];
    var p1 := Pick(k[1..], x[1..]);
    assert p1 == (if k[1] then [x[1]] else []) + p2;
    assert Pick(k, x) == (if k[0] then [x[0]] else []) + p1;
  }

  /** When the items are distinct, an item is picked exactly when its own
      condition holds. */
  lemma PickMember<T(!new)>(keep: seq<bool>, items: seq<T>, j: nat)
    requires |keep| == |items| && j < |items| && Distinct(items)
    ensures items[j] in Pick(keep, items) <==> keep[j]
  {
  }

  /** Nothing is picked exactly when no condition holds. */
  lemma PickNone<T(!new)>(keep: seq<bool>, items: seq<T>)
    requires |keep| == |items|
    ensures Pick(keep, items) == [] <==> forall i :: 0 <= i < |keep| ==> !keep[i]
  {
    var r := Pick(keep, items);
    if r != [] {
      assert r[0] in r;
    }
  }
}
