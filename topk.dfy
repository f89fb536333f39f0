/**
 * `sorted(xs, reverse=True)[:k]` on lists of weekly scores, and `sum`.
 * The sort is an insertion sort; what is proved about it is that it returns
 * a non-increasing permutation of its input.
 */
module TopK {

  function Sum(s: seq<real>): real
  {
    if s == [] then 0.0 else s[0] + Sum(s[1..])
  }

  /** Non-increasing order. */
  predicate SortedDesc(s: seq<real>)
  {
    forall i, j :: 0 <= i < j < |s| ==> s[i] >= s[j]
  }

  /** Places `x` after every element of `t` that is at least `x`. */
  function Insert(t: seq<real>, x: real): (r: seq<real>)
    ensures |r| == |t| + 1
  {
    if t == [] then [x]
    else if x > t[0] then [x] + t
    else [t[0]] + Insert(t[1..], x)
  }

  /** `sorted(xs, reverse=True)`. */
  function SortDesc(xs: seq<real>): (r: seq<real>)
    ensures |r| == |xs|
  {
    if xs == [] then [] else Insert(SortDesc(xs[..|xs| - 1]), xs[|xs| - 1])
  }

  /** `sorted(xs, reverse=True)[:k]`: slicing past the end keeps everything. */
  function Top(xs: seq<real>, k: nat): seq<real>
  {
    var s := SortDesc(xs);
    s[..if k < |s| then k else |s|]
  }

  lemma {:induction false} InsertMultiset(t: seq<real>, x: real)
    ensures multiset(Insert(t, x)) == multiset(t) + multiset{x}
    decreases |t|
  {
    if t != [] && x <= t[0] {
      InsertMultiset(t[1..], x);
      assert t == [t[0]] + t[1..];
    }
  }

  lemma {:induction false} InsertSorted(t: seq<real>, x: real)
    requires SortedDesc(t)
    ensures SortedDesc(Insert(t, x))
    decreases |t|
  {
    if t != [] && x <= t[0] {
      InsertSorted(t[1..], x);
      InsertMultiset(t[1..], x);
      var r := Insert(t[1..], x);
      forall j | 0 <= j < |r| ensures t[0] >= r[j] {
        assert r[j] in multiset(t[1..]) + multiset{x};
      }
    }
  }

  /** The sort returns a non-increasing rearrangement of its input. */
  lemma {:induction false} SortDescIsSortedPermutation(xs: seq<real>)
    ensures SortedDesc(SortDesc(xs))
    ensures multiset(SortDesc(xs)) == multiset(xs)
    decreases |xs|
  {
    if xs != [] {
      var xs' := xs[..|xs| - 1];
      SortDescIsSortedPermutation(xs');
      InsertSorted(SortDesc(xs'), xs[|xs| - 1]);
      InsertMultiset(SortDesc(xs'), xs[|xs| - 1]);
      assert xs == xs' + [xs[|xs| - 1]];
    }
  }

  /** `x` goes after a prefix of elements at least `x` and before a rest that starts below it. */
  lemma {:induction false} InsertSplit(a: seq<real>, b: seq<real>, x: real)
    requires forall i :: 0 <= i < |a| ==> a[i] >= x
    requires b != [] ==> x > b[0]
    ensures Insert(a + b, x) == a + [x] + b
    decreases |a|
  {
    if a == [] {
      assert a + b == b;
    } else {
      InsertSplit(a[1..], b, x);
      assert (a + b)[1..] == a[1..] + b;
    }
  }

  /** Sorting one more element first sorts the rest, then inserts it. */
  lemma SortStep(xs: seq<real>, x: real)
    ensures SortDesc(xs + [x]) == Insert(SortDesc(xs), x)
  {
    assert (xs + [x])[..|xs|] == xs;
  }

  /** When `xs` sorts to `a + b` with `x` fitting between them, `xs + [x]` sorts to `a + [x] + b`. */
  lemma SortAppendBetween(xs: seq<real>, x: real, a: seq<real>, b: seq<real>)
    requires SortDesc(xs) == a + b
    requires forall i :: 0 <= i < |a| ==> a[i] >= x
    requires b != [] ==> x > b[0]
    ensures SortDesc(xs + [x]) == a + [x] + b
  {
    SortStep(xs, x);
    InsertSplit(a, b, x);
  }

  /** Sorting a list that is already non-increasing leaves it as it is. */
  lemma {:induction false} SortDescOfSorted(t: seq<real>)
    requires SortedDesc(t)
    ensures SortDesc(t) == t
    decreases |t|
  {
    if t != [] {
      var t' := t[..|t| - 1];
      SortDescOfSorted(t');
      InsertSplit(t', [], t[|t| - 1]);
      assert t' + [] == t';
    }
  }

  /** After inserting into a sorted list, the last element is the smaller of the old last and `x`. */
  lemma {:induction false} InsertLast(t: seq<real>, x: real)
    requires SortedDesc(t) && t != []
    ensures Insert(t, x)[|t|] == if x < t[|t| - 1] then x else t[|t| - 1]
    decreases |t|
  {
    if x <= t[0] && |t| > 1 {
      InsertLast(t[1..], x);
    }
  }

  lemma {:induction false} SumInsert(t: seq<real>, x: real)
    ensures Sum(Insert(t, x)) == Sum(t) + x
    decreases |t|
  {
    if t != [] && x <= t[0] {
      SumInsert(t[1..], x);
    }
  }

  lemma {:induction false} SumDropLast(s: seq<real>)
    requires s != []
    ensures Sum(s) == Sum(s[..|s| - 1]) + s[|s| - 1]
    decreases |s|
  {
    if |s| > 1 {
      SumDropLast(s[1..]);
      assert s[1..][..|s| - 2] == s[..|s| - 1][1..];
    }
  }

  /**
   * `Top(xs, k)` holds the `k` largest values (all of them when there are
   * fewer), non-increasing, taken from `xs`; every value left out is at most
   * the smallest one kept.
   */
  lemma TopIsLargest(xs: seq<real>, k: nat)
    ensures |Top(xs, k)| == if k < |xs| then k else |xs|
    ensures SortedDesc(Top(xs, k))
    ensures multiset(Top(xs, k)) <= multiset(xs)
    ensures 0 < k <= |xs| ==>
      forall x :: x in multiset(xs) - multiset(Top(xs, k)) ==> x <= Top(xs, k)[k - 1]
  {
    var s := SortDesc(xs);
    SortDescIsSortedPermutation(xs);
    var n := if k < |s| then k else |s|;
    assert Top(xs, k) == s[..n];
    SplitSorted(s, n);
    assert multiset(xs) - multiset(s[..n]) == multiset(s[n..]);
  }

  /**
   * Cutting a non-increasing list in two: the front stays non-increasing, the
   * two parts hold all the elements, and none behind the cut exceeds the last
   * one in front of it.
   */
  lemma SplitSorted(s: seq<real>, n: nat)
    requires SortedDesc(s) && n <= |s|
    ensures SortedDesc(s[..n])
    ensures multiset(s) == multiset(s[..n]) + multiset(s[n..])
    ensures 0 < n ==> forall x :: x in multiset(s[n..]) ==> x <= s[n - 1]
  {
    assert s == s[..n] + s[n..];
    if 0 < n {
      forall x | x in multiset(s[n..]) ensures x <= s[n - 1] {
        var j :| 0 <= j < |s[n..]| && s[n..][j] == x;
        assert s[n + j] == x;
      }
    }
  }
}
