/**
 * The two array operations the catalog queries are built from:
 * `Array.prototype.filter` (Filter) and `Array.prototype.find` (Find),
 * both scanning the array from the front.
 */
module Sequences {
  import opened Wrappers

  /** The elements of `s` that satisfy `p`, in their original order. */
  function Filter<T>(s: seq<T>, p: T -> bool): (r: seq<T>)
    ensures |r| <= |s|
    ensures forall i :: 0 <= i < |r| ==> p(r[i])
  {
    if s == [] then []
    else (if p(s[0]) then [s[0]] else []) + Filter(s[1..], p)
  }

  /** An element is kept exactly when it occurs in `s` and satisfies `p`. */
  lemma {:induction false} FilterMembers<T>(s: seq<T>, p: T -> bool)
    ensures forall x :: x in Filter(s, p) <==> x in s && p(x)
  {
    if s != [] {
      FilterMembers(s[1..], p);
      assert s == [s[0]] + s[1..];
    }
  }

  /** How many elements of `s` satisfy `p`. */
  function Count<T>(s: seq<T>, p: T -> bool): (n: nat)
    ensures n <= |s|
  {
    if s == [] then 0
    else (if p(s[0]) then 1 else 0) + Count(s[1..], p)
  }

  /**
   * The positions of `s` whose elements satisfy `p`, in increasing order:
   * an independent description of which elements Filter keeps.
   */
  function Selected<T>(s: seq<T>, p: T -> bool): (idx: seq<nat>)
    ensures forall k :: 0 <= k < |idx| ==> idx[k] < |s| && p(s[idx[k]])
    ensures forall i :: 0 <= i < |s| && p(s[i]) ==> i in idx
    ensures forall k, l :: 0 <= k < l < |idx| ==> idx[k] < idx[l]
  {
    if s == [] then []
    else
      var n := |s| - 1;
      Selected(s[..n], p) + (if p(s[n]) then [n] else [])
  }

  /** The position of the first element of `s` that satisfies `p`, if any. */
  function FindIndex<T>(s: seq<T>, p: T -> bool): (r: Option<nat>)
    ensures r.Some? ==> r.value < |s| && p(s[r.value])
    ensures r.Some? ==> forall j :: 0 <= j < r.value ==> !p(s[j])
    ensures r.None? <==> forall j :: 0 <= j < |s| ==> !p(s[j])
  {
    if s == [] then None
    else if p(s[0]) then Some(0)
    else match FindIndex(s[1..], p)
      case None => None
      case Some(k) => Some(k + 1)
  }

  /** The first element of `s` that satisfies `p`, or None when there is none. */
  function Find<T>(s: seq<T>, p: T -> bool): (r: Option<T>)
    ensures r.Some? ==> exists i :: 0 <= i < |s| && s[i] == r.value && p(s[i]) && forall j :: 0 <= j < i ==> !p(s[j])
    ensures r.None? <==> forall i :: 0 <= i < |s| ==> !p(s[i])
  {
    match FindIndex(s, p)
    case None => None
    case Some(i) => Some(s[i])
  }

  /** Count is the number of elements Filter keeps. */
  lemma {:induction false} CountIsFilterLength<T>(s: seq<T>, p: T -> bool)
    ensures Count(s, p) == |Filter(s, p)|
  {
    if s != [] {
      CountIsFilterLength(s[1..], p);
    }
  }

  /** Filtering distributes over concatenation. */
  lemma {:induction false} FilterConcat<T>(a: seq<T>, b: seq<T>, p: T -> bool)
    ensures Filter(a + b, p) == Filter(a, p) + Filter(b, p)
  {
    if a == [] {
      assert a + b == b;
    } else {
      assert (a + b)[1..] == a[1..] + b;
      FilterConcat(a[1..], b, p);
    }
  }

  /** Filtering by the negation of `p` drops exactly the elements that satisfy `p`. */
  lemma {:induction false} FilterComplementLength<T>(s: seq<T>, p: T -> bool, q: T -> bool)
    requires forall x :: x in s ==> q(x) == !p(x)
    ensures |Filter(s, q)| == |s| - Count(s, p)
  {
    if s != [] {
      assert forall x :: x in s[1..] ==> x in s;
      FilterComplementLength(s[1..], p, q);
    }
  }

  /** Two predicates that agree on every element of `s` select the same elements. */
  lemma {:induction false} FilterCongruence<T>(s: seq<T>, p: T -> bool, q: T -> bool)
    requires forall x :: x in s ==> p(x) == q(x)
    ensures Filter(s, p) == Filter(s, q)
  {
    if s != [] {
      assert forall x :: x in s[1..] ==> x in s;
      FilterCongruence(s[1..], p, q);
    }
  }

  /** Filtering keeps the whole sequence exactly when every element satisfies the predicate. */
  lemma {:induction false} FilterKeepsAll<T>(s: seq<T>, p: T -> bool)
    ensures Filter(s, p) == s <==> forall x :: x in s ==> p(x)
  {
    if s != [] {
      assert forall x :: x in s[1..] ==> x in s;
      FilterKeepsAll(s[1..], p);
      if forall x :: x in s ==> p(x) {
        assert Filter(s, p) == [s[0]] + s[1..];
      }
    }
  }

  /**
   * Filter keeps exactly the elements at the Selected positions, in
   * increasing order of position: it is the order-preserving subsequence of
   * the elements that satisfy `p`.
   */
  lemma {:induction false} FilterIsSelection<T>(s: seq<T>, p: T -> bool)
    ensures |Filter(s, p)| == |Selected(s, p)|
    ensures forall k :: 0 <= k < |Selected(s, p)| ==> Filter(s, p)[k] == s[Selected(s, p)[k]]
  {
    if s != [] {
      var n := |s| - 1;
      var a := s[..n];
      assert s == a + [s[n]];
      FilterConcat(a, [s[n]], p);
      FilterIsSelection(a, p);
      assert [s[n]][1..] == [];
      var tail := if p(s[n]) then [s[n]] else [];
      assert Filter([s[n]], p) == tail;
      assert Filter(s, p) == Filter(a, p) + tail;
      assert Selected(s, p) == Selected(a, p) + (if p(s[n]) then [n] else []);
      forall k | 0 <= k < |Selected(s, p)|
        ensures Filter(s, p)[k] == s[Selected(s, p)[k]]
      {
        if k < |Selected(a, p)| {
          assert Filter(s, p)[k] == Filter(a, p)[k];
          assert Selected(s, p)[k] == Selected(a, p)[k];
        }
      }
    }
  }

  /** Filtering keeps nothing when no element satisfies the predicate. */
  lemma {:induction false} FilterKeepsNone<T>(s: seq<T>, p: T -> bool)
    requires forall i :: 0 <= i < |s| ==> !p(s[i])
    ensures Filter(s, p) == []
  {
    if s != [] {
      FilterKeepsNone(s[1..], p);
    }
  }
}
