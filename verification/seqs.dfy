/** Order-preserving sequence helpers shared by every query of the model:
    a Django `filter()` over a table keeps the table's order, and the model
    reads each table in id order. */
module Seqs {

  /** The elements of `s` that satisfy `p`, in their original order. */
  function Filter<T(!new)>(s: seq<T>, p: T -> bool): (r: seq<T>)
    ensures |r| <= |s|
    ensures forall i :: 0 <= i < |r| ==> p(r[i])
    ensures forall x :: x in r <==> x in s && p(x)
  {
    if |s| == 0 then []
    else (if p(s[0]) then [s[0]] else []) + Filter(s[1..], p)
  }

  lemma {:induction false} FilterAppend<T(!new)>(a: seq<T>, b: seq<T>, p: T -> bool)
    ensures Filter(a + b, p) == Filter(a, p) + Filter(b, p)
  {
    if |a| == 0 {
      assert a + b == b;
    } else {
      assert (a + b)[1..] == a[1..] + b;
      FilterAppend(a[1..], b, p);
    }
  }

  /** A filter that rejects every element is empty. */
  lemma {:induction false} FilterNone<T(!new)>(s: seq<T>, p: T -> bool)
    requires forall i :: 0 <= i < |s| ==> !p(s[i])
    ensures Filter(s, p) == []
  {
    if |s| > 0 {
      FilterNone(s[1..], p);
    }
  }

  /** A filter that keeps every element is the identity. */
  lemma {:induction false} FilterAll<T(!new)>(s: seq<T>, p: T -> bool)
    requires forall i :: 0 <= i < |s| ==> p(s[i])
    ensures Filter(s, p) == s
  {
    if |s| > 0 {
      FilterAll(s[1..], p);
      assert [s[0]] + s[1..] == s;
    }
  }

  /** The position of the first element satisfying `p`, or `|s|` when there
      is none: `filter(...).first()` on a table read in id order. */
  function FirstIndex<T>(s: seq<T>, p: T -> bool): (r: nat)
    ensures r <= |s|
    ensures forall j :: 0 <= j < r ==> !p(s[j])
    ensures r < |s| ==> p(s[r])
  {
    if |s| == 0 then 0 else if p(s[0]) then 0 else 1 + FirstIndex(s[1..], p)
  }

  /** The outcome of Django's `get()` over a filtered table: no row, exactly
      one row (at `index`), or more than one. */
  datatype Match = NoMatch | OneMatch(index: nat) | ManyMatches

  function Find<T>(s: seq<T>, p: T -> bool): (r: Match)
    ensures r.NoMatch? <==> forall k :: 0 <= k < |s| ==> !p(s[k])
    ensures r.OneMatch? ==> r.index < |s| && p(s[r.index])
                            && forall k :: 0 <= k < |s| && k != r.index ==> !p(s[k])
    ensures r.ManyMatches? <==> exists a, b :: 0 <= a < b < |s| && p(s[a]) && p(s[b])
  {
    var i := FirstIndex(s, p);
    if i == |s| then NoMatch
    else
      var j := FirstIndex(s[i + 1..], p);
      if j == |s| - i - 1 then
        assert forall k :: i < k < |s| ==> !p(s[k]) by {
          forall k | i < k < |s| ensures !p(s[k]) {
            assert s[i + 1..][k - i - 1] == s[k];
          }
        }
        OneMatch(i)
      else
        assert p(s[i + 1 + j]) by {
          assert s[i + 1..][j] == s[i + 1 + j];
        }
        ManyMatches
  }

  /** A non-empty sequence has a first element; calling this names it, so
      that an emptiness argument can refute it. */
  /** A non-empty sequence is its head followed by its tail. */
  lemma Uncons<T>(s: seq<T>)
    requires |s| > 0
    ensures s == [s[0]] + s[1..]
  {
  }

  lemma EmptyPrefix<T>(s: seq<T>)
    ensures [] + s == s
  {
  }

  lemma EmptySuffix<T>(s: seq<T>)
    ensures s + [] == s
  {
  }

  lemma FirstIsMember<T>(s: seq<T>)
    ensures |s| > 0 ==> s[0] in s
  {
  }

  predicate NoDuplicates<T(==)>(s: seq<T>) {
    forall i, j :: 0 <= i < j < |s| ==> s[i] != s[j]
  }

  /** `s` read back to front: the model's reading of `order_by('-created_at')`
      on a table whose rows are stamped in insertion order. */
  function Reverse<T>(s: seq<T>): (r: seq<T>)
    ensures |r| == |s|
    ensures forall i :: 0 <= i < |s| ==> r[i] == s[|s| - 1 - i]
  {
    if |s| == 0 then [] else Reverse(s[1..]) + [s[0]]
  }

  /** Python's slice `s[:n]`. */
  function Take<T>(s: seq<T>, n: nat): (r: seq<T>)
    ensures |r| == if n < |s| then n else |s|
    ensures r == s[..|r|]
  {
    if n < |s| then s[..n] else s
  }

  /** The sum of `f` over `s`. */
  function Sum<T>(s: seq<T>, f: T -> real): real {
    if |s| == 0 then 0.0 else f(s[0]) + Sum(s[1..], f)
  }

  lemma {:induction false} SumAppend<T>(a: seq<T>, b: seq<T>, f: T -> real)
    ensures Sum(a + b, f) == Sum(a, f) + Sum(b, f)
  {
    if |a| == 0 {
      assert a + b == b;
    } else {
      assert (a + b)[1..] == a[1..] + b;
      SumAppend(a[1..], b, f);
    }
  }

  /** Replacing one element changes the sum by exactly the difference. */
  lemma {:induction false} SumUpdate<T>(s: seq<T>, i: nat, v: T, f: T -> real)
    requires i < |s|
    ensures Sum(s[i := v], f) == Sum(s, f) - f(s[i]) + f(v)
  {
    if i == 0 {
      assert s[i := v][1..] == s[1..];
    } else {
      assert s[i := v][1..] == s[1..][i - 1 := v];
      SumUpdate(s[1..], i - 1, v, f);
    }
  }
}
