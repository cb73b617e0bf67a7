/**
 * Order-preserving selection and element-wise mapping over sequences.
 * Every "loop over a list, emit the items that pass a test" in the
 * narrative builder is one of these two.
 */
module Seqs {

  /** The elements of `s` that satisfy `keep`, in their original order. */
  function Filter<T>(s: seq<T>, keep: T -> bool): (r: seq<T>)
    ensures |r| <= |s|
  {
    if |s| == 0 then []
    else Filter(s[..|s| - 1], keep) + (if keep(s[|s| - 1]) then [s[|s| - 1]] else [])
  }

  /** `f` applied to every element of `s`. */
  function Map<T, U>(s: seq<T>, f: T -> U): (r: seq<U>)
    ensures |r| == |s|
  {
    if |s| == 0 then [] else Map(s[..|s| - 1], f) + [f(s[|s| - 1])]
  }

  /** The i-th element of the image is `f` of the i-th element. */
  lemma {:induction false} MapIndex<T, U>(s: seq<T>, f: T -> U)
    ensures forall i :: 0 <= i < |s| ==> Map(s, f)[i] == f(s[i])
  {
    if |s| > 0 {
      MapIndex(s[..|s| - 1], f);
    }
  }

  /** The positions of `s` whose element satisfies `keep`, ascending. */
  function KeptIndices<T>(s: seq<T>, keep: T -> bool): seq<nat>
  {
    if |s| == 0 then []
    else KeptIndices(s[..|s| - 1], keep) + (if keep(s[|s| - 1]) then [|s| - 1] else [])
  }

  predicate StrictlyIncreasing(ix: seq<nat>) {
    forall i, j :: 0 <= i < j < |ix| ==> ix[i] < ix[j]
  }

  /**
   * Filter keeps exactly the positions that pass the test, in ascending
   * order: its i-th element is s[ix[i]] for a strictly increasing `ix` that
   * lists every position whose element satisfies `keep` and no other.
   */
  lemma {:induction false} FilterByIndices<T>(s: seq<T>, keep: T -> bool)
    ensures var r, ix := Filter(s, keep), KeptIndices(s, keep);
      && |r| == |ix|
      && StrictlyIncreasing(ix)
      && (forall i :: 0 <= i < |ix| ==> ix[i] < |s| && r[i] == s[ix[i]])
      && (forall j :: 0 <= j < |s| ==> (keep(s[j]) <==> j in ix))
  {
    if |s| > 0 {
      var n, init, x := |s| - 1, s[..|s| - 1], s[|s| - 1];
      FilterByIndices(init, keep);
      var r0, ix0 := Filter(init, keep), KeptIndices(init, keep);
      var tail, tailIx := if keep(x) then [x] else [], if keep(x) then [n] else [];
      var r, ix := r0 + tail, ix0 + tailIx;
      assert Filter(s, keep) == r && KeptIndices(s, keep) == ix;
      forall i | 0 <= i < |ix0| ensures ix[i] == ix0[i] < n && r[i] == s[ix0[i]] {
        assert r[i] == r0[i] == init[ix0[i]];
      }
      assert StrictlyIncreasing(ix) by {
        forall i, j | 0 <= i < j < |ix| ensures ix[i] < ix[j] {
          if j == |ix0| { assert ix[j] == n; }
        }
      }
      forall j | 0 <= j < |s| ensures keep(s[j]) <==> j in ix {
        if j < n {
          assert s[j] == init[j];
          assert j in ix <==> j in ix0;
        } else {
          assert j in ix <==> keep(x);
        }
      }
    }
  }

  /** An element is selected if and only if it occurs in `s` and passes the test. */
  lemma {:induction false} FilterMembership<T>(s: seq<T>, keep: T -> bool, x: T)
    ensures x in Filter(s, keep) <==> x in s && keep(x)
  {
    if |s| > 0 {
      var init := s[..|s| - 1];
      FilterMembership(init, keep, x);
      assert s == init + [s[|s| - 1]];
    }
  }

  /** Nothing is selected when no element passes the test. */
  lemma FilterNone<T>(s: seq<T>, keep: T -> bool)
    requires forall j :: 0 <= j < |s| ==> !keep(s[j])
    ensures Filter(s, keep) == []
  {
    FilterByIndices(s, keep);
  }

  /** Selecting from a list extended by one element: the loop step. */
  lemma FilterSnoc<T>(s: seq<T>, x: T, keep: T -> bool)
    ensures Filter(s + [x], keep) == Filter(s, keep) + (if keep(x) then [x] else [])
    ensures keep(x) ==> Filter(s + [x], keep) == Filter(s, keep) + [x]
    ensures !keep(x) ==> Filter(s + [x], keep) == Filter(s, keep)
  {
    assert (s + [x])[..|s|] == s;
    assert Filter(s, keep) + [] == Filter(s, keep);
  }

  /** A kept head followed by nothing kept: the head alone is selected. */
  lemma FilterFirstOnly<T>(head: seq<T>, rest: seq<T>, keep: T -> bool)
    requires |head| == 1 && keep(head[0]) && Filter(rest, keep) == []
    ensures Filter(head + rest, keep) == head
  {
    FilterAppend(head, rest, keep);
    assert head == [] + [head[0]];
    FilterSnoc([], head[0], keep);
  }

  lemma AppendAssoc<T>(a: seq<T>, b: seq<T>, c: seq<T>)
    ensures a + (b + c) == (a + b) + c
  {
  }

  /** Regrouping a five-piece append after a prefix. */
  lemma Assoc5<T>(a: seq<T>, b: seq<T>, c: seq<T>, d: seq<T>, e: seq<T>, f: seq<T>)
    ensures a + b + c + d + e + f == a + (b + c + d + e + f)
  {
    Assoc4(a, b, c, d, e);
    AppendAssoc(a, b + c + d + e, f);
  }

  /** Regrouping a four-piece append after a prefix. */
  lemma Assoc4<T>(a: seq<T>, b: seq<T>, c: seq<T>, d: seq<T>, e: seq<T>)
    ensures a + b + c + d + e == a + (b + c + d + e)
  {
    AppendAssoc(a, b, c);
    AppendAssoc(a, b + c, d);
    AppendAssoc(a, b + c + d, e);
  }

  lemma MapSnoc<T, U>(s: seq<T>, x: T, f: T -> U)
    ensures Map(s + [x], f) == Map(s, f) + [f(x)]
  {
    assert (s + [x])[..|s|] == s;
  }

  lemma {:induction false} MapAppend<T, U>(s: seq<T>, t: seq<T>, f: T -> U)
    ensures Map(s + t, f) == Map(s, f) + Map(t, f)
  {
    if |t| > 0 {
      var init, x := t[..|t| - 1], t[|t| - 1];
      MapAppend(s, init, f);
      assert s + t == (s + init) + [x];
      MapSnoc(s + init, x, f);
      assert t == init + [x];
      MapSnoc(init, x, f);
    } else {
      assert s + t == s;
    }
  }

  lemma {:induction false} FilterAppend<T>(s: seq<T>, t: seq<T>, keep: T -> bool)
    ensures Filter(s + t, keep) == Filter(s, keep) + Filter(t, keep)
  {
    if |t| > 0 {
      var init := t[..|t| - 1];
      FilterAppend(s, init, keep);
      assert s + t == (s + init) + [t[|t| - 1]];
      FilterSnoc(s + init, t[|t| - 1], keep);
      assert t == init + [t[|t| - 1]];
      FilterSnoc(init, t[|t| - 1], keep);
    } else {
      assert s + t == s;
    }
  }
}
