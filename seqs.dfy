/** Array.prototype.filter on sequences, and what it keeps. */
module Seqs {

  /** The entries of s that `keep` accepts, in their original order. */
  function Filter<T>(s: seq<T>, keep: T -> bool): (r: seq<T>)
    ensures |r| <= |s|
    ensures forall x :: x in r ==> x in s && keep(x)
  {
    if s == [] then [] else (if keep(s[0]) then [s[0]] else []) + Filter(s[1..], keep)
  }

  /** The indices of the entries of s that `keep` accepts, counted from the back. */
  function Selected<T>(s: seq<T>, keep: T -> bool): seq<nat>
  {
    if s == [] then []
    else Selected(s[..|s| - 1], keep) + (if keep(s[|s| - 1]) then [|s| - 1] else [])
  }

  predicate Ascending(idx: seq<nat>) {
    forall i, j :: 0 <= i < j < |idx| ==> idx[i] < idx[j]
  }

  /** Filtering a concatenation filters each part: filter keeps relative order. */
  lemma {:induction false} FilterConcat<T>(a: seq<T>, b: seq<T>, keep: T -> bool)
    ensures Filter(a + b, keep) == Filter(a, keep) + Filter(b, keep)
  {
    if a == [] {
      assert a + b == b;
    } else {
      assert (a + b)[1..] == a[1..] + b;
      FilterConcat(a[1..], b, keep);
    }
  }

  /** Filtering one more entry appends it when it is accepted. */
  lemma FilterSnoc<T>(init: seq<T>, x: T, keep: T -> bool)
    ensures Filter(init + [x], keep) == Filter(init, keep) + (if keep(x) then [x] else [])
  {
    FilterConcat(init, [x], keep);
    assert [x][1..] == [];
  }

  /** Filtering a prefix one entry longer. */
  lemma FilterPrefixStep<T>(s: seq<T>, i: nat, keep: T -> bool)
    requires 0 < i <= |s|
    ensures Filter(s[..i], keep) == Filter(s[..i - 1], keep) + (if keep(s[i - 1]) then [s[i - 1]] else [])
  {
    assert s[..i] == s[..i - 1] + [s[i - 1]];
    FilterSnoc(s[..i - 1], s[i - 1], keep);
  }

  /** The selected indices ascend and stay below |s|. */
  lemma {:induction false} SelectedAscends<T>(s: seq<T>, keep: T -> bool)
    ensures Ascending(Selected(s, keep))
    ensures forall j :: 0 <= j < |Selected(s, keep)| ==> Selected(s, keep)[j] < |s|
  {
    if s != [] {
      SelectedAscends(s[..|s| - 1], keep);
    }
  }

  /** An index is selected exactly when `keep` accepts its entry. */
  lemma {:induction false} SelectedExactly<T>(s: seq<T>, keep: T -> bool)
    ensures forall k :: 0 <= k < |s| ==> (k in Selected(s, keep) <==> keep(s[k]))
  {
    if s != [] {
      var n := |s| - 1;
      var init := s[..n];
      SelectedExactly(init, keep);
      SelectedAscends(init, keep);
      var idx0 := Selected(init, keep);
      var lastIdx: seq<nat> := if keep(s[n]) then [n] else [];
      assert Selected(s, keep) == idx0 + lastIdx;
      forall k | 0 <= k < |s|
        ensures k in idx0 + lastIdx <==> keep(s[k])
      {
        if k < n {
          assert init[k] == s[k];
          assert k !in lastIdx;
        }
      }
    }
  }

  /** Entry j of the filtered sequence is entry Selected[j] of s. */
  lemma {:induction false} FilterPicksSelected<T>(s: seq<T>, keep: T -> bool)
    ensures |Selected(s, keep)| == |Filter(s, keep)|
    ensures forall j :: 0 <= j < |Filter(s, keep)| ==>
      Selected(s, keep)[j] < |s| && Filter(s, keep)[j] == s[Selected(s, keep)[j]]
  {
    if s != [] {
      var n := |s| - 1;
      var init := s[..n];
      FilterPicksSelected(init, keep);
      SelectedAscends(init, keep);
      assert s == init + [s[n]];
      FilterSnoc(init, s[n], keep);
    }
  }

  /** Filter keeps exactly the accepted entries, in order: entry j of the result
      is entry Selected[j] of s, the selected indices ascend, and an index is
      selected exactly when `keep` accepts its entry. */
  lemma FilterSelects<T>(s: seq<T>, keep: T -> bool)
    ensures |Selected(s, keep)| == |Filter(s, keep)|
    ensures Ascending(Selected(s, keep))
    ensures forall j :: 0 <= j < |Filter(s, keep)| ==>
      Selected(s, keep)[j] < |s| && Filter(s, keep)[j] == s[Selected(s, keep)[j]]
    ensures forall k :: 0 <= k < |s| ==> (k in Selected(s, keep) <==> keep(s[k]))
  {
    SelectedAscends(s, keep);
    SelectedExactly(s, keep);
    FilterPicksSelected(s, keep);
  }

  /** Two sequences that agree entry by entry on what is kept filter to the same length. */
  lemma {:induction false} FilterLengthByMask<T, U>(a: seq<T>, p: T -> bool, b: seq<U>, q: U -> bool)
    requires |a| == |b|
    requires forall k :: 0 <= k < |a| ==> p(a[k]) == q(b[k])
    ensures |Filter(a, p)| == |Filter(b, q)|
  {
    if a != [] {
      assert forall k :: 0 <= k < |a| - 1 ==> a[1..][k] == a[k + 1] && b[1..][k] == b[k + 1];
      FilterLengthByMask(a[1..], p, b[1..], q);
    }
  }
}
