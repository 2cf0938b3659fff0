/** `remove_nan_union` of generic_utils.py: two index-aligned arrays lose every
    position at which either of them holds NaN. */
module NanFilter {
  import opened Wrappers
  import opened Numbers
  import ListSets

  /** Arrays of different lengths cannot be masked together: numpy raises
      (either broadcasting the two `isnan` arrays or applying a mask of the
      wrong length in `np.delete`). */
  datatype Error = LengthMismatch

  /** `np.logical_or(np.isnan(a), np.isnan(b))`. */
  function NanMask(a: seq<Num>, b: seq<Num>): seq<bool>
    requires |a| == |b|
  {
    seq(|a|, k requires 0 <= k < |a| => a[k].NaN? || b[k].NaN?)
  }

  /** The positions a boolean mask keeps (those where it is false), in
      increasing order. */
  function Kept(mask: seq<bool>): (idx: seq<nat>)
    ensures forall j :: 0 <= j < |idx| ==> idx[j] < |mask| && !mask[idx[j]]
    ensures forall j, j' :: 0 <= j < j' < |idx| ==> idx[j] < idx[j']
    ensures forall k :: 0 <= k < |mask| && !mask[k] ==> k in idx
  {
    if |mask| == 0 then []
    else
      var n := |mask| - 1;
      Kept(mask[..n]) + (if mask[n] then [] else [n])
  }

  /** The set of positions a mask keeps. */
  function KeptSet(mask: seq<bool>): set<nat> {
    set k: nat | k < |mask| && !mask[k]
  }

  /** The kept positions are listed once each, so there are as many of them as
      the mask has false entries. */
  lemma KeptCount(mask: seq<bool>)
    ensures |Kept(mask)| == |KeptSet(mask)|
  {
    var idx := Kept(mask);
    assert ListSets.Elems(idx) == KeptSet(mask);
    ListSets.DistinctIffCardIsLength(idx);
  }

  /** `np.delete(xs, mask)` for a boolean mask (NumPy 1.19 and later): the
      elements at positions where the mask is true are dropped. */
  function Delete<T>(xs: seq<T>, mask: seq<bool>): seq<T>
    requires |xs| == |mask|
  {
    if |xs| == 0 then []
    else
      var n := |xs| - 1;
      Delete(xs[..n], mask[..n]) + (if mask[n] then [] else [xs[n]])
  }

  /** Deleting by mask selects exactly the kept positions, in order. */
  lemma {:induction false} DeleteSelectsKept<T>(xs: seq<T>, mask: seq<bool>)
    requires |xs| == |mask|
    ensures |Delete(xs, mask)| == |Kept(mask)|
    ensures forall j :: 0 <= j < |Kept(mask)| ==> Delete(xs, mask)[j] == xs[Kept(mask)[j]]
  {
    if |xs| > 0 {
      var n := |xs| - 1;
      DeleteSelectsKept(xs[..n], mask[..n]);
    }
  }

  /** A mask with no true entry deletes nothing. */
  lemma {:induction false} DeleteNothing<T>(xs: seq<T>, mask: seq<bool>)
    requires |xs| == |mask|
    requires forall k :: 0 <= k < |mask| ==> !mask[k]
    ensures Delete(xs, mask) == xs
  {
    if |xs| > 0 {
      var n := |xs| - 1;
      DeleteNothing(xs[..n], mask[..n]);
      assert xs[..n] + [xs[n]] == xs;
    }
  }

  /** The positions at which neither array holds NaN. */
  function BothValid(a: seq<Num>, b: seq<Num>): set<nat> {
    set k: nat | k < |a| && k < |b| && a[k].Val? && b[k].Val?
  }

  /** `remove_nan_union(array_a, array_b)`: both arrays filtered by one mask.
      The outputs stay aligned (entry j of each comes from the same position of
      the inputs, taken in increasing order), keep one entry per position where
      neither input is NaN, and hold no NaN. */
  function RemoveNanUnion(a: seq<Num>, b: seq<Num>): (r: Result<(seq<Num>, seq<Num>), Error>)
    ensures r.Failure? <==> |a| != |b|
    ensures r.Success? ==> |r.value.0| == |r.value.1| == |BothValid(a, b)|
    ensures r.Success? ==> !HasNaN(r.value.0) && !HasNaN(r.value.1)
    ensures r.Success? ==>
      var idx := Kept(NanMask(a, b));
      |idx| == |r.value.0| &&
      forall j :: 0 <= j < |idx| ==> r.value.0[j] == a[idx[j]] && r.value.1[j] == b[idx[j]]
  {
    if |a| != |b| then Failure(LengthMismatch)
    else
      var mask := NanMask(a, b);
      DeleteSelectsKept(a, mask);
      DeleteSelectsKept(b, mask);
      KeptCount(mask);
      assert KeptSet(mask) == BothValid(a, b);
      Success((Delete(a, mask), Delete(b, mask)))
  }

  /** Arrays without NaN come back unchanged. */
  lemma RemoveNanUnionIdentity(a: seq<Num>, b: seq<Num>)
    requires |a| == |b|
    requires !HasNaN(a) && !HasNaN(b)
    ensures RemoveNanUnion(a, b) == Success((a, b))
  {
    DeleteNothing(a, NanMask(a, b));
    DeleteNothing(b, NanMask(a, b));
  }

  /** Filtering twice is filtering once. */
  lemma RemoveNanUnionIdempotent(a: seq<Num>, b: seq<Num>)
    requires |a| == |b|
    ensures RemoveNanUnion(a, b).Success?
    ensures var (a', b') := RemoveNanUnion(a, b).value;
      RemoveNanUnion(a', b') == RemoveNanUnion(a, b)
  {
    var (a', b') := RemoveNanUnion(a, b).value;
    RemoveNanUnionIdentity(a', b');
  }

  /** [1, NaN, 3] and [1, 2, NaN] keep only their first position. */
  lemma RemoveNanUnionExample()
    ensures RemoveNanUnion([Val(1.0), NaN, Val(3.0)], [Val(1.0), Val(2.0), NaN])
         == Success(([Val(1.0)], [Val(1.0)]))
  {
    var a, b := [Val(1.0), NaN, Val(3.0)], [Val(1.0), Val(2.0), NaN];
    var mask := NanMask(a, b);
    assert mask == [false, true, true];
    assert Delete(a[..1], mask[..1]) == [Val(1.0)] by {
      assert a[..1][..0] == [] && mask[..1][..0] == [];
    }
    assert Delete(b[..1], mask[..1]) == [Val(1.0)] by {
      assert b[..1][..0] == [] && mask[..1][..0] == [];
    }
    assert a[..2][..1] == a[..1] && b[..2][..1] == b[..1] && mask[..2][..1] == mask[..1];
    assert Delete(a[..2], mask[..2]) == [Val(1.0)];
    assert Delete(b[..2], mask[..2]) == [Val(1.0)];
    assert Delete(a, mask) == [Val(1.0)];
    assert Delete(b, mask) == [Val(1.0)];
  }
}
