/**
 * Row selection by a boolean mask (`a[flags]` on a numpy array or `df.iloc[flags]`):
 * the rows whose flag is set, in their original order.
 */
module Masking {

  /** The number of set flags. */
  function CountTrue(keep: seq<bool>): nat {
    if keep == [] then 0 else (if keep[0] then 1 else 0) + CountTrue(keep[1..])
  }

  /** The rows of `xs` whose flag in `keep` is set. */
  function Retain<X>(xs: seq<X>, keep: seq<bool>): (r: seq<X>)
    requires |xs| == |keep|
    ensures |r| == CountTrue(keep)
  {
    if xs == [] then []
    else (if keep[0] then [xs[0]] else []) + Retain(xs[1..], keep[1..])
  }

  function Shifted(idx: seq<nat>): (r: seq<nat>)
    ensures |r| == |idx|
    ensures forall k :: 0 <= k < |idx| ==> r[k] == idx[k] + 1
  {
    seq(|idx|, k requires 0 <= k < |idx| => idx[k] + 1)
  }

  /** The positions of the set flags, ascending: row k of a selection comes from position Indices(keep)[k]. */
  function Indices(keep: seq<bool>): (idx: seq<nat>)
    ensures |idx| == CountTrue(keep)
    ensures forall k :: 0 <= k < |idx| ==> idx[k] < |keep| && keep[idx[k]]
    ensures forall k, l :: 0 <= k < l < |idx| ==> idx[k] < idx[l]
  {
    if keep == [] then []
    else
      var rest := Shifted(Indices(keep[1..]));
      if keep[0] then [0] + rest else rest
  }

  /** Every set flag is listed by Indices. */
  lemma {:induction false} IndicesComplete(keep: seq<bool>, j: nat)
    requires j < |keep| && keep[j]
    ensures j in Indices(keep)
  {
    var rest := Indices(keep[1..]);
    if j > 0 {
      IndicesComplete(keep[1..], j - 1);
      var k :| 0 <= k < |rest| && rest[k] == j - 1;
      assert Shifted(rest)[k] == j;
    }
  }

  /** Row k of a selection is the row at the k-th set position: order is preserved. */
  lemma {:induction false} RetainAt<X>(xs: seq<X>, keep: seq<bool>, k: nat)
    requires |xs| == |keep| && k < CountTrue(keep)
    ensures Retain(xs, keep)[k] == xs[Indices(keep)[k]]
  {
    assert keep != [];
    if keep[0] {
      if k > 0 {
        RetainAt(xs[1..], keep[1..], k - 1);
      }
    } else {
      RetainAt(xs[1..], keep[1..], k);
    }
  }

  /** No flag is set exactly when nothing is counted. */
  lemma {:induction false} CountTrueZero(keep: seq<bool>)
    ensures CountTrue(keep) == 0 <==> forall j :: 0 <= j < |keep| ==> !keep[j]
  {
    if keep != [] {
      CountTrueZero(keep[1..]);
      if CountTrue(keep) == 0 {
        forall j | 0 <= j < |keep| ensures !keep[j] {
          if j > 0 { assert keep[j] == keep[1..][j - 1]; }
        }
      }
    }
  }
}
