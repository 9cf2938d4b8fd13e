/** Positions of the true entries of a boolean sequence: the shape shared by
    "every true coil", "every sensor that has a value at this step" and
    "every line that is a data line". */
module Flags {

  /** The indices k with flags[k], in ascending order. */
  function TrueIndices(flags: seq<bool>): (r: seq<nat>)
    ensures |r| <= |flags|
    ensures forall p :: 0 <= p < |r| ==> r[p] < |flags| && flags[r[p]]
    ensures forall p, q :: 0 <= p < q < |r| ==> r[p] < r[q]
    decreases |flags|
  {
    if flags == [] then []
    else
      var n := |flags| - 1;
      TrueIndices(flags[..n]) + (if flags[n] then [n] else [])
  }

  /** Every true entry is listed. */
  lemma {:induction false} TrueIndicesComplete(flags: seq<bool>, k: nat)
    requires k < |flags| && flags[k]
    ensures k in TrueIndices(flags)
    decreases |flags|
  {
    var n := |flags| - 1;
    if k < n {
      assert flags[..n][k] == flags[k];
      TrueIndicesComplete(flags[..n], k);
    }
  }

  /** Number of true entries, counted from the front. */
  function CountTrue(flags: seq<bool>): nat
  {
    if flags == [] then 0 else (if flags[0] then 1 else 0) + CountTrue(flags[1..])
  }

  /** Extending the flags by one entry extends the indices by at most that entry. */
  lemma TrueIndicesSnoc(flags: seq<bool>, b: bool)
    ensures TrueIndices(flags + [b]) == TrueIndices(flags) + (if b then [|flags|] else [])
  {
    assert (flags + [b])[..|flags|] == flags;
  }

  /** There is exactly one index per true entry. */
  lemma {:induction false} TrueIndicesCount(flags: seq<bool>)
    ensures |TrueIndices(flags)| == CountTrue(flags)
    decreases |flags|
  {
    if flags != [] {
      var n := |flags| - 1;
      TrueIndicesCount(flags[..n]);
      CountTrueSnoc(flags[..n], flags[n]);
      assert flags[..n] + [flags[n]] == flags;
    }
  }

  lemma {:induction false} CountTrueSnoc(flags: seq<bool>, b: bool)
    ensures CountTrue(flags + [b]) == CountTrue(flags) + (if b then 1 else 0)
    decreases |flags|
  {
    if flags != [] {
      assert (flags + [b])[1..] == flags[1..] + [b];
      CountTrueSnoc(flags[1..], b);
    }
  }

  /** No true entry, no index. */
  lemma NoTrueNoIndices(flags: seq<bool>)
    requires forall k :: 0 <= k < |flags| ==> !flags[k]
    ensures TrueIndices(flags) == []
  {
  }
}
