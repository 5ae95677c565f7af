/** The attention masks, as boolean "masked" matrices: `true` where the source
    writes its large negative bias, `false` where it writes 0
    (scripts/transcribe.py, `create_additive_causal_mask` and
    `AudioEncoder._create_block_attention_mask`). */
module Masks {
  import opened Basics
  import opened Windows

  /** `mx.arange(lo, hi)`. */
  function Arange(lo: int, hi: int): (r: seq<int>)
    ensures |r| == Max(hi - lo, 0)
    ensures forall i :: 0 <= i < |r| ==> r[i] == lo + i
  {
    seq(Max(hi - lo, 0), i requires 0 <= i => lo + i)
  }

  /** `create_additive_causal_mask(N, offset)`: query rows are positions
      `offset .. offset + N - 1`, key columns are `0 .. offset + N - 1`, and a
      query may not see a key that comes after it. */
  function CausalMask(n: nat, offset: nat): (m: seq<seq<bool>>)
    ensures |m| == n
    ensures forall i :: 0 <= i < n ==> |m[i]| == offset + n
    ensures forall i, j :: 0 <= i < n && 0 <= j < offset + n ==> (m[i][j] <==> offset + i < j)
  {
    var rinds := Arange(0, offset + n);
    var linds := if offset != 0 then Arange(offset, offset + n) else rinds;
    seq(|linds|, i requires 0 <= i < |linds| =>
      seq(|rinds|, j requires 0 <= j < |rinds| => linds[i] < rinds[j]))
  }

  /** The rows of an incremental step at cache offset `o` are exactly the last
      rows of the mask a single pass over all `o + n` positions would use. */
  lemma CausalMaskIncremental(n: nat, o: nat)
    ensures CausalMask(n, o) == CausalMask(o + n, 0)[o..]
  {
    var a := CausalMask(n, o);
    var b := CausalMask(o + n, 0)[o..];
    assert |a| == |b|;
    forall i | 0 <= i < n ensures a[i] == b[i] {
      assert |a[i]| == |b[i]|;
    }
  }

  /** Row `i` lets the query see exactly the keys up to and including its own
      position `offset + i`, and hides the `n - 1 - i` keys after it. */
  lemma CausalRow(n: nat, offset: nat, i: nat)
    requires i < n
    ensures CausalMask(n, offset)[i] == Repeat(false, offset + i + 1) + Repeat(true, n - 1 - i)
  {
    var row := CausalMask(n, offset)[i];
    var want := Repeat(false, offset + i + 1) + Repeat(true, n - 1 - i);
    assert |row| == |want|;
    forall j | 0 <= j < |row| ensures row[j] == want[j] {
      if j < offset + i + 1 {
        assert want[j] == Repeat(false, offset + i + 1)[j];
      } else {
        assert want[j] == Repeat(true, n - 1 - i)[j - (offset + i + 1)];
      }
    }
  }

  // ---------------------------------------------------------------------------
  // Block-diagonal mask
  // ---------------------------------------------------------------------------

  /** Vector `i` lies in block `k`, the half-open range `[cu[k], cu[k + 1])`. */
  predicate InBlock(cu: seq<nat>, k: nat, i: int)
    requires k + 1 < |cu|
  {
    cu[k] <= i < cu[k + 1]
  }

  /** Some block among the first `bound` holds both `i` and `j`. */
  predicate SharedBlockBefore(cu: seq<nat>, bound: nat, i: int, j: int)
  {
    exists k: nat :: k < bound && k + 1 < |cu| && InBlock(cu, k, i) && InBlock(cu, k, j)
  }

  /** `i` may attend to `j`: some block holds both. */
  predicate SharedBlock(cu: seq<nat>, i: int, j: int)
  {
    SharedBlockBefore(cu, |cu|, i, j)
  }

  /** `_create_block_attention_mask(seq_len, cu_seqlens)`: start fully masked
      and clear the square `[start:end, start:end]` of every block (Python's
      slice clamps each range to `seq_len`). */
  method CreateBlockAttentionMask(seqLen: nat, cu: seq<nat>) returns (mask: array2<bool>)
    ensures fresh(mask)
    ensures mask.Length0 == seqLen && mask.Length1 == seqLen
    ensures forall i, j :: 0 <= i < seqLen && 0 <= j < seqLen ==> (mask[i, j] <==> !SharedBlock(cu, i, j))
  {
    mask := new bool[seqLen, seqLen]((i, j) => true);
    var k := 0;
    while k + 1 < |cu|
      invariant k <= |cu|
      invariant forall i, j :: 0 <= i < seqLen && 0 <= j < seqLen ==> (mask[i, j] <==> !SharedBlockBefore(cu, k, i, j))
    {
      var start, end := cu[k], cu[k + 1];
      var lo, hi := Min(start, seqLen), Min(end, seqLen);
      var r := lo;
      while r < hi
        invariant lo <= r && (lo <= hi ==> r <= hi)
        invariant forall i, j :: 0 <= i < seqLen && 0 <= j < seqLen ==>
          (mask[i, j] <==> !(SharedBlockBefore(cu, k, i, j) || (lo <= i < r && lo <= j < hi)))
      {
        var c := lo;
        while c < hi
          invariant lo <= c <= hi
          invariant forall i, j :: 0 <= i < seqLen && 0 <= j < seqLen ==>
            (mask[i, j] <==> !(SharedBlockBefore(cu, k, i, j) || (lo <= i < r && lo <= j < hi) || (i == r && lo <= j < c)))
        {
          mask[r, c] := false;
          c := c + 1;
        }
        r := r + 1;
      }
      forall i, j | 0 <= i < seqLen && 0 <= j < seqLen
        ensures mask[i, j] <==> !SharedBlockBefore(cu, k + 1, i, j)
      {
        assert mask[i, j] <==> !(SharedBlockBefore(cu, k, i, j) || (lo <= i < hi && lo <= j < hi));
        if lo <= i < hi && lo <= j < hi {
          assert InBlock(cu, k, i) && InBlock(cu, k, j);
        }
        if SharedBlockBefore(cu, k + 1, i, j) && !SharedBlockBefore(cu, k, i, j) {
          var k': nat :| k' < k + 1 && k' + 1 < |cu| && InBlock(cu, k', i) && InBlock(cu, k', j);
          assert k' == k;
        }
      }
      k := k + 1;
    }
    forall i, j | 0 <= i < seqLen && 0 <= j < seqLen
      ensures SharedBlockBefore(cu, k, i, j) <==> SharedBlock(cu, i, j)
    {
      if SharedBlock(cu, i, j) {
        var k': nat :| k' < |cu| && k' + 1 < |cu| && InBlock(cu, k', i) && InBlock(cu, k', j);
      }
    }
  }

  /** The block mask is symmetric: `i` sees `j` exactly when `j` sees `i`. */
  lemma BlockMaskSymmetric(cu: seq<nat>, i: int, j: int)
    ensures SharedBlock(cu, i, j) <==> SharedBlock(cu, j, i)
  {
  }

  /** With strictly increasing boundaries, attention never crosses a boundary:
      a vector before `cu[b]` and one at or after it are masked from each other. */
  lemma NoAttentionAcrossBoundary(cu: seq<nat>, b: nat, i: int, j: int)
    requires forall k :: 0 <= k < |cu| - 1 ==> cu[k] < cu[k + 1]
    requires b < |cu| && i < cu[b] <= j
    ensures !SharedBlock(cu, i, j) && !SharedBlock(cu, j, i)
  {
    if SharedBlock(cu, i, j) {
      var k: nat :| k < |cu| && k + 1 < |cu| && InBlock(cu, k, i) && InBlock(cu, k, j);
      if k < b {
        if k + 1 < b { StrictlyIncreasingFar(cu, k + 1, b); }
      } else {
        if k > b { StrictlyIncreasingFar(cu, b, k); }
      }
    }
  }

  /** When the boundaries start at 0, rise strictly and end at `seqLen`, every
      vector lies in exactly one block, so every vector may attend to itself
      (no row of the mask is fully masked). */
  lemma EveryVectorInOneBlock(cu: seq<nat>, seqLen: nat, i: nat)
    requires |cu| >= 1 && cu[0] == 0 && cu[|cu| - 1] == seqLen
    requires forall k :: 0 <= k < |cu| - 1 ==> cu[k] < cu[k + 1]
    requires i < seqLen
    ensures SharedBlock(cu, i, i)
    ensures forall k, k' :: 0 <= k < k' < |cu| - 1 && InBlock(cu, k, i) ==> !InBlock(cu, k', i)
  {
    var k := BlockOf(cu, i, |cu| - 1);
    assert InBlock(cu, k, i) && InBlock(cu, k, i);
    forall k1, k2 | 0 <= k1 < k2 < |cu| - 1 && InBlock(cu, k1, i) ensures !InBlock(cu, k2, i) {
      if k1 + 1 < k2 { StrictlyIncreasingFar(cu, k1 + 1, k2); }
    }
  }

  /** The block holding `i`, searched below boundary index `top`. */
  lemma {:induction false} BlockOf(cu: seq<nat>, i: nat, top: nat) returns (k: nat)
    requires |cu| >= 1 && cu[0] == 0 && top < |cu|
    requires i < cu[top]
    ensures k + 1 < |cu| && k < top && InBlock(cu, k, i)
    decreases top
  {
    if cu[top - 1] <= i {
      k := top - 1;
    } else {
      k := BlockOf(cu, i, top - 1);
    }
  }
}
