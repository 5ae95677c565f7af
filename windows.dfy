/** Cumulative attention-window boundaries over the encoder's output vectors
    (scripts/transcribe.py, `AudioEncoder._build_cu_seqlens`). */
module Windows {
  import opened Basics

  /** The windows of one chunk's `len` vectors: as many full windows of `w` as
      fit, then the remainder when there is one. */
  function WindowLengths(len: nat, w: nat): (r: seq<nat>)
    requires w > 0
  {
    Repeat(w, len / w) + (if len % w != 0 then [len % w] else [])
  }

  /** The windows of every chunk, chunk after chunk. */
  function AllWindowLengths(lens: seq<nat>, w: nat): (r: seq<nat>)
    requires w > 0
  {
    if lens == [] then []
    else AllWindowLengths(lens[..|lens| - 1], w) + WindowLengths(lens[|lens| - 1], w)
  }

  /** `np.cumsum`: entry `i` is the sum of the first `i + 1` entries. */
  function CumSum(s: seq<nat>): (r: seq<nat>)
    ensures |r| == |s|
  {
    seq(|s|, i requires 0 <= i < |s| => SumNat(s[..i + 1]))
  }

  function SumNat(s: seq<nat>): (r: nat)
    ensures r == Sum(s)
  {
    if s == [] then 0 else SumNat(s[..|s| - 1]) + s[|s| - 1]
  }

  /** `_build_cu_seqlens`: starts from `[0]`, extends it chunk by chunk with the
      chunk's window lengths, and returns the running sums. */
  method BuildCuSeqlens(aftercnnLens: seq<nat>, window: nat) returns (cu: seq<nat>)
    requires window > 0
    ensures cu == CumSum([0] + AllWindowLengths(aftercnnLens, window))
  {
    var cuChunkLens: seq<nat> := [0];
    var i := 0;
    while i < |aftercnnLens|
      invariant 0 <= i <= |aftercnnLens|
      invariant cuChunkLens == [0] + AllWindowLengths(aftercnnLens[..i], window)
    {
      cuChunkLens := AppendWindows(cuChunkLens, aftercnnLens[i], window);
      assert AllWindowLengths(aftercnnLens[..i + 1], window)
             == AllWindowLengths(aftercnnLens[..i], window) + WindowLengths(aftercnnLens[i], window) by {
        assert aftercnnLens[..i + 1][..i] == aftercnnLens[..i];
      }
      i := i + 1;
    }
    assert aftercnnLens[..i] == aftercnnLens;
    cu := CumSum(cuChunkLens);
  }

  /** One pass of the loop above: the full windows of a chunk, then its
      remainder when there is one. */
  method AppendWindows(acc: seq<nat>, cnnLen: nat, window: nat) returns (r: seq<nat>)
    requires window > 0
    ensures r == acc + WindowLengths(cnnLen, window)
  {
    r := acc;
    var fullWindows := cnnLen / window;
    if fullWindows != 0 {
      r := r + Repeat(window, fullWindows);
    }
    var remainder := cnnLen % window;
    if remainder != 0 {
      r := r + [remainder];
    }
  }

  /** One chunk's windows cover it exactly, each of 1 to `w` vectors. */
  lemma WindowLengthsCover(len: nat, w: nat)
    requires w > 0
    ensures Sum(WindowLengths(len, w)) == len
    ensures forall k :: 0 <= k < |WindowLengths(len, w)| ==> 1 <= WindowLengths(len, w)[k] <= w
  {
    WindowLengthsSum(len, w, len / w, len % w);
  }

  lemma WindowLengthsSum(len: nat, w: nat, q: nat, r: nat)
    requires w > 0 && q == len / w && r == len % w
    ensures Sum(WindowLengths(len, w)) == len
  {
    var full := Repeat(w, q);
    var tail: seq<nat> := if r != 0 then [r] else [];
    assert WindowLengths(len, w) == full + tail;
    assert Sum(full) == w * q by { SumConstant(full, w); }
    assert Sum(tail) == r;
    SumAppend(full, tail);
    DivModSplit(len, w);
  }

  /** All chunks' windows cover all vectors, each window of 1 to `w` vectors. */
  lemma {:induction false} AllWindowLengthsCover(lens: seq<nat>, w: nat)
    requires w > 0
    ensures Sum(AllWindowLengths(lens, w)) == Sum(lens)
    ensures forall k :: 0 <= k < |AllWindowLengths(lens, w)| ==> 1 <= AllWindowLengths(lens, w)[k] <= w
  {
    if lens != [] {
      var init, last := lens[..|lens| - 1], lens[|lens| - 1];
      AllWindowLengthsCover(init, w);
      WindowLengthsCover(last, w);
      SumAppend(AllWindowLengths(init, w), WindowLengths(last, w));
    }
  }

  /** Consecutive running sums differ by the next entry. */
  lemma CumSumStep(s: seq<nat>, k: nat)
    requires k + 1 < |s|
    ensures CumSum(s)[k + 1] == CumSum(s)[k] + s[k + 1]
  {
    assert s[..k + 2][..k + 1] == s[..k + 1];
  }

  lemma CumSumLast(s: seq<nat>)
    requires s != []
    ensures CumSum(s)[|s| - 1] == Sum(s)
  {
    assert s[..|s|] == s;
  }

  /** The boundaries start at 0, rise strictly, never by more than one window,
      and end at the total number of encoder output vectors. */
  lemma CuSeqlensProperties(aftercnnLens: seq<nat>, w: nat)
    requires w > 0
    ensures var cu := CumSum([0] + AllWindowLengths(aftercnnLens, w));
            && |cu| >= 1 && cu[0] == 0
            && (forall k :: 0 <= k < |cu| - 1 ==> cu[k] < cu[k + 1] <= cu[k] + w)
            && cu[|cu| - 1] == Sum(aftercnnLens)
  {
    var s := [0] + AllWindowLengths(aftercnnLens, w);
    var cu := CumSum(s);
    AllWindowLengthsCover(aftercnnLens, w);
    assert s[..1] == [0];
    forall k | 0 <= k < |cu| - 1 ensures cu[k] < cu[k + 1] <= cu[k] + w {
      CumSumStep(s, k);
      assert s[k + 1] == AllWindowLengths(aftercnnLens, w)[k];
    }
    CumSumLast(s);
    SumAppend([0], AllWindowLengths(aftercnnLens, w));
  }

  /** Strictly increasing boundaries stay ordered at any distance. */
  lemma {:induction false} StrictlyIncreasingFar(cu: seq<nat>, a: nat, b: nat)
    requires forall k :: 0 <= k < |cu| - 1 ==> cu[k] < cu[k + 1]
    requires a < b < |cu|
    ensures cu[a] < cu[b]
    decreases b - a
  {
    if a + 1 < b {
      StrictlyIncreasingFar(cu, a + 1, b);
    }
  }
}
