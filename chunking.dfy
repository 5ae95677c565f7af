/** Splitting mel features into bounded chunks before the convolutions, padding
    them to a common width, and cutting the padding back off afterwards
    (scripts/transcribe.py, `AudioEncoder._compute_chunk_layout`,
    `_slice_feature_chunks`, `_pad_chunks` and the trim in `__call__`).
    A feature matrix is modelled time-major: a sequence of frames, each an
    opaque column value. */
module Chunking {
  import opened Basics
  import opened FeatLengths

  // ---------------------------------------------------------------------------
  // Chunk layout
  // ---------------------------------------------------------------------------

  /** `np.ceil(feat_len / chunk_size)`. */
  function ChunkCount(len: nat, cs: nat): (r: nat)
    requires cs > 0
  {
    CeilDiv(len, cs)
  }

  /** The chunk counts of a batch, element-wise. */
  function ChunkCounts(lens: seq<nat>, cs: nat): (r: seq<nat>)
    requires cs > 0
    ensures |r| == |lens|
    ensures forall i :: 0 <= i < |lens| ==> r[i] == ChunkCount(lens[i], cs)
  {
    seq(|lens|, i requires 0 <= i < |lens| => ChunkCount(lens[i], cs))
  }

  /** Length of chunk `j` as the layout loop appends it: every chunk but the
      last is full; the last holds the remainder, or is full when there is none. */
  function ChunkLength(len: nat, cs: nat, j: nat): (r: nat)
    requires cs > 0
  {
    if j == ChunkCount(len, cs) - 1 then
      var remainder := len % cs;
      if remainder == 0 then cs else remainder
    else cs
  }

  /** The chunk lengths of one recording of `len` frames. */
  function ChunkLengthsOf(len: nat, cs: nat): (r: seq<nat>)
    requires cs > 0
    ensures |r| == ChunkCount(len, cs)
  {
    seq(ChunkCount(len, cs), j requires 0 <= j => ChunkLength(len, cs, j))
  }

  /** The chunk lengths of a whole batch, recording after recording. */
  function LayoutSpec(lens: seq<nat>, cs: nat): (r: seq<nat>)
    requires cs > 0
  {
    if lens == [] then []
    else LayoutSpec(lens[..|lens| - 1], cs) + ChunkLengthsOf(lens[|lens| - 1], cs)
  }

  /** `_compute_chunk_layout`: the counts, and the lengths appended chunk by chunk. */
  method ComputeChunkLayout(featureLens: seq<nat>, cs: nat) returns (counts: seq<nat>, lengths: seq<nat>)
    requires cs > 0
    ensures counts == ChunkCounts(featureLens, cs)
    ensures lengths == LayoutSpec(featureLens, cs)
  {
    counts := ChunkCounts(featureLens, cs);
    lengths := [];
    var i := 0;
    while i < |featureLens|
      invariant 0 <= i <= |featureLens|
      invariant lengths == LayoutSpec(featureLens[..i], cs)
    {
      var featLen := featureLens[i];
      var numChunks := counts[i];
      ghost var before := lengths;
      var j := 0;
      while j < numChunks
        invariant 0 <= j <= numChunks
        invariant lengths == before + ChunkLengthsOf(featLen, cs)[..j]
      {
        if j == numChunks - 1 {
          var remainder := featLen % cs;
          lengths := lengths + [if remainder == 0 then cs else remainder];
        } else {
          lengths := lengths + [cs];
        }
        assert ChunkLengthsOf(featLen, cs)[..j + 1] == ChunkLengthsOf(featLen, cs)[..j] + [ChunkLengthsOf(featLen, cs)[j]];
        j := j + 1;
      }
      assert featureLens[..i + 1][..i] == featureLens[..i];
      i := i + 1;
    }
    assert featureLens[..i] == featureLens;
  }

  /** The arithmetic of the last chunk: with `n` chunks for `len > 0` frames,
      the first `n - 1` full chunks end before `len` and the last one ends
      exactly at `len`. */
  lemma LastChunkArithmetic(len: nat, cs: nat)
    requires cs > 0 && len > 0
    ensures ChunkCount(len, cs) >= 1
    ensures (ChunkCount(len, cs) - 1) * cs < len
    ensures ChunkLength(len, cs, ChunkCount(len, cs) - 1) == len - (ChunkCount(len, cs) - 1) * cs
  {
    var q, r := len / cs, len % cs;
    if r == 0 {
      DivModUnique(len + cs - 1, cs, q, cs - 1);
    } else {
      DivModUnique(len + cs - 1, cs, q + 1, r - 1);
    }
  }

  /** Everything the layout promises for one recording of `len` frames:
      `ceil(len / cs)` chunks, all full but the last, the last holding the
      remainder (full when the remainder is 0), each of 1 to `cs` frames,
      together exactly `len` frames. */
  lemma ChunkLayoutOfOne(len: nat, cs: nat)
    requires cs > 0
    ensures |ChunkLengthsOf(len, cs)| == CeilDiv(len, cs)
    ensures forall j :: 0 <= j < |ChunkLengthsOf(len, cs)| - 1 ==> ChunkLengthsOf(len, cs)[j] == cs
    ensures len > 0 ==> ChunkLengthsOf(len, cs)[|ChunkLengthsOf(len, cs)| - 1]
                        == (if len % cs == 0 then cs else len % cs)
    ensures forall j :: 0 <= j < |ChunkLengthsOf(len, cs)| ==> 1 <= ChunkLengthsOf(len, cs)[j] <= cs
    ensures Sum(ChunkLengthsOf(len, cs)) == len
  {
    var widths := ChunkLengthsOf(len, cs);
    var n := |widths|;
    if len == 0 {
      assert n == 0;
    } else {
      LastChunkArithmetic(len, cs);
      var full := n - 1;
      var front := widths[..full];
      SumConstant(front, cs);
      var last := widths[full];
      assert last == len - full * cs;
      assert Sum(widths) == Sum(front) + last;
      assert Sum(front) == cs * full;
    }
  }

  /** Over a batch: the chunks account for every frame of every recording,
      and none is empty or longer than `cs`. */
  lemma {:induction false} LayoutSpecProperties(lens: seq<nat>, cs: nat)
    requires cs > 0
    ensures Sum(LayoutSpec(lens, cs)) == Sum(lens)
    ensures forall k :: 0 <= k < |LayoutSpec(lens, cs)| ==> 1 <= LayoutSpec(lens, cs)[k] <= cs
  {
    if lens != [] {
      var init := lens[..|lens| - 1];
      var last := lens[|lens| - 1];
      var a, b := LayoutSpec(init, cs), ChunkLengthsOf(last, cs);
      assert LayoutSpec(lens, cs) == a + b;
      LayoutSpecProperties(init, cs);
      ChunkLayoutOfOne(last, cs);
      SumAppend(a, b);
      forall k | 0 <= k < |a + b| ensures 1 <= (a + b)[k] <= cs {
        if k >= |a| {
          assert (a + b)[k] == b[k - |a|];
        }
      }
    }
  }

  /** An independent reference for one recording: peel full chunks off the
      front until at most one chunk's worth is left. */
  function Peel(len: nat, cs: nat): (r: seq<nat>)
    requires cs > 0
    decreases len
  {
    if len == 0 then [] else if len <= cs then [len] else [cs] + Peel(len - cs, cs)
  }

  /** Taking one full chunk off the front leaves one chunk fewer and the same remainder. */
  lemma PeelStepArithmetic(len: nat, cs: nat)
    requires cs > 0 && len > cs
    ensures ChunkCount(len - cs, cs) == ChunkCount(len, cs) - 1
    ensures (len - cs) % cs == len % cs
  {
    var rest := len - cs;
    var q1, r1 := (len - 1) / cs, (len - 1) % cs;
    DivModUnique(len + cs - 1, cs, q1 + 1, r1);
    var q2, r2 := rest / cs, rest % cs;
    DivModUnique(len, cs, q2 + 1, r2);
  }

  /** A recording has chunks exactly when it has frames. */
  lemma ChunkCountPositive(len: nat, cs: nat)
    requires cs > 0
    ensures ChunkCount(len, cs) > 0 <==> len > 0
  {
    if len == 0 {
      DivModUnique(cs - 1, cs, 0, cs - 1);
    } else {
      LastChunkArithmetic(len, cs);
    }
  }

  /** Up to one chunk's worth of frames makes exactly one chunk. */
  lemma SingleChunk(len: nat, cs: nat)
    requires 0 < len <= cs
    ensures ChunkCount(len, cs) == 1
  {
    DivModUnique(len + cs - 1, cs, 1, len - 1);
  }

  /** More than one chunk's worth of frames: one full chunk, then the layout
      of what is left. */
  lemma ChunkLengthsCons(len: nat, cs: nat)
    requires 0 < cs < len
    ensures ChunkLengthsOf(len, cs) == [cs] + ChunkLengthsOf(len - cs, cs)
  {
    var a := ChunkLengthsOf(len, cs);
    var b := ChunkLengthsOf(len - cs, cs);
    PeelStepArithmetic(len, cs);
    assert |b| >= 1 by {
      LastChunkArithmetic(len - cs, cs);
    }
    forall k | 1 <= k < |a| ensures a[k] == b[k - 1] {
    }
  }

  /** The layout loop's chunk lengths are exactly the reference's. */
  lemma {:induction false} ChunkLengthsMatchPeel(len: nat, cs: nat)
    requires cs > 0
    ensures ChunkLengthsOf(len, cs) == Peel(len, cs)
    decreases len
  {
    if len == 0 {
      ChunkCountPositive(len, cs);
    } else if len <= cs {
      SingleChunk(len, cs);
    } else {
      ChunkLengthsMatchPeel(len - cs, cs);
      ChunkLengthsCons(len, cs);
    }
  }

  // ---------------------------------------------------------------------------
  // Slicing
  // ---------------------------------------------------------------------------

  /** Python's `s[lo:hi]` for non-negative bounds: both ends clamp to the length. */
  function PySlice<T>(s: seq<T>, lo: nat, hi: nat): (r: seq<T>)
    ensures hi <= |s| && lo <= hi ==> r == s[lo..hi]
  {
    var a := Min(lo, |s|);
    var b := Min(hi, |s|);
    if a <= b then s[a..b] else []
  }

  /** The width the slicing loop gives chunk `j` of `n` (it recomputes the
      layout's rule from the count it is handed). */
  function SliceWidth(len: nat, n: nat, cs: nat, j: nat): (r: nat)
    requires cs > 0
  {
    var remainder := len % cs;
    if j < n - 1 || remainder == 0 then cs else remainder
  }

  /** The chunks cut from one recording: chunk `j` starts at `j * cs`. */
  function SliceOne<T>(feat: seq<T>, len: nat, n: nat, cs: nat): (r: seq<seq<T>>)
    requires cs > 0
    ensures |r| == n
  {
    seq(n, j requires 0 <= j < n => PySlice(feat, j * cs, j * cs + SliceWidth(len, n, cs, j)))
  }

  /** The chunks of a batch, recording after recording. */
  function SliceSpec<T>(features: seq<seq<T>>, lens: seq<nat>, counts: seq<nat>, cs: nat): (r: seq<seq<T>>)
    requires cs > 0
    requires |features| == |lens| == |counts|
  {
    var m := |features|;
    if m == 0 then []
    else SliceSpec(features[..m - 1], lens[..m - 1], counts[..m - 1], cs)
         + SliceOne(features[m - 1], lens[m - 1], counts[m - 1], cs)
  }

  /** The inner loop of `_slice_feature_chunks`: the chunks of one recording,
      cut at `pos`, which advances by each chunk's width. */
  method SliceRecording<T>(feat: seq<T>, featLen: nat, numChunks: nat, cs: nat)
    returns (piece: seq<seq<T>>)
    requires cs > 0
    ensures piece == SliceOne(feat, featLen, numChunks, cs)
  {
    ghost var want := SliceOne(feat, featLen, numChunks, cs);
    piece := [];
    var pos := 0;
    var remainder := featLen % cs;
    var j := 0;
    while j < numChunks
      invariant 0 <= j <= numChunks
      invariant j < numChunks ==> pos == j * cs
      invariant piece == want[..j]
    {
      var clen := if j < numChunks - 1 || remainder == 0 then cs else remainder;
      assert piece + [PySlice(feat, pos, pos + clen)] == want[..j + 1] by {
        assert clen == SliceWidth(featLen, numChunks, cs, j);
        assert want[..j + 1] == want[..j] + [want[j]];
      }
      assert j + 1 < numChunks ==> pos + clen == (j + 1) * cs by {
        MulSucc(j, cs);
      }
      piece := piece + [PySlice(feat, pos, pos + clen)];
      pos := pos + clen;
      j := j + 1;
    }
    assert want[..j] == want;
  }

  /** `_slice_feature_chunks` (its `zip` stops at the shortest of the three lists). */
  method SliceFeatureChunks<T>(features: seq<seq<T>>, lens: seq<nat>, counts: seq<nat>, cs: nat)
    returns (chunks: seq<seq<T>>)
    requires cs > 0
    ensures var m := Min(|features|, Min(|lens|, |counts|));
            chunks == SliceSpec(features[..m], lens[..m], counts[..m], cs)
  {
    var m := Min(|features|, Min(|lens|, |counts|));
    chunks := [];
    var i := 0;
    while i < m
      invariant 0 <= i <= m
      invariant chunks == SliceSpec(features[..i], lens[..i], counts[..i], cs)
    {
      var piece := SliceRecording(features[i], lens[i], counts[i], cs);
      chunks := chunks + piece;
      assert features[..i + 1][..i] == features[..i];
      assert lens[..i + 1][..i] == lens[..i];
      assert counts[..i + 1][..i] == counts[..i];
      i := i + 1;
    }
  }

  /** Where chunk `j` of a recording ends. */
  function ChunkEnd(len: nat, cs: nat, j: nat): (r: nat)
    requires cs > 0
  {
    j * cs + ChunkLength(len, cs, j)
  }

  /** Chunk `j` of a recording is the frames from `j * cs` to its end, which
      is `(j + 1) * cs` for every chunk but the last and `len` for the last. */
  lemma ChunkAt<T>(feat: seq<T>, len: nat, cs: nat, j: nat)
    requires cs > 0 && len <= |feat|
    requires j < ChunkCount(len, cs)
    ensures j < ChunkCount(len, cs) - 1 ==> ChunkEnd(len, cs, j) == (j + 1) * cs
    ensures j == ChunkCount(len, cs) - 1 ==> ChunkEnd(len, cs, j) == len
    ensures j * cs <= ChunkEnd(len, cs, j) <= len
    ensures SliceOne(feat, len, ChunkCount(len, cs), cs)[j] == feat[j * cs..ChunkEnd(len, cs, j)]
  {
    var n := ChunkCount(len, cs);
    ChunkCountPositive(len, cs);
    LastChunkArithmetic(len, cs);
    assert j * cs <= (n - 1) * cs by {
      MulMonotone(j, n - 1, cs);
    }
    if j < n - 1 {
      assert ChunkEnd(len, cs, j) == (j + 1) * cs by {
        MulSucc(j, cs);
      }
      assert (j + 1) * cs <= (n - 1) * cs by {
        MulMonotone(j + 1, n - 1, cs);
      }
    }
  }

  /** `piece` is the frames from `lo` to `hi`. */
  ghost predicate CutAt<T>(feat: seq<T>, piece: seq<T>, lo: nat, hi: nat)
  {
    lo <= hi <= |feat| && piece == feat[lo..hi]
  }

  /** Pieces cut at consecutive boundaries concatenate back to the frames
      between the first boundary and the last. */
  lemma {:induction false} ConcatConsecutive<T>(feat: seq<T>, pieces: seq<seq<T>>, cuts: seq<nat>)
    requires |cuts| == |pieces| + 1 && cuts[0] <= |feat|
    requires forall j :: 0 <= j < |pieces| ==> CutAt(feat, pieces[j], cuts[j], cuts[j + 1])
    ensures cuts[0] <= cuts[|pieces|] <= |feat|
    ensures Concat(pieces) == feat[cuts[0]..cuts[|pieces|]]
  {
    if pieces != [] {
      var m := |pieces| - 1;
      ConcatConsecutive(feat, pieces[..m], cuts[..m + 1]);
      assert feat[cuts[0]..cuts[m + 1]] == feat[cuts[0]..cuts[m]] + feat[cuts[m]..cuts[m + 1]];
    }
  }

  /** The boundaries the slicing loop cuts one recording at: chunk `j` starts
      at `j * cs`, and the last one ends at `len`. */
  lemma SliceCuts<T>(feat: seq<T>, len: nat, cs: nat) returns (cuts: seq<nat>)
    requires cs > 0 && len <= |feat|
    ensures var n := ChunkCount(len, cs);
            && |cuts| == n + 1 && cuts[0] == 0 && cuts[n] == len
            && (forall j :: 0 <= j < n ==> cuts[j] == j * cs)
            && (forall j :: 0 <= j < n ==> CutAt(feat, SliceOne(feat, len, n, cs)[j], cuts[j], cuts[j + 1]))
  {
    var n := ChunkCount(len, cs);
    cuts := seq(n + 1, j requires 0 <= j <= n => if j < n then j * cs else len);
    forall j | 0 <= j < n
      ensures CutAt(feat, SliceOne(feat, len, n, cs)[j], cuts[j], cuts[j + 1])
    {
      ChunkAt(feat, len, cs, j);
    }
  }

  lemma SlicePrefix<T>(feat: seq<T>, len: nat, cs: nat, k: nat)
    requires cs > 0 && len <= |feat|
    requires k < ChunkCount(len, cs)
    ensures k * cs <= len
    ensures Concat(SliceOne(feat, len, ChunkCount(len, cs), cs)[..k]) == feat[..k * cs]
  {
    var chunks := SliceOne(feat, len, ChunkCount(len, cs), cs);
    var cuts := SliceCuts(feat, len, cs);
    ChunkAt(feat, len, cs, k);
    ConcatConsecutive(feat, chunks[..k], cuts[..k + 1]);
  }

  /** Slicing with the layout's counts cuts one recording into consecutive,
      non-overlapping chunks whose widths are the layout's and whose
      concatenation is exactly frames `[0, len)`. */
  lemma SliceCoversFrames<T>(feat: seq<T>, len: nat, cs: nat)
    requires cs > 0 && len <= |feat|
    ensures Lengths(SliceOne(feat, len, ChunkCount(len, cs), cs)) == ChunkLengthsOf(len, cs)
    ensures Concat(SliceOne(feat, len, ChunkCount(len, cs), cs)) == feat[..len]
  {
    var n := ChunkCount(len, cs);
    var chunks := SliceOne(feat, len, n, cs);
    forall j | 0 <= j < n ensures |chunks[j]| == ChunkLengthsOf(len, cs)[j] {
      ChunkAt(feat, len, cs, j);
    }
    var cuts := SliceCuts(feat, len, cs);
    ConcatConsecutive(feat, chunks, cuts);
  }

  // ---------------------------------------------------------------------------
  // Padding
  // ---------------------------------------------------------------------------

  datatype PadError = EmptyBatch | ShapeMismatch

  /** One chunk right-padded to `width` according to its recorded length. */
  function PadOne<T>(chunk: seq<T>, clen: nat, width: nat, zero: T): (r: seq<T>)
  {
    if clen < width then chunk + Repeat(zero, width - clen) else chunk
  }

  predicate SameWidth<T>(chunks: seq<seq<T>>, width: nat)
  {
    forall i :: 0 <= i < |chunks| ==> |chunks[i]| == width
  }

  /** `_pad_chunks`: pad every chunk to the longest recorded length and stack
      them; the maximum of an empty list and a stack of unequal shapes are errors. */
  method PadChunks<T>(chunks: seq<seq<T>>, lengths: seq<nat>, zero: T)
    returns (r: Result<(seq<seq<T>>, nat), PadError>)
    ensures lengths == [] ==> r == Err(EmptyBatch)
    ensures lengths != [] ==>
      var width := SeqMax(lengths);
      var m := Min(|chunks|, |lengths|);
      var padded := seq(m, i requires 0 <= i < m => PadOne(chunks[i], lengths[i], width, zero));
      r == if m > 0 && SameWidth(padded, |padded[0]|) then Ok((padded, width)) else Err(ShapeMismatch)
  {
    if lengths == [] {
      return Err(EmptyBatch);
    }
    var width := SeqMax(lengths);
    var m := Min(|chunks|, |lengths|);
    var padded: seq<seq<T>> := [];
    var i := 0;
    while i < m
      invariant 0 <= i <= m
      invariant |padded| == i
      invariant forall k :: 0 <= k < i ==> padded[k] == PadOne(chunks[k], lengths[k], width, zero)
    {
      var chunk, clen := chunks[i], lengths[i];
      if clen < width {
        chunk := chunk + Repeat(zero, width - clen);
      }
      padded := padded + [chunk];
      i := i + 1;
    }
    assert padded == seq(m, i requires 0 <= i < m => PadOne(chunks[i], lengths[i], width, zero));
    if m > 0 && SameWidth(padded, |padded[0]|) {
      r := Ok((padded, width));
    } else {
      r := Err(ShapeMismatch);
    }
  }

  /** When every chunk is as wide as its recorded length, every chunk comes
      out at the maximum width, its original frames unchanged in front and
      only zero frames after them. */
  lemma PadChunksShape<T>(chunks: seq<seq<T>>, lengths: seq<nat>, zero: T, i: nat)
    requires lengths != [] && |chunks| == |lengths|
    requires forall k :: 0 <= k < |chunks| ==> |chunks[k]| == lengths[k]
    requires i < |chunks|
    ensures var width := SeqMax(lengths);
            var p := PadOne(chunks[i], lengths[i], width, zero);
            && |p| == width
            && p[..lengths[i]] == chunks[i]
            && forall k :: lengths[i] <= k < width ==> p[k] == zero
  {
  }

  /** When every chunk is as wide as its recorded length, the padded chunks
      all have the maximum width, so `PadChunks` stacks them and succeeds. */
  lemma PadChunksSucceeds<T>(chunks: seq<seq<T>>, lengths: seq<nat>, zero: T)
    requires lengths != [] && |chunks| == |lengths|
    requires forall k :: 0 <= k < |chunks| ==> |chunks[k]| == lengths[k]
    ensures var width := SeqMax(lengths);
            var padded := seq(|chunks|, k requires 0 <= k < |chunks| => PadOne(chunks[k], lengths[k], width, zero));
            && |padded| > 0
            && SameWidth(padded, width)
            && |padded[0]| == width
  {
    var width := SeqMax(lengths);
    var padded := seq(|chunks|, k requires 0 <= k < |chunks| => PadOne(chunks[k], lengths[k], width, zero));
    forall k | 0 <= k < |padded|
      ensures |padded[k]| == width
    {
      PadChunksShape(chunks, lengths, zero, k);
    }
  }

  // ---------------------------------------------------------------------------
  // Trimming after the convolutions
  // ---------------------------------------------------------------------------

  /** `x[i, :n_i]` for every chunk, concatenated: drops each chunk's padding
      after the convolutions. */
  function Trim<E>(outs: seq<seq<E>>, keep: seq<nat>): (r: seq<E>)
    requires |keep| == |outs|
  {
    Concat(seq(|outs|, i requires 0 <= i < |outs| => PySlice(outs[i], 0, keep[i])))
  }

  /** When no chunk is asked to keep more than it has, the trimmed sequence is
      exactly `sum(keep)` long and is made of each chunk's prefix in order. */
  lemma {:induction false} TrimKeepsPrefixes<E>(outs: seq<seq<E>>, keep: seq<nat>)
    requires |keep| == |outs|
    requires forall i :: 0 <= i < |outs| ==> keep[i] <= |outs[i]|
    ensures |Trim(outs, keep)| == Sum(keep)
    ensures Trim(outs, keep) == Concat(seq(|outs|, i requires 0 <= i < |outs| => outs[i][..keep[i]]))
  {
    var pieces := seq(|outs|, i requires 0 <= i < |outs| => outs[i][..keep[i]]);
    assert seq(|outs|, i requires 0 <= i < |outs| => PySlice(outs[i], 0, keep[i])) == pieces;
    ConcatLength(pieces);
    assert Lengths(pieces) == keep;
  }
}
