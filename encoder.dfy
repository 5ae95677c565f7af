/** The length and window arithmetic of the audio encoder's forward pass
    (scripts/transcribe.py, `AudioEncoder.__init__` and `AudioEncoder.__call__`):
    how chunk lengths, per-chunk output lengths, the attention window and the
    window boundaries fit together. The tensors themselves are not modelled. */
module Encoder {
  import opened Basics
  import opened FeatLengths
  import opened Chunking
  import opened Windows
  import opened Masks

  /** The audio-encoder hyperparameters the model always runs with: the
      configuration loader keeps none of the file's values (see
      `ConfigLoader.FilterKwargs`), so the defaults apply. */
  const NumMelBins: nat := 128
  const NWindow: nat := 50
  const NWindowInfer: nat := 800

  /** `chunk_size = n_window * 2`. */
  const ChunkSize: nat := NWindow * 2

  /** `freq_after_conv`: the mel axis after three stride-2 convolutions, written
      as three nested ceiling halvings; it is `ceil(num_mel_bins / 8)`. */
  function FreqAfterConv(melBins: nat): (r: nat)
    ensures r == CeilDiv(melBins, 8)
  {
    ThreeHalvings(melBins);
    (((melBins + 1) / 2 + 1) / 2 + 1) / 2
  }

  /** Output length of one of the three convolutions (kernel 3, stride 2,
      padding 1) over `n` time steps: `floor((n + 2 - 3) / 2) + 1`. */
  function ConvOutLen(n: nat): (r: nat)
    ensures r == CeilDiv(n, 2)
  {
    HalvingIsCeil(n);
    FloorDiv(n + 2 - 3, 2) + 1
  }

  /** The time axis after the three convolutions: `ceil(n / 8)`. */
  function ConvStackLen(n: nat): (r: nat)
    ensures r == CeilDiv(n, 8)
  {
    ThreeHalvings(n);
    ConvOutLen(ConvOutLen(ConvOutLen(n)))
  }

  /** The post-convolution trim never needs Python's slice clamping: a chunk of
      `c` frames padded to `width <= 100` frames leaves at least
      `OutputLength(c)` vectors after the convolutions. */
  lemma TrimWithinConvOutput(c: nat, width: nat)
    requires c <= width <= ChunkSize
    ensures OutputLength(c) <= ConvStackLen(width)
  {
    OutputLengthBelowHundred(c);
  }

  /** `window_aftercnn = max_len_after_cnn * (n_window_infer // (n_window * 2))`;
      with the fixed configuration the factor is 8. */
  function WindowAftercnn(maxLenAfterCnn: nat): (r: nat)
    ensures r == 8 * maxLenAfterCnn
  {
    maxLenAfterCnn * (NWindowInfer / (NWindow * 2))
  }

  // ---------------------------------------------------------------------------
  // Chunk outputs add up to the whole recording's output
  // ---------------------------------------------------------------------------

  lemma OutputLengthsAppend(a: seq<nat>, b: seq<nat>)
    ensures OutputLengths(a + b) == OutputLengths(a) + OutputLengths(b)
  {
    assert |OutputLengths(a + b)| == |OutputLengths(a) + OutputLengths(b)|;
  }

  /** Number of chunks and the last chunk's frames, as quotient and remainder
      by the chunk size. */
  lemma ChunkCountByHundreds(len: nat)
    requires len > 0
    ensures var n := |ChunkLengthsOf(len, ChunkSize)|;
            var last := ChunkLengthsOf(len, ChunkSize)[n - 1];
            && n >= 1
            && (len % 100 == 0 ==> n == len / 100 && last == 100)
            && (len % 100 != 0 ==> n == len / 100 + 1 && last == len % 100)
  {
    var n := |ChunkLengthsOf(len, ChunkSize)|;
    ChunkLayoutOfOne(len, ChunkSize);
    LastChunkArithmetic(len, ChunkSize);
    var last := ChunkLengthsOf(len, ChunkSize)[n - 1];
    assert len == (n - 1) * 100 + last;
    if len % 100 == 0 {
      DivModUnique(len, 100, n, 0);
    } else {
      DivModUnique(len, 100, n - 1, last);
    }
  }

  /** The chunks of one recording, taken through the output-length formula one
      by one, give exactly the recording's own output length: every full chunk
      of 100 frames gives 13 and the last gives the remainder's share. */
  lemma ChunkOutputsSumToWhole(len: nat)
    ensures Sum(OutputLengths(ChunkLengthsOf(len, ChunkSize))) == OutputLength(len)
  {
    var widths := ChunkLengthsOf(len, ChunkSize);
    if len == 0 {
      assert widths == [];
      assert OutputLengths(widths) == [];
      OutputLengthBounds(0);
    } else {
      var n := |widths|;
      ChunkCountByHundreds(len);
      ChunkLayoutOfOne(len, ChunkSize);
      var last := widths[n - 1];
      SplitLastOutput(widths);
      FullChunksOutput(widths[..n - 1]);
      OutputLengthBelowHundred(last);
      OutputLengthClosedForm(len);
    }
  }

  /** Full chunks give 13 vectors each. */
  lemma FullChunksOutput(front: seq<nat>)
    requires forall j :: 0 <= j < |front| ==> front[j] == 100
    ensures Sum(OutputLengths(front)) == 13 * |front|
  {
    forall j | 0 <= j < |front| ensures OutputLengths(front)[j] == 13 {
      OutputLengthOfHundreds(1);
    }
    SumConstant(OutputLengths(front), 13);
  }

  lemma SplitLastOutput(widths: seq<nat>)
    requires widths != []
    ensures Sum(OutputLengths(widths))
            == Sum(OutputLengths(widths[..|widths| - 1])) + OutputLength(widths[|widths| - 1])
  {
    var front, last := widths[..|widths| - 1], widths[|widths| - 1];
    assert widths == front + [last];
    OutputLengthsAppend(front, [last]);
    SumAppend(OutputLengths(front), OutputLengths([last]));
    assert Sum(OutputLengths([last])) == OutputLength(last) by {
      assert OutputLengths([last])[..0] == [];
    }
  }

  /** Over a batch: the per-chunk output lengths sum to the per-recording ones. */
  lemma {:induction false} LayoutOutputsSum(lens: seq<nat>)
    ensures Sum(OutputLengths(LayoutSpec(lens, ChunkSize))) == Sum(OutputLengths(lens))
  {
    if lens != [] {
      var init, last := lens[..|lens| - 1], lens[|lens| - 1];
      var front, tail := LayoutSpec(init, ChunkSize), ChunkLengthsOf(last, ChunkSize);
      assert Sum(OutputLengths(LayoutSpec(lens, ChunkSize))) == Sum(OutputLengths(front)) + OutputLength(last) by {
        assert LayoutSpec(lens, ChunkSize) == front + tail;
        OutputLengthsAppend(front, tail);
        SumAppend(OutputLengths(front), OutputLengths(tail));
        ChunkOutputsSumToWhole(last);
      }
      assert Sum(OutputLengths(lens)) == Sum(OutputLengths(init)) + OutputLength(last) by {
        assert lens == init + [last];
        OutputLengthsAppend(init, [last]);
        SumAppend(OutputLengths(init), OutputLengths([last]));
        assert OutputLengths([last])[..0] == [];
      }
      LayoutOutputsSum(init);
    }
  }

  /** The batch yields no chunk at all exactly when every recording is empty. */
  lemma {:induction false} LayoutSpecEmpty(lens: seq<nat>, cs: nat)
    requires cs > 0
    ensures LayoutSpec(lens, cs) == [] <==> forall i :: 0 <= i < |lens| ==> lens[i] == 0
  {
    if lens != [] {
      var init, last := lens[..|lens| - 1], lens[|lens| - 1];
      LayoutSpecEmpty(init, cs);
      assert |ChunkLengthsOf(last, cs)| == 0 <==> last == 0;
      if LayoutSpec(lens, cs) == [] {
        forall i | 0 <= i < |lens| ensures lens[i] == 0 {
          if i < |lens| - 1 { assert lens[i] == init[i]; }
        }
      }
    }
  }

  // ---------------------------------------------------------------------------
  // The forward pass's bookkeeping
  // ---------------------------------------------------------------------------

  /** Everything `__call__` derives from the feature lengths. */
  datatype EncoderPlan = EncoderPlan(
    chunkCounts: seq<nat>,
    chunkLengths: seq<nat>,
    chunkOutLens: seq<nat>,
    window: nat,
    cu: seq<nat>,
    hiddenLen: nat)

  /** `chunk_lengths.max()` of an empty batch raises. */
  datatype EncoderError = NoChunks

  /** What `AudioEncoder.__call__` derives from the feature lengths, stated
      through the specifications: the chunk layout, each chunk's output
      length, a window of 8 times the longest chunk output, its boundaries
      over the recordings' output lengths, and all their vectors. */
  function PlanSpec(featureLens: seq<nat>): (r: Result<EncoderPlan, EncoderError>)
  {
    var lengths := LayoutSpec(featureLens, ChunkSize);
    if lengths == [] then Err(NoChunks)
    else
      var chunkOut := OutputLengths(lengths);
      LongestChunkOutput(featureLens);
      var window := 8 * SeqMax(chunkOut);
      var aftercnn := OutputLengths(featureLens);
      Ok(EncoderPlan(ChunkCounts(featureLens, ChunkSize), lengths, chunkOut, window,
                     CumSum([0] + AllWindowLengths(aftercnn, window)), SumNat(aftercnn)))
  }

  /** A non-empty layout's longest chunk gives at least one vector. */
  lemma LongestChunkOutput(featureLens: seq<nat>)
    requires LayoutSpec(featureLens, ChunkSize) != []
    ensures SeqMax(OutputLengths(LayoutSpec(featureLens, ChunkSize))) >= 1
  {
    var lengths := LayoutSpec(featureLens, ChunkSize);
    LayoutSpecProperties(featureLens, ChunkSize);
    OutputLengthBounds(lengths[0]);
  }

  /** The bookkeeping of `AudioEncoder.__call__`: the chunk layout, the
      per-chunk output lengths, the number of vectors left after trimming the
      padded convolution outputs, the attention window and its boundaries. */
  method PlanEncoder(featureLens: seq<nat>) returns (r: Result<EncoderPlan, EncoderError>)
    ensures r == PlanSpec(featureLens)
  {
    var counts, lengths := ComputeChunkLayout(featureLens, ChunkSize);
    if lengths == [] {
      return Err(NoChunks);
    }
    var width := SeqMax(lengths);
    var chunkOut := OutputLengths(lengths);
    // `x[i, : feature_lens_after_cnn[i]]` on a convolution output of `ConvStackLen(width)` vectors
    var trimmed := seq(|lengths|, i requires 0 <= i < |lengths| => Min(chunkOut[i], ConvStackLen(width)));
    var hiddenLen := Sum(trimmed);
    var maxOut := SeqMax(chunkOut);
    var window := WindowAftercnn(maxOut);
    var aftercnn := OutputLengths(featureLens);
    TrimKeepsEveryVector(featureLens, lengths, trimmed);
    assert hiddenLen == SumNat(aftercnn);
    var cu := BuildCuSeqlens(aftercnn, window);
    r := Ok(EncoderPlan(counts, lengths, chunkOut, window, cu, hiddenLen));
  }

  /** The plan fails exactly when every recording is empty; otherwise the
      window is positive and its boundaries start at 0, grow by at most the
      window, end at the number of encoder vectors and put every vector in a
      block of the attention mask. */
  lemma PlanProperties(featureLens: seq<nat>)
    ensures PlanSpec(featureLens).Err? <==> forall i :: 0 <= i < |featureLens| ==> featureLens[i] == 0
    ensures PlanSpec(featureLens).Ok? ==>
      var p := PlanSpec(featureLens).value;
      && p.window > 0
      && |p.cu| >= 1 && p.cu[0] == 0 && p.cu[|p.cu| - 1] == p.hiddenLen
      && (forall k :: 0 <= k < |p.cu| - 1 ==> p.cu[k] < p.cu[k + 1] <= p.cu[k] + p.window)
      && (forall i :: 0 <= i < p.hiddenLen ==> SharedBlock(p.cu, i, i))
  {
    LayoutSpecEmpty(featureLens, ChunkSize);
    if LayoutSpec(featureLens, ChunkSize) != [] {
      var p := PlanSpec(featureLens).value;
      var aftercnn := OutputLengths(featureLens);
      assert p.window > 0 && p.hiddenLen == Sum(aftercnn)
             && p.cu == CumSum([0] + AllWindowLengths(aftercnn, p.window)) by {
        LongestChunkOutput(featureLens);
      }
      CuCoversHidden(aftercnn, p.window);
    }
  }

  /** Trimming each padded chunk's output to its own output length keeps, over
      the batch, exactly as many vectors as the recordings' output lengths add
      up to; and the longest chunk output is at least one vector. */
  lemma TrimKeepsEveryVector(featureLens: seq<nat>, lengths: seq<nat>, trimmed: seq<int>)
    requires lengths == LayoutSpec(featureLens, ChunkSize) && lengths != []
    requires trimmed == seq(|lengths|, i requires 0 <= i < |lengths| =>
                              Min(OutputLengths(lengths)[i], ConvStackLen(SeqMax(lengths))))
    ensures trimmed == OutputLengths(lengths)
    ensures Sum(trimmed) == Sum(OutputLengths(featureLens))
    ensures SeqMax(OutputLengths(lengths)) >= 1
  {
    var width := SeqMax(lengths);
    var outs := OutputLengths(lengths);
    assert width <= ChunkSize by {
      LayoutSpecProperties(featureLens, ChunkSize);
    }
    forall i | 0 <= i < |lengths| ensures trimmed[i] == outs[i] {
      TrimWithinConvOutput(lengths[i], width);
    }
    assert trimmed == outs;
    LayoutOutputsSum(featureLens);
    LongestChunkOutput(featureLens);
  }

  /** The window boundaries over the recordings' output lengths end exactly at
      the number of encoder vectors, so every vector lies in a window. */
  lemma CuCoversHidden(aftercnn: seq<nat>, window: nat)
    requires window > 0
    ensures var cu := CumSum([0] + AllWindowLengths(aftercnn, window));
            && |cu| >= 1 && cu[0] == 0 && cu[|cu| - 1] == Sum(aftercnn)
            && (forall k :: 0 <= k < |cu| - 1 ==> cu[k] < cu[k + 1] <= cu[k] + window)
            && (forall i :: 0 <= i < Sum(aftercnn) ==> SharedBlock(cu, i, i))
  {
    var cu := CumSum([0] + AllWindowLengths(aftercnn, window));
    CuSeqlensProperties(aftercnn, window);
    SumNonNegative(aftercnn);
    forall i | 0 <= i < Sum(aftercnn) ensures SharedBlock(cu, i, i) {
      EveryVectorInOneBlock(cu, Sum(aftercnn), i);
    }
  }
}
