/** The index and shape structure of the reference log-mel pipeline
    (scripts/compare_mel.py, `create_mel_filterbank` and
    `compute_mel_manual`): reflect padding, framing, the triangular filterbank
    built from integer FFT bin points, and the global clamp-and-rescale
    normalisation. Samples and weights are `real`s; the mel/Hz conversions,
    the window, the FFT and the logarithm are parameters. */
module Mel {
  import opened Basics

  const SampleRate: nat := 16000
  const NFft: nat := 400
  const HopLength: nat := 160
  const NMels: nat := 128

  // ---------------------------------------------------------------------------
  // Reflect padding
  // ---------------------------------------------------------------------------

  /** Where position `i` (relative to the start of the signal) reads from in
      numpy's `reflect` mode: the signal mirrored about its first and last
      samples without repeating them, which repeats with period `2(n-1)`. */
  function Reflect(i: int, n: nat): (r: nat)
    requires n >= 2
    ensures r < n
    ensures 0 <= i < n ==> r == i
  {
    var period := 2 * (n - 1);
    var m := i % period;
    assert 0 <= i < n ==> m == i by {
      if 0 <= i < n {
        DivModUnique(i, period, 0, i);
      }
    }
    if m < n then m else period - m
  }

  datatype PadError = EmptyAxis

  /** `np.pad(signal, pad, mode="reflect")`: numpy refuses to pad an empty
      signal, and pads a one-sample signal with copies of that sample. */
  function ReflectPad(signal: seq<real>, pad: nat): (r: Result<seq<real>, PadError>)
    ensures r.Err? <==> signal == [] && pad > 0
    ensures r.Ok? ==> |r.value| == |signal| + 2 * pad
  {
    if pad == 0 then Ok(signal)
    else if |signal| == 0 then Err(EmptyAxis)
    else if |signal| == 1 then Ok(Repeat(signal[0], 2 * pad + 1))
    else Ok(seq(|signal| + 2 * pad, k requires 0 <= k < |signal| + 2 * pad =>
                  signal[Reflect(k - pad, |signal|)]))
  }

  /** The signal sits unchanged in the middle of its padding. */
  lemma ReflectPadKeepsSignal(signal: seq<real>, pad: nat)
    requires ReflectPad(signal, pad).Ok?
    ensures ReflectPad(signal, pad).value[pad..pad + |signal|] == signal
  {
    var r := ReflectPad(signal, pad).value;
    if pad > 0 && |signal| >= 2 {
      forall k | 0 <= k < |signal|
        ensures r[pad + k] == signal[k]
      {
        assert Reflect(pad + k - pad, |signal|) == k;
      }
    }
  }

  /** The padding mirrors the signal about its end samples: the `k`-th sample
      before the start is the `k`-th after it, and likewise at the end. */
  lemma ReflectPadMirrors(signal: seq<real>, pad: nat, k: nat)
    requires |signal| >= 2 && 1 <= k <= pad && k < |signal|
    ensures ReflectPad(signal, pad).value[pad - k] == signal[k]
    ensures ReflectPad(signal, pad).value[pad + |signal| - 1 + k] == signal[|signal| - 1 - k]
  {
    var n := |signal|;
    var period := 2 * (n - 1);
    DivModUnique(-(k as int), period, -1, period - k);
    assert Reflect(-(k as int), n) == k;
    if k < n - 1 {
      DivModUnique(n - 1 + k, period, 0, n - 1 + k);
    } else {
      DivModUnique(n - 1 + k, period, 1, 0);
    }
    assert Reflect(n - 1 + k, n) == n - 1 - k;
  }

  // ---------------------------------------------------------------------------
  // Framing
  // ---------------------------------------------------------------------------

  /** `(len(padded) - n_fft) // hop_length + 1` (a floor division; it is zero
      or negative when the padded signal is shorter than one frame, and then
      `range` yields no frame). */
  function FrameCount(paddedLen: nat, nFft: nat, hop: nat): (n: int)
    requires hop > 0
  {
    (paddedLen - nFft) / hop + 1
  }

  /** Every frame lies inside the padded signal, and one more would not. */
  lemma FramesInBounds(paddedLen: nat, nFft: nat, hop: nat, i: nat)
    requires hop > 0 && i < FrameCount(paddedLen, nFft, hop)
    ensures i * hop + nFft <= paddedLen
    ensures FrameCount(paddedLen, nFft, hop) * hop + nFft > paddedLen
  {
    var q := (paddedLen - nFft) / hop;
    assert q * hop <= paddedLen - nFft;
    MulMonotone(i, q, hop);
  }

  /** Padding by `n_fft // 2` on each side of `n` samples gives `n // hop + 1`
      frames when `n_fft` is even; one second at 16 kHz gives 101. */
  lemma FrameCountOfPaddedSignal(n: nat, nFft: nat, hop: nat)
    requires hop > 0 && nFft % 2 == 0
    ensures FrameCount(n + 2 * (nFft / 2), nFft, hop) == n / hop + 1
    ensures FrameCount(SampleRate + 2 * (NFft / 2), NFft, HopLength) == 101
  {
  }

  /** The spectrogram before normalisation: frame `i` is samples
      `[i*hop, i*hop + n_fft)` of the padded signal, run through `melOf`
      (window, FFT, power, filterbank, energy floor and logarithm). */
  function Frames(padded: seq<real>, nFft: nat, hop: nat, melOf: seq<real> -> seq<real>): (spec: seq<seq<real>>)
    requires hop > 0
    ensures |spec| == Max(0, FrameCount(|padded|, nFft, hop))
    ensures forall i :: 0 <= i < |spec| ==>
              i * hop + nFft <= |padded| && spec[i] == melOf(padded[i * hop..i * hop + nFft])
  {
    var count := Max(0, FrameCount(|padded|, nFft, hop));
    var spec := seq(count, i requires 0 <= i < count => FrameAt(padded, nFft, hop, melOf, i));
    assert forall i :: 0 <= i < count ==>
             i * hop + nFft <= |padded| && spec[i] == melOf(padded[i * hop..i * hop + nFft]) by {
      forall i | 0 <= i < count
        ensures i * hop + nFft <= |padded| && spec[i] == melOf(padded[i * hop..i * hop + nFft])
      {
        var m := FrameAt(padded, nFft, hop, melOf, i);
        assert spec[i] == m;
      }
    }
    spec
  }

  /** One spectrum of `Frames`; the frame lies inside the padded signal. */
  function FrameAt(padded: seq<real>, nFft: nat, hop: nat, melOf: seq<real> -> seq<real>, i: nat): (m: seq<real>)
    requires hop > 0 && i < FrameCount(|padded|, nFft, hop)
    ensures i * hop + nFft <= |padded| && m == melOf(padded[i * hop..i * hop + nFft])
  {
    FramesInBounds(|padded|, nFft, hop, i);
    melOf(padded[i * hop..i * hop + nFft])
  }

  /** The frame loop of `compute_mel_manual`. */
  method MelFrames(padded: seq<real>, nFft: nat, hop: nat, melOf: seq<real> -> seq<real>)
    returns (spec: seq<seq<real>>)
    requires hop > 0
    ensures spec == Frames(padded, nFft, hop, melOf)
  {
    var count := Max(0, FrameCount(|padded|, nFft, hop));
    ghost var want := Frames(padded, nFft, hop, melOf);
    spec := [];
    for i := 0 to count
      invariant spec == want[..i]
    {
      FramesInBounds(|padded|, nFft, hop, i);
      var frame := padded[i * hop..i * hop + nFft];
      spec := spec + [melOf(frame)];
    }
    assert want[..count] == want;
  }

  // ---------------------------------------------------------------------------
  // Filterbank
  // ---------------------------------------------------------------------------

  /** `floor((n_fft + 1) * hz / sample_rate)`. */
  function BinPoint(hz: real, nFft: nat, sampleRate: real): (b: int)
    requires sampleRate > 0.0
  {
    BinPosition(hz, nFft, sampleRate).Floor
  }

  /** `(n_fft + 1) * hz / sample_rate`, before the floor. */
  function BinPosition(hz: real, nFft: nat, sampleRate: real): (x: real)
    requires sampleRate > 0.0
  {
    (nFft + 1) as real * hz / sampleRate
  }

  function BinPoints(hzPoints: seq<real>, nFft: nat, sampleRate: real): (bins: seq<int>)
    requires sampleRate > 0.0
    ensures |bins| == |hzPoints|
    ensures forall k :: 0 <= k < |hzPoints| ==> bins[k] == BinPoint(hzPoints[k], nFft, sampleRate)
  {
    seq(|hzPoints|, k requires 0 <= k < |hzPoints| => BinPoint(hzPoints[k], nFft, sampleRate))
  }

  /** Increasing frequencies give non-decreasing bins, and frequencies from
      0 to the Nyquist frequency give bins from 0 to `(n_fft + 1) // 2`. */
  lemma BinPointBounds(hz: real, hz': real, nFft: nat, sampleRate: real)
    requires sampleRate > 0.0 && 0.0 <= hz <= hz' <= sampleRate / 2.0
    ensures 0 <= BinPoint(hz, nFft, sampleRate) <= BinPoint(hz', nFft, sampleRate)
    ensures BinPoint(hz', nFft, sampleRate) <= (nFft + 1) / 2
  {
    BinPositionMonotone(0.0, hz, nFft, sampleRate);
    BinPositionMonotone(hz, hz', nFft, sampleRate);
    BinPositionMonotone(hz', sampleRate / 2.0, nFft, sampleRate);
    BinPositionNyquist(nFft, sampleRate);
    FloorMonotone(0.0, BinPosition(hz, nFft, sampleRate));
    FloorMonotone(BinPosition(hz, nFft, sampleRate), BinPosition(hz', nFft, sampleRate));
    FloorMonotone(BinPosition(hz', nFft, sampleRate), (nFft + 1) as real / 2.0);
    assert ((nFft + 1) as real / 2.0).Floor == (nFft + 1) / 2;
  }

  lemma BinPositionMonotone(a: real, b: real, nFft: nat, sampleRate: real)
    requires sampleRate > 0.0 && a <= b
    ensures BinPosition(a, nFft, sampleRate) <= BinPosition(b, nFft, sampleRate)
    ensures a == 0.0 ==> BinPosition(a, nFft, sampleRate) == 0.0
  {
    ScaleMonotone((nFft + 1) as real, sampleRate, a, b);
  }

  /** The Nyquist frequency sits at `(n_fft + 1) / 2`. */
  lemma BinPositionNyquist(nFft: nat, sampleRate: real)
    requires sampleRate > 0.0
    ensures BinPosition(sampleRate / 2.0, nFft, sampleRate) == (nFft + 1) as real / 2.0
  {
  }

  /** Scaling by `n / d`, with `d` positive, keeps the order. */
  lemma ScaleMonotone(n: real, d: real, a: real, b: real)
    requires n >= 0.0 && d > 0.0 && a <= b
    ensures n * a / d <= n * b / d
  {
    assert n * a <= n * b;
  }

  lemma FloorMonotone(a: real, b: real)
    requires a <= b
    ensures a.Floor <= b.Floor
  {
  }

  /** Weight of FFT bin `j` in filter `i` on its rising edge (the first
      loop) or its falling edge (the second, which writes last). */
  function Weight(bins: seq<int>, i: nat, j: nat): (w: real)
    requires i + 2 < |bins|
  {
    var left, center, right := bins[i], bins[i + 1], bins[i + 2];
    if right > center && center <= j < right then Ratio(right - j, right - center)
    else Rising(left, center, j)
  }

  /** The rising edge alone: what the first loop leaves in the row. */
  function Rising(left: int, center: int, j: int): (w: real)
  {
    if center > left && left <= j < center then Ratio(j - left, center - left) else 0.0
  }

  /** `a / b` on integers, as a real. */
  function Ratio(a: int, b: int): (q: real)
    requires b > 0
  {
    a as real / b as real
  }

  /** `create_mel_filterbank`, from the `n_mels + 2` frequencies evenly
      spaced on the mel scale: a `n_mels` by `n_fft // 2 + 1` matrix of
      triangles over the FFT bins. */
  method CreateMelFilterbank(hzPoints: seq<real>, nFft: nat, nMels: nat, sampleRate: real)
    returns (fb: array2<real>)
    requires |hzPoints| == nMels + 2 && sampleRate > 0.0
    ensures fresh(fb) && fb.Length0 == nMels && fb.Length1 == nFft / 2 + 1
    ensures forall i, j :: 0 <= i < nMels && 0 <= j < fb.Length1 ==>
              fb[i, j] == Weight(BinPoints(hzPoints, nFft, sampleRate), i, j)
  {
    var nFreqs := nFft / 2 + 1;
    var bins := BinPoints(hzPoints, nFft, sampleRate);
    fb := new real[nMels, nFreqs]((i, j) => 0.0);
    for i := 0 to nMels
      invariant forall i', j :: 0 <= i' < i && 0 <= j < nFreqs ==> fb[i', j] == Weight(bins, i', j)
      invariant forall i', j :: i <= i' < nMels && 0 <= j < nFreqs ==> fb[i', j] == 0.0
    {
      FillFilter(fb, bins, i);
    }
  }

  /** One pass of the outer loop: row `i`'s rising edge, then its falling
      edge. */
  method FillFilter(fb: array2<real>, bins: seq<int>, i: nat)
    requires i < fb.Length0 && |bins| == fb.Length0 + 2
    requires forall j :: 0 <= j < fb.Length1 ==> fb[i, j] == 0.0
    modifies fb
    ensures forall j :: 0 <= j < fb.Length1 ==> fb[i, j] == Weight(bins, i, j)
    ensures forall i', j :: 0 <= i' < fb.Length0 && i' != i && 0 <= j < fb.Length1 ==>
              fb[i', j] == old(fb[i', j])
  {
    var nFreqs := fb.Length1;
    var left, center, right := bins[i], bins[i + 1], bins[i + 2];
    if center > left {
      var j := Max(0, left);
      while j < Min(nFreqs, center)
        invariant Max(0, left) <= j <= Max(Max(0, left), Min(nFreqs, center))
        invariant forall j' :: 0 <= j' < nFreqs ==> fb[i, j'] == if j' < j then Rising(left, center, j') else 0.0
        invariant forall i', j' :: 0 <= i' < fb.Length0 && i' != i && 0 <= j' < nFreqs ==>
                    fb[i', j'] == old(fb[i', j'])
        decreases nFreqs - j
      {
        fb[i, j] := Ratio(j - left, center - left);
        j := j + 1;
      }
    }
    assert forall j' :: 0 <= j' < nFreqs ==> fb[i, j'] == Rising(left, center, j');
    if right > center {
      var j := Max(0, center);
      while j < Min(nFreqs, right)
        invariant Max(0, center) <= j <= Max(Max(0, center), Min(nFreqs, right))
        invariant forall j' :: 0 <= j' < nFreqs ==>
                    fb[i, j'] == if center <= j' < j then Ratio(right - j', right - center) else Rising(left, center, j')
        invariant forall i', j' :: 0 <= i' < fb.Length0 && i' != i && 0 <= j' < nFreqs ==>
                    fb[i', j'] == old(fb[i', j'])
        decreases nFreqs - j
      {
        fb[i, j] := Ratio(right - j, right - center);
        j := j + 1;
      }
    }
  }

  /** Every weight lies between 0 and 1. */
  lemma WeightBounds(bins: seq<int>, i: nat, j: nat)
    requires i + 2 < |bins|
    ensures 0.0 <= Weight(bins, i, j) <= 1.0
  {
    var left, center, right := bins[i], bins[i + 1], bins[i + 2];
    if right > center && center <= j < right {
      RatioUnit(right - j, right - center);
    } else if center > left && left <= j < center {
      RatioUnit(j - left, center - left);
    }
  }

  /** A ratio of a part to the whole lies between 0 and 1. */
  lemma RatioUnit(a: int, b: int)
    requires 0 <= a <= b && b > 0
    ensures 0.0 <= Ratio(a, b) <= 1.0
  {
    assert Ratio(a, b) * b as real == a as real;
  }

  /** A filter is non-zero exactly strictly inside its triangle, and it
      peaks at 1 on its centre bin. */
  lemma WeightSupport(bins: seq<int>, i: nat, j: nat)
    requires i + 2 < |bins|
    ensures Weight(bins, i, j) > 0.0 <==> bins[i] < j < bins[i + 1] || bins[i + 1] <= j < bins[i + 2]
    ensures j == bins[i + 1] < bins[i + 2] ==> Weight(bins, i, j) == 1.0
  {
    var left, center, right := bins[i], bins[i + 1], bins[i + 2];
    if right > center && center <= j < right {
      RatioSign(right - j, right - center);
    } else if center > left && left <= j < center {
      RatioSign(j - left, center - left);
    }
  }

  /** A ratio over a positive denominator is positive exactly when its
      numerator is, and a number over itself is 1. */
  lemma RatioSign(a: int, b: int)
    requires b > 0
    ensures Ratio(a, b) > 0.0 <==> a > 0
    ensures a == b ==> Ratio(a, b) == 1.0
  {
  }

  /** The weights rise towards the centre and fall after it. */
  lemma WeightTriangle(bins: seq<int>, i: nat, j: nat, j': nat)
    requires i + 2 < |bins| && j < j'
    ensures bins[i] <= j && j' < bins[i + 1] ==> Weight(bins, i, j) < Weight(bins, i, j')
    ensures bins[i + 1] <= j && j' < bins[i + 2] ==> Weight(bins, i, j) > Weight(bins, i, j')
  {
    var left, center := bins[i], bins[i + 1];
    if left <= j && j' < center {
      var d := (center - left) as real;
      assert (j' - left) as real / d - (j - left) as real / d == (j' - j) as real / d;
    }
    var right := bins[i + 2];
    if center <= j && j' < right {
      var d := (right - center) as real;
      assert (right - j) as real / d - (right - j') as real / d == (j' - j) as real / d;
    }
  }

  // ---------------------------------------------------------------------------
  // Normalisation
  // ---------------------------------------------------------------------------

  function RealMax(a: real, b: real): (m: real)
  {
    if a >= b then a else b
  }

  /** The largest value of a row, none for an empty row. */
  function RowMax(row: seq<real>): (m: Option<real>)
    ensures m.None? <==> row == []
    ensures m.Some? ==> (forall k :: 0 <= k < |row| ==> row[k] <= m.value) && m.value in row
  {
    if row == [] then None
    else match RowMax(row[..|row| - 1])
      case None => Some(row[|row| - 1])
      case Some(x) => Some(RealMax(x, row[|row| - 1]))
  }

  predicate IsGlobalMax(spec: seq<seq<real>>, g: real)
  {
    && (forall t, k :: 0 <= t < |spec| && 0 <= k < |spec[t]| ==> spec[t][k] <= g)
    && (exists t, k :: 0 <= t < |spec| && 0 <= k < |spec[t]| && spec[t][k] == g)
  }

  /** `mel_spec.max()`: none when the spectrogram holds no value. */
  function GlobalMax(spec: seq<seq<real>>): (g: Option<real>)
    ensures g.None? <==> forall t :: 0 <= t < |spec| ==> spec[t] == []
    ensures g.Some? ==> IsGlobalMax(spec, g.value)
  {
    if spec == [] then None
    else
      var init := spec[..|spec| - 1];
      var last := spec[|spec| - 1];
      var g0 := GlobalMax(init);
      var m := RowMax(last);
      assert forall t :: 0 <= t < |init| ==> spec[t] == init[t];
      if g0.None? then
        if m.None? then None
        else
          var k :| 0 <= k < |last| && last[k] == m.value;
          assert spec[|spec| - 1][k] == m.value;
          Some(m.value)
      else if m.None? then g0
      else
        var k :| 0 <= k < |last| && last[k] == m.value;
        assert spec[|spec| - 1][k] == m.value;
        Some(RealMax(g0.value, m.value))
  }

  /** One normalised value: clamped from below at 8 under the global
      maximum, then shifted by 4 and divided by 4. */
  function Rescale(x: real, g: real): (y: real)
  {
    (RealMax(x, g - 8.0) + 4.0) / 4.0
  }

  /** The global normalisation of `compute_mel_manual`; `max` of an empty
      array raises, which is the `None` case. */
  function Normalise(spec: seq<seq<real>>): (r: Option<seq<seq<real>>>)
    ensures r.None? <==> GlobalMax(spec).None?
    ensures r.Some? ==> |r.value| == |spec|
    ensures r.Some? ==> forall t :: 0 <= t < |spec| ==> |r.value[t]| == |spec[t]|
  {
    match GlobalMax(spec)
    case None => None
    case Some(g) =>
      Some(seq(|spec|, t requires 0 <= t < |spec| =>
             seq(|spec[t]|, k requires 0 <= k < |spec[t]| => Rescale(spec[t][k], g))))
  }

  /** Every normalised value lies within 2 of the top value `(max + 4) / 4`,
      which some value reaches; values 8 or more below the maximum all land
      on the bottom; and the order of the values is kept. */
  lemma NormaliseRange(spec: seq<seq<real>>, t: nat, k: nat)
    requires Normalise(spec).Some? && t < |spec| && k < |spec[t]|
    ensures var g := GlobalMax(spec).value;
            var out := Normalise(spec).value;
            && (g - 4.0) / 4.0 <= out[t][k] <= (g + 4.0) / 4.0
            && (spec[t][k] <= g - 8.0 ==> out[t][k] == (g - 4.0) / 4.0)
            && (exists t', k' :: 0 <= t' < |spec| && 0 <= k' < |spec[t']| && out[t'][k'] == (g + 4.0) / 4.0)
  {
    var g := GlobalMax(spec).value;
    var out := Normalise(spec).value;
    assert out[t][k] == Rescale(spec[t][k], g);
    RescaleRange(spec[t][k], g);
    var t', k' :| 0 <= t' < |spec| && 0 <= k' < |spec[t']| && spec[t'][k'] == g;
    assert out[t'][k'] == Rescale(g, g);
  }

  /** One value at or below the maximum lands within 2 of the top. */
  lemma RescaleRange(x: real, g: real)
    requires x <= g
    ensures (g - 4.0) / 4.0 <= Rescale(x, g) <= (g + 4.0) / 4.0
    ensures x <= g - 8.0 ==> Rescale(x, g) == (g - 4.0) / 4.0
    ensures Rescale(g, g) == (g + 4.0) / 4.0
  {
  }

  /** Normalisation keeps the order of the values; above the floor at
      `max - 8` it keeps them strictly apart, and it never reverses or
      creates a strict difference. */
  lemma NormaliseMonotone(spec: seq<seq<real>>, t: nat, k: nat, t': nat, k': nat)
    requires Normalise(spec).Some?
    requires t < |spec| && k < |spec[t]| && t' < |spec| && k' < |spec[t']|
    ensures spec[t][k] <= spec[t'][k'] ==> Normalise(spec).value[t][k] <= Normalise(spec).value[t'][k']
    ensures GlobalMax(spec).value - 8.0 <= spec[t][k] < spec[t'][k'] ==>
              Normalise(spec).value[t][k] < Normalise(spec).value[t'][k']
    ensures Normalise(spec).value[t][k] < Normalise(spec).value[t'][k'] ==> spec[t][k] < spec[t'][k']
  {
    var g := GlobalMax(spec).value;
    assert Normalise(spec).value[t][k] == Rescale(spec[t][k], g);
    assert Normalise(spec).value[t'][k'] == Rescale(spec[t'][k'], g);
  }

  // ---------------------------------------------------------------------------
  // The whole pipeline
  // ---------------------------------------------------------------------------

  datatype MelError = CannotPad | NoValues

  /** `compute_mel_manual` with the default parameters: reflect padding by
      `n_fft // 2`, one spectrum per frame, then the global normalisation. */
  method ComputeMelManual(signal: seq<real>, melOf: seq<real> -> seq<real>)
    returns (r: Result<seq<seq<real>>, MelError>)
    ensures r.Err? <==> signal == [] || (forall i :: 0 <= i < |signal| / HopLength + 1 ==>
                          melOf(ReflectPad(signal, NFft / 2).value[i * HopLength..i * HopLength + NFft]) == [])
    ensures r.Ok? ==> |r.value| == |signal| / HopLength + 1
    ensures r.Ok? ==> ReflectPad(signal, NFft / 2).Ok?
                      && Normalise(Frames(ReflectPad(signal, NFft / 2).value, NFft, HopLength, melOf)) == Some(r.value)
  {
    var padded := ReflectPad(signal, NFft / 2);
    if padded.Err? {
      return Err(CannotPad);
    }
    FrameCountOfPaddedSignal(|signal|, NFft, HopLength);
    var spec := MelFrames(padded.value, NFft, HopLength, melOf);
    var normalised := Normalise(spec);
    if normalised.None? {
      return Err(NoValues);
    }
    r := Ok(normalised.value);
  }
}
