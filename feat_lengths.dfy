/** Length arithmetic of the audio encoder's convolutional front end
    (scripts/transcribe.py, `_floor_div` and `_get_feat_extract_output_lengths`). */
module FeatLengths {

  /** `_floor_div(a, b)`: the float division followed by `floor` gives the
      mathematical floor quotient for the small integers that reach it. */
  function FloorDiv(a: int, b: int): (q: int)
    requires b > 0
    ensures q * b <= a < q * b + b
  {
    a / b
  }

  /** The ceiling quotient of a non-negative number. */
  function CeilDiv(a: nat, b: nat): (r: nat)
    requires b > 0
  {
    (a + b - 1) / b
  }

  /** `CeilDiv(a, b)` is the least multiple count that covers `a`. */
  lemma CeilDivBounds(a: nat, b: nat)
    requires b > 0
    ensures (CeilDiv(a, b) - 1) * b < a <= CeilDiv(a, b) * b
  {
  }

  /** `_get_feat_extract_output_lengths` for one input length (frames of mel
      features): the remainder modulo 100 goes through three halvings, every
      full 100 frames contribute 13. */
  function OutputLength(n: nat): (r: int)
  {
    var leave := n % 100;
    var featLen := FloorDiv(leave - 1, 2) + 1;
    FloorDiv(FloorDiv(featLen - 1, 2) + 1 - 1, 2) + 1 + (n / 100) * 13
  }

  /** The element-wise application to a batch of lengths (never negative, by
      `OutputLengthBounds`). */
  function OutputLengths(ns: seq<nat>): (r: seq<nat>)
    ensures |r| == |ns|
    ensures forall i :: 0 <= i < |ns| ==> r[i] == OutputLength(ns[i])
  {
    seq(|ns|, i requires 0 <= i < |ns| => OutputLengthNat(ns[i]))
  }

  function OutputLengthNat(n: nat): (r: nat)
    ensures r == OutputLength(n)
  {
    OutputLengthBounds(n);
    OutputLength(n)
  }

  /** One halving of the form used three times: `floor((x - 1) / 2) + 1` is
      `ceil(x / 2)` for every `x >= 0`. */
  lemma HalvingIsCeil(x: nat)
    ensures FloorDiv(x - 1, 2) + 1 == CeilDiv(x, 2)
  {
  }

  /** Three successive ceiling halvings are one ceiling division by 8. */
  lemma ThreeHalvings(x: nat)
    ensures CeilDiv(CeilDiv(CeilDiv(x, 2), 2), 2) == CeilDiv(x, 8)
  {
    var a := CeilDiv(x, 2);
    var b := CeilDiv(a, 2);
    assert x <= 2 * a <= x + 1;
    assert a <= 2 * b <= a + 1;
  }

  /** The exact closed form: `13 * (n div 100) + ceil((n mod 100) / 8)`. */
  lemma OutputLengthClosedForm(n: nat)
    ensures OutputLength(n) == 13 * (n / 100) + CeilDiv(n % 100, 8)
  {
    var leave := n % 100;
    HalvingIsCeil(leave);
    var f := CeilDiv(leave, 2);
    HalvingIsCeil(f);
    var g := CeilDiv(f, 2);
    HalvingIsCeil(g);
    ThreeHalvings(leave);
  }

  /** Every further 100 input frames add exactly 13 output vectors. */
  lemma OutputLengthPerHundred(n: nat)
    ensures OutputLength(n + 100) == OutputLength(n) + 13
  {
    OutputLengthClosedForm(n);
    OutputLengthClosedForm(n + 100);
  }

  /** A whole number of hundreds maps to a multiple of 13: the remainder term
      vanishes. */
  lemma OutputLengthOfHundreds(k: nat)
    ensures OutputLength(100 * k) == 13 * k
  {
    OutputLengthClosedForm(100 * k);
  }

  /** The output length is positive exactly for positive input and never
      larger than the input. */
  lemma OutputLengthBounds(n: nat)
    ensures 0 <= OutputLength(n) <= n
    ensures OutputLength(n) == 0 <==> n == 0
  {
    OutputLengthClosedForm(n);
  }

  /** The output length never decreases as the input grows (it is flat from
      99 to 100 frames, where the remainder term's 13 becomes the block's 13). */
  lemma OutputLengthMonotone(m: nat, n: nat)
    requires m <= n
    ensures OutputLength(m) <= OutputLength(n)
  {
    OutputLengthClosedForm(m);
    OutputLengthClosedForm(n);
    if m / 100 < n / 100 {
      assert CeilDiv(m % 100, 8) <= 13;
      assert 13 * (m / 100) + 13 <= 13 * (n / 100);
    } else {
      assert m / 100 == n / 100;
      assert m % 100 <= n % 100;
    }
  }

  /** Below 100 frames the formula is exactly `ceil(n / 8)`, the output of
      three stride-2 convolutions. */
  lemma OutputLengthBelowHundred(n: nat)
    requires n <= 100
    ensures OutputLength(n) == CeilDiv(n, 8)
  {
    OutputLengthClosedForm(n);
    if n == 100 {
      assert n / 100 == 1 && n % 100 == 0;
      assert CeilDiv(0, 8) == 0 && CeilDiv(100, 8) == 13;
    } else {
      assert n / 100 == 0 && n % 100 == n;
    }
  }
}
