/** Small shared vocabulary: failure-carrying results and folds over sequences. */
module Basics {

  datatype Option<+T> = None | Some(value: T)

  datatype Result<+T, +E> = Ok(value: T) | Err(error: E)

  /** Sum of a sequence of integers (`sum(...)` / the last entry of `np.cumsum`). */
  function Sum(s: seq<int>): (r: int)
  {
    if s == [] then 0 else Sum(s[..|s| - 1]) + s[|s| - 1]
  }

  lemma SumAppend(s: seq<int>, t: seq<int>)
    ensures Sum(s + t) == Sum(s) + Sum(t)
    decreases |t|
  {
    if t == [] {
      assert s + t == s;
    } else {
      assert (s + t)[..|s + t| - 1] == s + t[..|t| - 1];
      SumAppend(s, t[..|t| - 1]);
    }
  }

  lemma SumNonNegative(s: seq<int>)
    requires forall i :: 0 <= i < |s| ==> s[i] >= 0
    ensures Sum(s) >= 0
  {
    if s != [] {
      SumNonNegative(s[..|s| - 1]);
    }
  }

  /** Concatenation of a list of lists (`np.concatenate` / `list.extend` in a loop). */
  function Concat<T>(ss: seq<seq<T>>): (r: seq<T>)
  {
    if ss == [] then [] else Concat(ss[..|ss| - 1]) + ss[|ss| - 1]
  }

  lemma {:induction false} ConcatAppend<T>(ss: seq<seq<T>>, tt: seq<seq<T>>)
    ensures Concat(ss + tt) == Concat(ss) + Concat(tt)
    decreases |tt|
  {
    if tt == [] {
      assert ss + tt == ss;
    } else {
      var init := tt[..|tt| - 1];
      ConcatAppend(ss, init);
      assert (ss + tt)[..|ss + tt| - 1] == ss + init;
      assert (ss + tt)[|ss + tt| - 1] == tt[|tt| - 1];
    }
  }

  /** `f` applied to every element, the results concatenated in order. */
  function FlatMap<A, B>(f: A -> seq<B>, xs: seq<A>): (r: seq<B>)
  {
    if xs == [] then [] else FlatMap(f, xs[..|xs| - 1]) + f(xs[|xs| - 1])
  }

  lemma {:induction false} FlatMapAppend<A, B>(f: A -> seq<B>, xs: seq<A>, ys: seq<A>)
    ensures FlatMap(f, xs + ys) == FlatMap(f, xs) + FlatMap(f, ys)
    decreases |ys|
  {
    if ys == [] {
      assert xs + ys == xs;
    } else {
      var init := ys[..|ys| - 1];
      FlatMapAppend(f, xs, init);
      assert (xs + ys)[..|xs + ys| - 1] == xs + init;
      assert (xs + ys)[|xs + ys| - 1] == ys[|ys| - 1];
    }
  }

  /** The lengths of the pieces of a list of lists. */
  function Lengths<T>(ss: seq<seq<T>>): (r: seq<int>)
    ensures |r| == |ss|
    ensures forall i :: 0 <= i < |ss| ==> r[i] == |ss[i]|
  {
    seq(|ss|, i requires 0 <= i < |ss| => |ss[i]|)
  }

  lemma ConcatLength<T>(ss: seq<seq<T>>)
    ensures |Concat(ss)| == Sum(Lengths(ss))
  {
    if ss != [] {
      ConcatLength(ss[..|ss| - 1]);
      assert Lengths(ss)[..|ss| - 1] == Lengths(ss[..|ss| - 1]);
    }
  }

  /** `n` copies of `x` (`[x] * n`). */
  function Repeat<T>(x: T, n: nat): (r: seq<T>)
    ensures |r| == n
    ensures forall i :: 0 <= i < n ==> r[i] == x
  {
    if n == 0 then [] else Repeat(x, n - 1) + [x]
  }

  /** A sequence of `n` equal entries sums to `n` times the entry. */
  lemma {:induction false} SumConstant(s: seq<int>, x: int)
    requires forall i :: 0 <= i < |s| ==> s[i] == x
    ensures Sum(s) == x * |s|
  {
    if s != [] {
      SumConstant(s[..|s| - 1], x);
    }
  }

  /** Largest entry of a non-empty sequence (`arr.max()`). */
  function SeqMax(s: seq<int>): (m: int)
    requires s != []
    ensures forall i :: 0 <= i < |s| ==> s[i] <= m
    ensures exists i :: 0 <= i < |s| && s[i] == m
  {
    if |s| == 1 then s[0]
    else
      var m' := SeqMax(s[..|s| - 1]);
      assert forall i :: 0 <= i < |s| - 1 ==> s[..|s| - 1][i] == s[i];
      if s[|s| - 1] > m' then s[|s| - 1] else m'
  }

  /** Euclidean division is determined by its defining equation. */
  lemma DivModUnique(a: int, b: int, q: int, r: int)
    requires b > 0 && a == q * b + r && 0 <= r < b
    ensures a / b == q && a % b == r
  {
    var q', r' := a / b, a % b;
    assert a == q' * b + r';
    var d := q' - q;
    assert d * b == q' * b - q * b;
    assert d * b == r - r';
    if d > 0 {
      MulMonotone(1, d, b);
    }
  }

  /** Euclidean division splits a number into whole divisors and a remainder. */
  lemma DivModSplit(a: int, b: int)
    requires b > 0
    ensures a == b * (a / b) + a % b
  {
  }

  lemma MulMonotone(x: int, y: int, b: nat)
    requires x <= y
    ensures x * b <= y * b
  {
    assert y * b - x * b == (y - x) * b;
  }

  /** One more multiple: `(k + 1) * c` is `k * c + c`. */
  lemma MulSucc(k: int, c: int)
    ensures (k + 1) * c == k * c + c
  {
  }

  function Min(a: int, b: int): (r: int) { if a <= b then a else b }

  function Max(a: int, b: int): (r: int) { if a >= b then a else b }
}
