/** The radix-2 Cooley-Tukey transform of `noise-reduction/FFT.ts`: a
    bit-reversal pass followed by `log2 N` butterfly stages, and the inverse
    built from it by conjugation and division by `N`. The functional
    definitions below are the specification; `FftMethod` is the source's
    in-place loop nest, proved to compute the same sequence. */
module Fft {
  import opened Common
  import opened ComplexNumbers
  import opened Bits

  /** The input index that the first pass moves to position `i`. */
  function RevIndex(i: nat, levels: nat): (j: nat)
    ensures j < Pow2(levels)
  {
    ReverseBound(i, levels);
    Reverse(i, levels)
  }

  /** The first pass: position `i` receives input position `Reverse(i)`. */
  function BitReversal(a: seq<Complex>, levels: nat): (r: seq<Complex>)
    requires |a| == Pow2(levels)
    ensures |r| == |a|
  {
    seq(|a|, i requires 0 <= i < |a| => a[RevIndex(i, levels)])
  }

  /** The first pass is its own inverse, so it permutes the input: every
      element moves to the mirror position and nothing is lost or repeated. */
  lemma BitReversalInvolution(a: seq<Complex>, levels: nat)
    requires |a| == Pow2(levels)
    ensures BitReversal(BitReversal(a, levels), levels) == a
    ensures forall i :: 0 <= i < |a| ==> BitReversal(a, levels)[RevIndex(i, levels)] == a[i]
  {
    forall i | 0 <= i < |a|
      ensures RevIndex(RevIndex(i, levels), levels) == i
    {
      ReverseInvolution(i, levels);
    }
  }

  /** The first pass as the source runs it: for each `i`, build `j` one bit
      at a time and swap positions `i` and `j` when `i < j`. */
  method BitReverseCopy(a: seq<Complex>, levels: nat) returns (out: seq<Complex>)
    requires |a| == Pow2(levels)
    ensures out == BitReversal(a, levels)
  {
    var n := |a|;
    out := a;
    var i := 0;
    while i < n
      invariant 0 <= i <= n && |out| == n
      invariant forall k :: 0 <= k < n ==>
        out[k] == (if k < i || RevIndex(k, levels) < i then a[RevIndex(k, levels)] else a[k])
    {
      var j := 0;
      var bit := 0;
      while bit < levels
        invariant 0 <= bit <= levels
        invariant j == Reverse(i, bit)
      {
        j := 2 * j + Bit(i, bit);
        bit := bit + 1;
      }
      ReverseInvolution(i, levels);
      assert j == RevIndex(i, levels) && RevIndex(j, levels) == i;
      if i < j {
        out := out[i := out[j]][j := out[i]];
      }
      forall k | 0 <= k < n
        ensures out[k] == (if k < i + 1 || RevIndex(k, levels) < i + 1 then a[RevIndex(k, levels)] else a[k])
      {
        if k != i && k != j && RevIndex(k, levels) == i {
          ReverseInvolution(k, levels);
        }
      }
      i := i + 1;
    }
  }

  /** `k = j * tableStep` with `tableStep = N / size`: the twiddle factor
      `exp(-2πik/N)` of butterfly `j` in a stage of block size `size`. */
  function Twiddle(m: Numerics, j: int, size: nat, n: nat): Complex
    requires 0 < size
  {
    m.twiddle(j * (n / size), n)
  }

  lemma MulMono(s: int, x: int, y: int)
    requires 0 <= s && x <= y
    ensures s * x <= s * y
  {
    assert s * y - s * x == s * (y - x);
  }

  /** The partner of position `p`, in a stage whose blocks of `size`
      positions tile a sequence of length `n`, lies half a block further on
      (first half of a block) or half a block back (second half). */
  lemma PartnerInRange(n: nat, size: nat, half: nat, p: nat)
    requires 0 < half && size == 2 * half && n % size == 0 && p < n
    ensures p % size < half ==> p + half < n
    ensures p % size >= half ==> half <= p
  {
    var b, k := p / size, n / size;
    assert p == size * b + p % size;
    assert n == size * k;
    if b < 0 {
      MulMono(size, b, -1);
    } else if b >= k {
      MulMono(size, k, b);
    } else {
      MulMono(size, b, k - 1);
    }
  }

  /** Facts about the stage with block size `2^s` in a transform of length
      `2^levels`: blocks tile the sequence, and the half-block size. */
  lemma StageShape(s: nat, levels: nat)
    requires 1 <= s <= levels
    ensures Pow2(s) == 2 * Pow2(s - 1)
    ensures Pow2(levels) % Pow2(s) == 0
  {
    Pow2Divides(s, levels);
  }

  /** Position `p` after the butterfly stage with block size `2^s`: the
      first half of each block takes `x + w·y`, the second half `x − w·y`,
      for the pair `(x, y)` half a block apart. */
  function StageValue(m: Numerics, a: seq<Complex>, s: nat, levels: nat, p: nat): Complex
    requires 1 <= s <= levels && |a| == Pow2(levels) && p < |a|
  {
    var size := Pow2(s);
    var half := Pow2(s - 1);
    StageShape(s, levels);
    PartnerInRange(|a|, size, half, p);
    var q := p % size;
    if q < half then Add(a[p], Mul(Twiddle(m, q, size, |a|), a[p + half]))
    else Sub(a[p - half], Mul(Twiddle(m, q - half, size, |a|), a[p]))
  }

  function Stage(m: Numerics, a: seq<Complex>, s: nat, levels: nat): (r: seq<Complex>)
    requires 1 <= s <= levels && |a| == Pow2(levels)
    ensures |r| == |a|
  {
    seq(|a|, p requires 0 <= p < |a| => StageValue(m, a, s, levels, p))
  }

  /** Stages `1 .. s` applied in order (block sizes 2, 4, …, 2^s). */
  function StagesUpTo(m: Numerics, a: seq<Complex>, s: nat, levels: nat): (r: seq<Complex>)
    requires s <= levels && |a| == Pow2(levels)
    ensures |r| == |a|
  {
    if s == 0 then a else Stage(m, StagesUpTo(m, a, s - 1, levels), s, levels)
  }

  /** The lengths the transform accepts: 0, 1 and the powers of two. */
  predicate Transformable(n: nat) {
    n <= 1 || IsPow2(n)
  }

  /** `new FFT(a).fft()`. Lengths 0 and 1 come back unchanged. Any other
      length that is not a power of two makes some butterfly read an element
      that is not there (a swap past the end, or a block that overhangs the
      end) and throw, which is the failure here. */
  function Transform(m: Numerics, a: seq<Complex>): (r: Result<seq<Complex>>)
    ensures r.Success? <==> Transformable(|a|)
    ensures r.Success? ==> |r.value| == |a|
    ensures |a| <= 1 ==> r == Success(a)
  {
    if |a| <= 1 then Success(a)
    else if !IsPow2(|a|) then Failure(InvalidLength)
    else
      var levels := Log2(|a|);
      Success(StagesUpTo(m, BitReversal(a, levels), levels, levels))
  }

  /** The last step of the inverse: conjugate and divide by `n`. */
  function Unconj(c: Complex, n: real): Complex
    requires n != 0.0
  {
    Complex(c.re / n, -c.im / n)
  }

  /** `new FFT(a).ifft()`: conjugate, transform, conjugate and divide by `N`. */
  function Inverse(m: Numerics, a: seq<Complex>): (r: Result<seq<Complex>>)
    ensures r.Success? <==> Transformable(|a|)
    ensures r.Success? ==> |r.value| == |a|
  {
    var n := |a| as real;
    var c :- Transform(m, seq(|a|, i requires 0 <= i < |a| => Conj(a[i])));
    Success(seq(|c|, i requires 0 <= i < |c| => Unconj(c[i], n)))
  }

  /** A block that starts inside the sequence ends inside it. */
  lemma BlockEnd(n: nat, size: nat, blk: nat)
    requires 0 < size && n % size == 0 && blk * size < n
    ensures blk * size + size <= n
  {
    var k := n / size;
    assert n == size * k;
    if blk >= k {
      MulMono(size, k, blk);
    } else {
      MulMono(size, blk, k - 1);
    }
  }

  /** The two outputs of butterfly `j` in block `blk` of stage `s`. */
  lemma Butterfly(m: Numerics, a: seq<Complex>, s: nat, levels: nat, blk: nat, j: nat)
    requires 1 <= s <= levels && |a| == Pow2(levels)
    requires j < Pow2(s - 1) && blk * Pow2(s) < |a|
    ensures blk * Pow2(s) + Pow2(s) <= |a|
    ensures var i, half, w := blk * Pow2(s), Pow2(s - 1), Twiddle(m, j, Pow2(s), |a|);
      Stage(m, a, s, levels)[i + j] == Add(a[i + j], Mul(w, a[i + j + half])) &&
      Stage(m, a, s, levels)[i + j + half] == Sub(a[i + j], Mul(w, a[i + j + half]))
  {
    var size, half := Pow2(s), Pow2(s - 1);
    StageShape(s, levels);
    BlockEnd(|a|, size, blk);
    DivModBlock(blk, size, j);
    DivModBlock(blk, size, j + half);
  }

  /** Inside block `[i, i + 2·half)`, the first `j` pairs hold the stage's
      output; everything else still holds the input. */
  predicate PairsWritten(a: seq<Complex>, spec: seq<Complex>, out: seq<Complex>, i: nat, j: nat, half: nat) {
    |a| == |spec| == |out| &&
    forall p :: 0 <= p < |a| ==>
      out[p] == (if p < i + j || i + half <= p < i + half + j then spec[p] else a[p])
  }

  /** One turn of the source's inner loop: the butterfly on pair `j`
      writes that pair's stage output. */
  lemma ButterflyStep(m: Numerics, a: seq<Complex>, s: nat, levels: nat, blk: nat, j: nat, out: seq<Complex>,
                      i: nat, half: nat, tableStep: nat)
    requires 1 <= s <= levels && |a| == Pow2(levels)
    requires i == blk * Pow2(s) && half == Pow2(s - 1) && tableStep == |a| / Pow2(s)
    requires j < half && i < |a|
    requires PairsWritten(a, Stage(m, a, s, levels), out, i, j, half)
    ensures i + j + half < |a|
    ensures var t := Mul(m.twiddle(j * tableStep, |a|), out[i + j + half]);
      PairsWritten(a, Stage(m, a, s, levels),
                   out[i + j + half := Sub(out[i + j], t)][i + j := Add(out[i + j], t)],
                   i, j + 1, half)
  {
    StageShape(s, levels);
    Butterfly(m, a, s, levels, blk, j);
    assert out[i + j] == a[i + j] && out[i + j + half] == a[i + j + half];
    var t := Mul(m.twiddle(j * (|a| / Pow2(s)), |a|), out[i + j + half]);
    PairWritten(a, Stage(m, a, s, levels), out, i, j, half, Add(out[i + j], t), Sub(out[i + j], t));
  }

  /** The twiddle index `k = j · tableStep` of a butterfly stays in the
      first half of the `N`-point table, where `N = 2^levels`. */
  lemma TwiddleIndexBound(levels: nat, s: nat, j: nat)
    requires 1 <= s <= levels && j < Pow2(s - 1)
    ensures j * (Pow2(levels) / Pow2(s)) < Pow2(levels) / 2
  {
    var t := Pow2(levels - s);
    Pow2Divides(s, levels);
    assert Pow2(levels) / Pow2(s) == t;
    assert Pow2(1) == 2;
    Pow2Divides(1, levels);
    Pow2Add(s - 1, levels - s);
    assert s - 1 + (levels - s) == levels - 1;
    MulStrict(j, Pow2(s - 1), t);
  }

  lemma MulStrict(x: nat, y: nat, t: nat)
    requires x < y && 0 < t
    ensures x * t < y * t
  {
    assert y * t - x * t == (y - x) * t;
  }

  /** Storing the stage's values of pair `j` extends the written part by
      that pair. */
  lemma PairWritten(a: seq<Complex>, spec: seq<Complex>, out: seq<Complex>, i: nat, j: nat, half: nat,
                    lo: Complex, hi: Complex)
    requires PairsWritten(a, spec, out, i, j, half) && j < half && i + j + half < |a|
    requires lo == spec[i + j] && hi == spec[i + j + half]
    ensures PairsWritten(a, spec, out[i + j + half := hi][i + j := lo], i, j + 1, half)
  {
  }

  /** The butterflies of one block, as the source's inner loop runs them:
      positions before the block already hold the stage's output, and after
      the call the block does too. */
  method ApplyBlock(m: Numerics, a: seq<Complex>, s: nat, levels: nat, blk: nat, cur: seq<Complex>)
    returns (out: seq<Complex>)
    requires 1 <= s <= levels && |a| == Pow2(levels) && |cur| == |a|
    requires blk * Pow2(s) < |a|
    requires forall p :: 0 <= p < |a| ==>
      cur[p] == (if p < blk * Pow2(s) then Stage(m, a, s, levels)[p] else a[p])
    ensures |out| == |a| && blk * Pow2(s) + Pow2(s) <= |a|
    ensures forall p :: 0 <= p < |a| ==>
      out[p] == (if p < blk * Pow2(s) + Pow2(s) then Stage(m, a, s, levels)[p] else a[p])
  {
    var n := |a|;
    var size := Pow2(s);
    StageShape(s, levels);
    BlockEnd(n, size, blk);
    var half := size / 2;
    assert half == Pow2(s - 1);
    var tableStep := n / size;
    var i := blk * size;
    ghost var spec := Stage(m, a, s, levels);
    out := cur;
    var j := 0;
    while j < half
      invariant 0 <= j <= half
      invariant PairsWritten(a, spec, out, i, j, half)
    {
      ButterflyStep(m, a, s, levels, blk, j, out, i, half, tableStep);
      var k := j * tableStep;
      var w := m.twiddle(k, n);
      var t := Mul(w, out[i + j + half]);
      out := out[i + j + half := Sub(out[i + j], t)][i + j := Add(out[i + j], t)];
      j := j + 1;
    }
  }

  /** One butterfly stage as the source runs it: blocks at `i = 0, size,
      2·size, …`, each handled by `ApplyBlock`. */
  method ApplyStage(m: Numerics, a: seq<Complex>, s: nat, levels: nat) returns (out: seq<Complex>)
    requires 1 <= s <= levels && |a| == Pow2(levels)
    ensures out == Stage(m, a, s, levels)
  {
    var n := |a|;
    var size := Pow2(s);
    ghost var spec := Stage(m, a, s, levels);
    out := a;
    var i := 0;
    var blk := 0;
    while i < n
      invariant i == blk * size && i <= n && |out| == n
      invariant forall p :: 0 <= p < n ==> out[p] == (if p < i then spec[p] else a[p])
    {
      out := ApplyBlock(m, a, s, levels, blk, out);
      i := i + size;
      blk := blk + 1;
    }
  }

  /** The whole transform as the source runs it. */
  method FftMethod(m: Numerics, a: seq<Complex>) returns (r: Result<seq<Complex>>)
    ensures r == Transform(m, a)
  {
    var n := |a|;
    if n <= 1 {
      return Success(a);
    }
    if !IsPow2(n) {
      return Failure(InvalidLength);
    }
    var levels := Log2(n);
    var out := BitReverseCopy(a, levels);
    out := RunStages(m, out, levels);
    return Success(out);
  }

  /** The source's outer loop `for (size = 2; size <= N; size *= 2)`: one
      butterfly stage per block size, `levels` of them in all. */
  method RunStages(m: Numerics, a: seq<Complex>, levels: nat) returns (out: seq<Complex>)
    requires |a| == Pow2(levels)
    ensures out == StagesUpTo(m, a, levels, levels)
  {
    var n := |a|;
    out := a;
    var s := 1;
    var size := 2;
    while size <= n
      invariant 1 <= s <= levels + 1 && size == Pow2(s)
      invariant out == StagesUpTo(m, a, s - 1, levels)
    {
      Pow2Below(s, levels);
      out := ApplyStage(m, out, s, levels);
      s := s + 1;
      size := size * 2;
    }
    if s <= levels {
      Pow2Mono(s, levels);
    }
  }

  /** Each butterfly output is additive in the stage's input. */
  lemma StageValueAdditive(m: Numerics, a: seq<Complex>, b: seq<Complex>, s: nat, levels: nat, p: nat)
    requires 1 <= s <= levels && |a| == |b| == Pow2(levels) && p < |a|
    ensures StageValue(m, AddSeq(a, b), s, levels, p)
         == Add(StageValue(m, a, s, levels, p), StageValue(m, b, s, levels, p))
  {
    var size, half := Pow2(s), Pow2(s - 1);
    StageShape(s, levels);
    PartnerInRange(|a|, size, half, p);
    var q := p % size;
    if q < half {
      MulAdd(Twiddle(m, q, size, |a|), a[p + half], b[p + half]);
    } else {
      MulAdd(Twiddle(m, q - half, size, |a|), a[p], b[p]);
    }
  }

  lemma {:induction false} StagesAdditive(m: Numerics, a: seq<Complex>, b: seq<Complex>, s: nat, levels: nat)
    requires s <= levels && |a| == |b| == Pow2(levels)
    ensures StagesUpTo(m, AddSeq(a, b), s, levels)
         == AddSeq(StagesUpTo(m, a, s, levels), StagesUpTo(m, b, s, levels))
  {
    if s > 0 {
      StagesAdditive(m, a, b, s - 1, levels);
      var x, y := StagesUpTo(m, a, s - 1, levels), StagesUpTo(m, b, s - 1, levels);
      forall p | 0 <= p < |a|
        ensures Stage(m, AddSeq(x, y), s, levels)[p] == Add(Stage(m, x, s, levels)[p], Stage(m, y, s, levels)[p])
      {
        StageValueAdditive(m, x, y, s, levels, p);
      }
    }
  }

  /** The transform is additive: transforming a sum gives the sum of the
      transforms, and both fail on the same lengths. */
  lemma TransformAdditive(m: Numerics, a: seq<Complex>, b: seq<Complex>)
    requires |a| == |b|
    ensures Transform(m, AddSeq(a, b)).Success? == Transform(m, a).Success?
    ensures Transform(m, a).Success? ==>
      Transform(m, AddSeq(a, b)).value == AddSeq(Transform(m, a).value, Transform(m, b).value)
  {
    if |a| > 1 && IsPow2(|a|) {
      var levels := Log2(|a|);
      assert BitReversal(AddSeq(a, b), levels) == AddSeq(BitReversal(a, levels), BitReversal(b, levels));
      StagesAdditive(m, BitReversal(a, levels), BitReversal(b, levels), levels, levels);
    } else if |a| <= 1 {
      assert AddSeq(a, b) == AddSeq(Transform(m, a).value, Transform(m, b).value);
    }
  }

  lemma StageValueScale(m: Numerics, a: seq<Complex>, k: real, s: nat, levels: nat, p: nat)
    requires 1 <= s <= levels && |a| == Pow2(levels) && p < |a|
    ensures StageValue(m, ScaleSeq(a, k), s, levels, p) == Scale(StageValue(m, a, s, levels, p), k)
  {
    var size, half := Pow2(s), Pow2(s - 1);
    StageShape(s, levels);
    PartnerInRange(|a|, size, half, p);
    var q := p % size;
    if q < half {
      var w := Twiddle(m, q, size, |a|);
      MulScale(w, a[p + half], k);
      AddScale(a[p], Mul(w, a[p + half]), k);
    } else {
      var w := Twiddle(m, q - half, size, |a|);
      MulScale(w, a[p], k);
      SubScale(a[p - half], Mul(w, a[p]), k);
    }
  }

  lemma {:induction false} StagesScale(m: Numerics, a: seq<Complex>, k: real, s: nat, levels: nat)
    requires s <= levels && |a| == Pow2(levels)
    ensures StagesUpTo(m, ScaleSeq(a, k), s, levels) == ScaleSeq(StagesUpTo(m, a, s, levels), k)
  {
    if s > 0 {
      StagesScale(m, a, k, s - 1, levels);
      var x := StagesUpTo(m, a, s - 1, levels);
      forall p | 0 <= p < |a|
        ensures Stage(m, ScaleSeq(x, k), s, levels)[p] == Scale(Stage(m, x, s, levels)[p], k)
      {
        StageValueScale(m, x, k, s, levels, p);
      }
    }
  }

  /** The transform commutes with scaling by a real factor. */
  lemma TransformScale(m: Numerics, a: seq<Complex>, k: real)
    ensures Transform(m, ScaleSeq(a, k)).Success? == Transform(m, a).Success?
    ensures Transform(m, a).Success? ==>
      Transform(m, ScaleSeq(a, k)).value == ScaleSeq(Transform(m, a).value, k)
  {
    if |a| > 1 && IsPow2(|a|) {
      var levels := Log2(|a|);
      assert BitReversal(ScaleSeq(a, k), levels) == ScaleSeq(BitReversal(a, levels), k);
      StagesScale(m, BitReversal(a, levels), k, levels, levels);
    }
  }

  lemma UnconjAdd(x: Complex, y: Complex, n: real)
    requires n != 0.0
    ensures Unconj(Add(x, y), n) == Add(Unconj(x, n), Unconj(y, n))
  {
    assert (x.re + y.re) / n == x.re / n + y.re / n;
    assert -(x.im + y.im) / n == -x.im / n + -y.im / n;
  }

  /** The inverse is additive too. */
  lemma InverseAdditive(m: Numerics, a: seq<Complex>, b: seq<Complex>)
    requires |a| == |b|
    ensures Inverse(m, AddSeq(a, b)).Success? == Inverse(m, a).Success?
    ensures Inverse(m, a).Success? ==>
      Inverse(m, AddSeq(a, b)).value == AddSeq(Inverse(m, a).value, Inverse(m, b).value)
  {
    var ca := seq(|a|, i requires 0 <= i < |a| => Conj(a[i]));
    var cb := seq(|b|, i requires 0 <= i < |b| => Conj(b[i]));
    assert seq(|a|, i requires 0 <= i < |a| => Conj(AddSeq(a, b)[i])) == AddSeq(ca, cb);
    TransformAdditive(m, ca, cb);
    if Transform(m, ca).Success? {
      var n := |a| as real;
      var x, y := Transform(m, ca).value, Transform(m, cb).value;
      forall i | 0 <= i < |a|
        ensures Unconj(AddSeq(x, y)[i], n) == Add(Unconj(x[i], n), Unconj(y[i], n))
      {
        UnconjAdd(x[i], y[i], n);
      }
    }
  }

  /** Length 2: one butterfly with twiddle `exp(0) = 1`. */
  lemma TransformTwo(m: Numerics, x: Complex, y: Complex)
    requires TwiddleLaw(m.twiddle)
    ensures Transform(m, [x, y]) == Success([Add(x, y), Sub(x, y)])
  {
    var a := [x, y];
    Pow2IsPow2(1);
    assert Log2(|a|) == 1;
    assert Reverse(0, 1) == 0 && Reverse(1, 1) == 1;
    assert BitReversal(a, 1) == a;
    assert Twiddle(m, 0, 2, 2) == One;
    assert Mul(One, y) == y;
    assert StageValue(m, a, 1, 1, 0) == Add(x, y);
    assert StageValue(m, a, 1, 1, 1) == Sub(x, y);
    assert StagesUpTo(m, a, 1, 1) == Stage(m, a, 1, 1) == [Add(x, y), Sub(x, y)];
  }

  /** For length 2 the inverse undoes the transform. */
  lemma RoundTripTwo(m: Numerics, x: Complex, y: Complex)
    requires TwiddleLaw(m.twiddle)
    ensures Transform(m, [x, y]).Success?
    ensures Inverse(m, Transform(m, [x, y]).value) == Success([x, y])
  {
    TransformTwo(m, x, y);
    var f := [Add(x, y), Sub(x, y)];
    var c := [Conj(Add(x, y)), Conj(Sub(x, y))];
    assert seq(2, i requires 0 <= i < 2 => Conj(f[i])) == c;
    TransformTwo(m, c[0], c[1]);
    var t := [Add(c[0], c[1]), Sub(c[0], c[1])];
    assert Unconj(t[0], 2.0) == x;
    assert Unconj(t[1], 2.0) == y;
    assert seq(2, i requires 0 <= i < 2 => Unconj(t[i], 2.0)) == [x, y];
  }

  /** Lengths 0 and 1: the inverse returns its input. */
  lemma InverseTrivial(m: Numerics, a: seq<Complex>)
    requires |a| <= 1
    ensures Inverse(m, a) == Success(a)
  {
    var c := seq(|a|, i requires 0 <= i < |a| => Conj(a[i]));
    assert Transform(m, c) == Success(c);
    if |a| == 1 {
      assert Unconj(c[0], 1.0) == a[0];
      assert seq(1, i requires 0 <= i < 1 => Unconj(c[i], 1.0)) == a;
    }
  }

  lemma UnconjScale(x: Complex, n: real, k: real)
    requires n != 0.0
    ensures Unconj(Scale(x, k), n) == Scale(Unconj(x, n), k)
  {
    assert (x.re * k) / n == (x.re / n) * k;
    assert -(x.im * k) / n == (-x.im / n) * k;
  }

  /** The inverse commutes with scaling by a real factor. */
  lemma InverseScale(m: Numerics, a: seq<Complex>, k: real)
    ensures Inverse(m, ScaleSeq(a, k)).Success? == Inverse(m, a).Success?
    ensures Inverse(m, a).Success? ==>
      Inverse(m, ScaleSeq(a, k)).value == ScaleSeq(Inverse(m, a).value, k)
  {
    var ca := seq(|a|, i requires 0 <= i < |a| => Conj(a[i]));
    forall i | 0 <= i < |a|
      ensures Conj(ScaleSeq(a, k)[i]) == ScaleSeq(ca, k)[i]
    {
      ConjScale(a[i], k);
    }
    assert seq(|a|, i requires 0 <= i < |a| => Conj(ScaleSeq(a, k)[i])) == ScaleSeq(ca, k);
    TransformScale(m, ca, k);
    if Transform(m, ca).Success? {
      var n := |a| as real;
      var x := Transform(m, ca).value;
      forall i | 0 <= i < |a|
        ensures Unconj(ScaleSeq(x, k)[i], n) == Scale(Unconj(x[i], n), k)
      {
        UnconjScale(x[i], n, k);
      }
    }
  }
}
