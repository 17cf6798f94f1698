/** Complex numbers over exact reals, and the transcendental functions the
    toolkit calls (`Math.cos`/`Math.sin` twiddles, `Math.sqrt`, `Math.pow(10, ·)`,
    `Math.log10`, the all-pass polar rewrite). Those are not computed: they are
    fields of a `Numerics` value supplied by the caller, constrained only by
    the laws the proofs need. */
module ComplexNumbers {

  /** A complex value; `Complex.ts` is not part of this model, its `add`,
      `sub` and `mul` are taken to be the usual field operations. */
  datatype Complex = Complex(re: real, im: real)

  const Zero: Complex := Complex(0.0, 0.0)
  const One: Complex := Complex(1.0, 0.0)

  function Add(a: Complex, b: Complex): Complex {
    Complex(a.re + b.re, a.im + b.im)
  }

  function Sub(a: Complex, b: Complex): Complex {
    Complex(a.re - b.re, a.im - b.im)
  }

  function Mul(a: Complex, b: Complex): Complex {
    Complex(a.re * b.re - a.im * b.im, a.re * b.im + a.im * b.re)
  }

  function Conj(a: Complex): Complex {
    Complex(a.re, -a.im)
  }

  /** Both parts multiplied by the same real factor, as every gain rule does. */
  function Scale(a: Complex, k: real): Complex {
    Complex(a.re * k, a.im * k)
  }

  /** Squared magnitude `re² + im²`. */
  function NormSq(a: Complex): (r: real)
    ensures r >= 0.0
  {
    a.re * a.re + a.im * a.im
  }

  /** Element-wise sum of two equally long sequences. */
  function AddSeq(a: seq<Complex>, b: seq<Complex>): (r: seq<Complex>)
    requires |a| == |b|
    ensures |r| == |a|
    ensures forall i :: 0 <= i < |a| ==> r[i] == Add(a[i], b[i])
  {
    seq(|a|, i requires 0 <= i < |a| => Add(a[i], b[i]))
  }

  /** Every element scaled by the same real factor. */
  function ScaleSeq(a: seq<Complex>, k: real): (r: seq<Complex>)
    ensures |r| == |a|
    ensures forall i :: 0 <= i < |a| ==> r[i] == Scale(a[i], k)
  {
    seq(|a|, i requires 0 <= i < |a| => Scale(a[i], k))
  }

  lemma MulAdd(w: Complex, x: Complex, y: Complex)
    ensures Mul(w, Add(x, y)) == Add(Mul(w, x), Mul(w, y))
  {
  }

  lemma MulScale(w: Complex, x: Complex, k: real)
    ensures Mul(w, Scale(x, k)) == Scale(Mul(w, x), k)
  {
  }

  lemma AddScale(x: Complex, y: Complex, k: real)
    ensures Add(Scale(x, k), Scale(y, k)) == Scale(Add(x, y), k)
  {
  }

  lemma SubScale(x: Complex, y: Complex, k: real)
    ensures Sub(Scale(x, k), Scale(y, k)) == Scale(Sub(x, y), k)
  {
  }

  lemma ConjScale(x: Complex, k: real)
    ensures Conj(Scale(x, k)) == Scale(Conj(x), k)
  {
    assert -(x.im * k) == (-x.im) * k;
  }

  /** A strictly positive real. */
  type PosReal = r: real | 0.0 < r witness 1.0

  /** The functions the source takes from `Math`, left uninterpreted. */
  datatype Numerics = Numerics(
    twiddle: (int, int) -> Complex,    // (k, N) ↦ exp(-2πik/N)
    sqrt: real -> real,
    pow10: real -> PosReal,            // x ↦ 10^x
    log10: real -> real,
    rotate: (Complex, real) -> Complex // all-pass: same magnitude, phase + shift
  )

  /** `Math.sqrt` on non-negative arguments: non-negative, 0 at 0 and 1 at
      1, strictly increasing. */
  ghost predicate SqrtLaw(sqrt: real -> real) {
    sqrt(0.0) == 0.0 && sqrt(1.0) == 1.0 &&
    (forall x: real :: 0.0 <= x ==> 0.0 <= sqrt(x)) &&
    (forall x: real, y: real :: 0.0 <= x < y ==> sqrt(x) < sqrt(y))
  }

  /** `c² · n`, named so that the law below has a trigger. */
  function SquareTimes(c: real, n: real): real {
    c * c * n
  }

  /** `√(c²·n) = c·√n` for non-negative `c` and `n`. */
  ghost predicate SqrtHomogeneous(sqrt: real -> real) {
    forall c: real, n: real :: 0.0 <= c && 0.0 <= n ==> sqrt(SquareTimes(c, n)) == c * sqrt(n)
  }

  /** Scaling by `c` multiplies the squared magnitude by `c²`. */
  lemma NormSqScale(a: Complex, c: real)
    ensures NormSq(Scale(a, c)) == SquareTimes(c, NormSq(a))
  {
    assert (a.re * c) * (a.re * c) == c * c * (a.re * a.re);
    assert (a.im * c) * (a.im * c) == c * c * (a.im * a.im);
  }

  /** Scaling by a non-negative `c` multiplies the magnitude by `c`. */
  lemma MagnitudeScale(m: Numerics, a: Complex, c: real)
    requires SqrtHomogeneous(m.sqrt) && 0.0 <= c
    ensures Magnitude(m, Scale(a, c)) == c * Magnitude(m, a)
  {
    NormSqScale(a, c);
  }

  /** `10^0 = 1`. */
  ghost predicate Pow10Law(pow10: real -> PosReal) {
    pow10(0.0) == 1.0
  }

  /** `exp(0) = 1`: the first twiddle of every stage. */
  ghost predicate TwiddleLaw(twiddle: (int, int) -> Complex) {
    forall n: int :: twiddle(0, n) == One
  }

  /** A polar rotation keeps the squared magnitude. */
  ghost predicate RotateLaw(rotate: (Complex, real) -> Complex) {
    forall a: Complex, s: real :: NormSq(rotate(a, s)) == NormSq(a)
  }

  /** `Math.pow(10, db / 20)`: decibels to a linear amplitude factor. */
  function DbToAmplitude(m: Numerics, db: real): (r: PosReal)
    ensures Pow10Law(m.pow10) && db == 0.0 ==> r == 1.0
  {
    m.pow10(db / 20.0)
  }

  /** `Math.sqrt(re*re + im*im)`. */
  function Magnitude(m: Numerics, a: Complex): (r: real)
    ensures SqrtLaw(m.sqrt) ==> 0.0 <= r
    ensures SqrtLaw(m.sqrt) ==> (r == 0.0 <==> NormSq(a) == 0.0)
  {
    var n := NormSq(a);
    assert SqrtLaw(m.sqrt) && 0.0 < n ==> m.sqrt(0.0) < m.sqrt(n);
    m.sqrt(n)
  }

  /** Magnitudes are ordered as squared magnitudes are. */
  lemma MagnitudeOrder(m: Numerics, a: Complex, b: Complex)
    requires SqrtLaw(m.sqrt)
    ensures Magnitude(m, a) < Magnitude(m, b) <==> NormSq(a) < NormSq(b)
    ensures Magnitude(m, a) == Magnitude(m, b) <==> NormSq(a) == NormSq(b)
  {
    var x, y := NormSq(a), NormSq(b);
    if x < y {
      assert m.sqrt(x) < m.sqrt(y);
    } else if y < x {
      assert m.sqrt(y) < m.sqrt(x);
    }
  }

  lemma ConjInvolution(a: Complex)
    ensures Conj(Conj(a)) == a
  {
  }
}
