/** `hum-remover/humRemover.ts`: a notch filter that zeroes every bin whose
    frequency lies within the notch width of a multiple of the hum
    frequency, with JavaScript's truncating `%` and NaN comparisons. */
module HumRemover {
  import opened Common
  import opened ComplexNumbers
  import opened Bits
  import opened Fft
  import opened Audio

  /** The `HumFrequency` and `NotchWidth` enum members. */
  const FiftyHz: real := 50.0
  const SixtyHz: real := 60.0
  const HundredHz: real := 100.0
  const CustomHum: real := -1.0
  const Narrow: real := 1.0
  const Medium: real := 2.0
  const Wide: real := 5.0
  const CustomWidth: real := -1.0

  /** Rounding toward zero, as JavaScript's `%` uses for its quotient. */
  function Trunc(q: real): int {
    if q >= 0.0 then q.Floor else -((-q).Floor)
  }

  /** JavaScript's `x % y` on numbers: the remainder takes the sign of `x`,
      and `x % 0` is NaN (`None`). */
  function JsRem(x: real, y: real): (r: Option<real>)
    ensures r.None? <==> y == 0.0
  {
    if y == 0.0 then None else Some(x - y * (Trunc(x / y) as real))
  }

  /** `isHarmonic`: a NaN remainder makes both comparisons false. */
  predicate IsHarmonic(f: real, hum: real, width: real) {
    match JsRem(f, hum)
    case None => false
    case Some(rem) => rem < width || hum - rem < width
  }

  /** The notch rule applied to bin `k` of an `n`-sample spectrum. */
  function NotchRule(sampleRate: real, n: nat, hum: real, width: real): (int, Complex) -> Complex {
    (k: int, x: Complex) => if IsHarmonic(BinFrequency(k, sampleRate, n), hum, width) then Zero else x
  }

  /** `applyNotchFilter`: every failure inside is rethrown, and the outer
      handler rethrows it again, as 'Failed to remove hum noise'. */
  function ApplyNotch(m: Numerics, data: seq<real>, sampleRate: real, hum: real, width: real): (r: Result<seq<real>>)
    ensures r.Success? <==> Transformable(|data|)
    ensures r.Failure? ==> r.error == HumRemovalFailed
    ensures r.Success? ==> |r.value| == |data|
  {
    match SpectralApply(m, data, NotchRule(sampleRate, |data|, hum, width))
    case Success(d) => Success(d)
    case Failure(_) => Failure(HumRemovalFailed)
  }

  /** `removeHumNoise(audio, sampleRate, humFrequency, notchWidth)`. The
      CUSTOM branches on lines 47-48 return their argument either way, so
      the values pass through unchanged. */
  function RemoveHum(m: Numerics, c: Container, sampleRate: real, hum: real, width: real): (r: Result<Container>)
    ensures r.Failure? ==> r.error == HumRemovalFailed
    ensures IsStereo(c) ==>
      (r.Success? <==> Transformable(|c.left.value|) && Transformable(|c.right.value|))
    ensures !IsStereo(c) ==> (r.Success? <==> c.mono.Some? && Transformable(|c.mono.value|))
    ensures IsStereo(c) && r.Success? ==>
      r.value == c.(left := Some(ApplyNotch(m, c.left.value, sampleRate, hum, width).value),
                    right := Some(ApplyNotch(m, c.right.value, sampleRate, hum, width).value))
    ensures !IsStereo(c) && r.Success? ==>
      r.value == c.(mono := Some(ApplyNotch(m, c.mono.value, sampleRate, hum, width).value))
  {
    if IsStereo(c) then
      var l :- ApplyNotch(m, c.left.value, sampleRate, hum, width);
      var rt :- ApplyNotch(m, c.right.value, sampleRate, hum, width);
      Success(c.(left := Some(l), right := Some(rt)))
    else if c.mono.Some? then
      var d :- ApplyNotch(m, c.mono.value, sampleRate, hum, width);
      Success(c.(mono := Some(d)))
    else
      Failure(HumRemovalFailed)
  }

  /** The default arguments: 50 Hz hum, 1 Hz notch. */
  function RemoveHumDefault(m: Numerics, c: Container, sampleRate: real): (r: Result<Container>)
    ensures r == RemoveHum(m, c, sampleRate, FiftyHz, Narrow)
  {
    RemoveHum(m, c, sampleRate, 50.0, 1.0)
  }

  /** `k · hum`, the `k`-th multiple of the hum frequency. */
  function Multiple(k: int, hum: real): real {
    (k as real) * hum
  }

  /** The frequency lies strictly within `width` of some multiple of the hum
      frequency. */
  ghost predicate NearMultiple(f: real, hum: real, width: real) {
    exists k: int :: -width < f - Multiple(k, hum) < width
  }

  lemma MulLe(a: real, b: real, h: real)
    requires a <= b && 0.0 < h
    ensures a * h <= b * h
  {
    assert b * h - a * h == (b - a) * h;
  }

  lemma DivNonneg(f: real, hum: real)
    requires 0.0 <= f && 0.0 < hum
    ensures 0.0 <= f / hum
  {
    var q := f / hum;
    assert q * hum == f;
    if q < 0.0 {
      MulLe(q, 0.0, hum);
    }
  }

  /** For a non-negative frequency and positive hum, the multiple
      `floor(f / hum) · hum` lies at most `f` and less than `hum` below it. */
  lemma RemainderBounds(f: real, hum: real)
    requires 0.0 <= f && 0.0 < hum
    ensures 0.0 <= f - Multiple((f / hum).Floor, hum) < hum
  {
    var q := f / hum;
    RealBounds(f, hum, q, q.Floor as real);
  }

  /** `kr·h ≤ q·h = f < (kr+1)·h`, in real arithmetic only. */
  lemma RealBounds(f: real, h: real, q: real, kr: real)
    requires 0.0 < h && q == f / h && kr <= q < kr + 1.0
    ensures 0.0 <= f - kr * h < h
  {
    assert q * h == f;
    MulLe(kr, q, h);
    MulLt(q, kr + 1.0, h);
    assert (kr + 1.0) * h == kr * h + h;
  }

  lemma MulLt(a: real, b: real, h: real)
    requires a < b && 0.0 < h
    ensures a * h < b * h
  {
    assert b * h - a * h == (b - a) * h;
  }

  /** ... and the remainder is the distance above that multiple. */
  lemma RemainderIsDistance(f: real, hum: real)
    requires 0.0 <= f && 0.0 < hum
    ensures JsRem(f, hum) == Some(f - Multiple((f / hum).Floor, hum))
  {
    var q := f / hum;
    DivNonneg(f, hum);
    var k := q.Floor;
    assert Trunc(q) == k;
    JsRemValue(f, hum, k);
    ProductCommutes(hum, k);
  }

  /** The remainder is what is left after `Trunc(x / y)` whole `y`s. */
  lemma JsRemValue(x: real, y: real, t: int)
    requires y != 0.0 && Trunc(x / y) == t
    ensures JsRem(x, y) == Some(x - y * (t as real))
  {
  }

  lemma ProductCommutes(hum: real, k: int)
    ensures hum * (k as real) == Multiple(k, hum)
  {
  }

  /** Multiples are ordered as their indices are. */
  lemma MultipleMono(j: int, k: int, hum: real)
    requires j <= k && 0.0 < hum
    ensures Multiple(j, hum) <= Multiple(k, hum)
  {
    MulLe(j as real, k as real, hum);
  }

  /** For non-negative frequencies and a positive hum frequency the notch
      test is exactly "within `width` of a multiple of the hum frequency". */
  lemma HarmonicIffNearMultiple(f: real, hum: real, width: real)
    requires 0.0 <= f && 0.0 < hum
    ensures IsHarmonic(f, hum, width) <==> NearMultiple(f, hum, width)
  {
    RemainderBounds(f, hum);
    RemainderIsDistance(f, hum);
    var k0 := (f / hum).Floor;
    var rem := f - Multiple(k0, hum);
    assert Multiple(k0 + 1, hum) == Multiple(k0, hum) + hum;
    if IsHarmonic(f, hum, width) {
      if rem < width {
        assert -width < f - Multiple(k0, hum) < width;
      } else {
        assert -width < f - Multiple(k0 + 1, hum) < width;
      }
    }
    if NearMultiple(f, hum, width) {
      var k :| -width < f - Multiple(k, hum) < width;
      if k <= k0 {
        MultipleMono(k, k0, hum);
      } else {
        MultipleMono(k0 + 1, k, hum);
      }
    }
  }

  /** The DC bin is always removed when the hum is non-zero and the width
      positive. */
  lemma DcRemoved(hum: real, width: real)
    requires hum != 0.0 && 0.0 < width
    ensures IsHarmonic(0.0, hum, width)
  {
    assert 0.0 / hum == 0.0;
  }

  /** A hum frequency of 0 makes every remainder NaN: nothing is removed and
      the output is the round trip of the input. */
  lemma ZeroHumKeepsAll(m: Numerics, data: seq<real>, sampleRate: real, width: real)
    ensures SpectralApply(m, data, NotchRule(sampleRate, |data|, 0.0, width)) == RoundTrip(m, data)
  {
    var t := Transform(m, Lift(data));
    if t.Success? {
      assert BinMap(t.value, NotchRule(sampleRate, |data|, 0.0, width))
          == BinMap(t.value, (k: int, x: Complex) => x);
    }
  }

  /** Passing CUSTOM (-1) for both parameters removes exactly the bins
      whose non-negative frequency is not a whole number of hertz. */
  lemma CustomRemovesFractional(f: real)
    requires 0.0 <= f
    ensures IsHarmonic(f, CustomHum, CustomWidth) <==> (f.Floor as real) != f
  {
    assert f / -1.0 == -f;
    var t := Trunc(-f);
    if (-f).Floor as real == -f {
      assert t == -f.Floor;
    } else {
      assert (-f).Floor == -f.Floor - 1;
      assert t == -f.Floor;
    }
  }

  /** Removing the same hum twice changes nothing more. */
  lemma NotchIdempotent(sampleRate: real, n: nat, hum: real, width: real, k: int, x: Complex)
    ensures var r := NotchRule(sampleRate, n, hum, width);
      r(k, r(k, x)) == r(k, x)
  {
  }
}
