/** `normalizer/normalizer.ts`: every bin is scaled by the same factor so
    that the loudest bin of the spectrum lands on the target amplitude. */
module Normalizer {
  import opened Common
  import opened ComplexNumbers
  import opened Bits
  import opened Fft
  import opened Audio

  /** The fold `maxAmplitude = 0; if (amplitude > maxAmplitude) …`: the
      largest amplitude, or 0 when none is positive. */
  function Peak(amps: seq<real>): real {
    if |amps| == 0 then 0.0
    else Larger(Peak(amps[..|amps| - 1]), amps[|amps| - 1])
  }

  /** The peak is non-negative, at least every amplitude, and either one of
      them or 0. */
  lemma {:induction false} PeakIsMaximum(amps: seq<real>)
    ensures 0.0 <= Peak(amps)
    ensures forall i :: 0 <= i < |amps| ==> amps[i] <= Peak(amps)
    ensures Peak(amps) == 0.0 || exists i :: 0 <= i < |amps| && amps[i] == Peak(amps)
  {
    if |amps| > 0 {
      var front := amps[..|amps| - 1];
      PeakIsMaximum(front);
      assert forall i :: 0 <= i < |front| ==> front[i] == amps[i];
    }
  }

  /** One step of the fold: the candidate replaces the running maximum only
      when strictly larger. */
  function Larger(peak: real, candidate: real): real {
    if candidate > peak then candidate else peak
  }

  /** The `forEach` loop itself. */
  method PeakLoop(amps: seq<real>) returns (peak: real)
    ensures peak == Peak(amps)
  {
    peak := 0.0;
    var i := 0;
    while i < |amps|
      invariant 0 <= i <= |amps|
      invariant peak == Peak(amps[..i])
    {
      assert amps[..i + 1][..i] == amps[..i];
      if amps[i] > peak {
        peak := amps[i];
      }
      i := i + 1;
    }
    assert amps[..i] == amps;
  }

  /** The magnitude of every bin. */
  function Amplitudes(m: Numerics, x: seq<Complex>): (r: seq<real>)
    ensures |r| == |x|
    ensures forall k :: 0 <= k < |x| ==> r[k] == Magnitude(m, x[k])
  {
    seq(|x|, k requires 0 <= k < |x| => Magnitude(m, x[k]))
  }

  /** `applyNormalization(data, sampleRate, targetAmplitude)`. An empty
      channel stays empty. A non-empty channel whose spectrum peaks at 0
      makes the factor `target / 0 = Infinity` and every output sample NaN:
      that is `SilentInput`. */
  function NormalizeChannel(m: Numerics, data: seq<real>, targetDb: real): (r: Result<seq<real>>)
    ensures r.Success? ==> Transformable(|data|) && |r.value| == |data|
    ensures !Transformable(|data|) ==> r == Failure(InvalidLength)
    ensures Transformable(|data|) && r.Failure? ==> r.error == SilentInput && |data| > 0
  {
    var x :- Transform(m, Lift(data));
    var peak := ChannelPeak(m, data);
    if peak == 0.0 then
      if |data| == 0 then Success([]) else Failure(SilentInput)
    else
      SpectralApply(m, data, ScaleRule(Factor(DbToAmplitude(m, targetDb), peak)))
  }

  /** `targetAmplitude / maxAmplitude`. */
  function Factor(target: PosReal, peak: real): real
    requires peak != 0.0
  {
    target / peak
  }

  /** Every bin multiplied by the normalization factor `g`. */
  function ScaleRule(g: real): (int, Complex) -> Complex {
    (k: int, y: Complex) => Scale(y, g)
  }

  /** `normalizeAmplitude(audio, sampleRate, targetDb)`. */
  function NormalizeAmplitude(m: Numerics, c: Container, targetDb: real): (r: Result<Container>)
    ensures IsStereo(c) ==>
      (r.Success? <==> NormalizeChannel(m, c.left.value, targetDb).Success? &&
                       NormalizeChannel(m, c.right.value, targetDb).Success?)
    ensures !IsStereo(c) && c.mono.None? ==> r == Failure(MissingChannelData)
    ensures !IsStereo(c) && c.mono.Some? ==>
      (r.Success? <==> NormalizeChannel(m, c.mono.value, targetDb).Success?)
    ensures IsStereo(c) && r.Success? ==>
      r.value == c.(left := Some(NormalizeChannel(m, c.left.value, targetDb).value),
                    right := Some(NormalizeChannel(m, c.right.value, targetDb).value))
    ensures !IsStereo(c) && r.Success? ==>
      r.value == c.(mono := Some(NormalizeChannel(m, c.mono.value, targetDb).value))
  {
    ForEachChannel(c, (d: seq<real>) => NormalizeChannel(m, d, targetDb))
  }

  /** A non-empty channel fails as silent exactly when every bin of its
      spectrum has zero magnitude. */
  lemma SilentIffAllBinsZero(m: Numerics, data: seq<real>, targetDb: real)
    requires SqrtLaw(m.sqrt)
    requires Transformable(|data|) && |data| > 0
    ensures var x := Transform(m, Lift(data)).value;
      (NormalizeChannel(m, data, targetDb) == Failure(SilentInput) <==>
       forall k :: 0 <= k < |x| ==> NormSq(x[k]) == 0.0)
  {
    var x := Transform(m, Lift(data)).value;
    var amps := Amplitudes(m, x);
    PeakIsMaximum(amps);
    if Peak(amps) == 0.0 {
      forall k | 0 <= k < |x| ensures NormSq(x[k]) == 0.0 {
        assert amps[k] <= 0.0;
      }
    } else {
      var i :| 0 <= i < |amps| && amps[i] == Peak(amps);
      assert NormSq(x[i]) != 0.0;
    }
  }

  /** A transformable channel whose spectrum is not silent is scaled, bin
      by bin, by the single factor `target / peak`: the output is the real
      part of the inverse transform of the spectrum with each bin's real and
      imaginary parts multiplied by that factor. */
  lemma NormalizeIsUniformGain(m: Numerics, data: seq<real>, targetDb: real)
    requires Transformable(|data|) && ChannelPeak(m, data) != 0.0
    ensures NormalizeChannel(m, data, targetDb)
         == SpectralApply(m, data, ScaleRule(Factor(DbToAmplitude(m, targetDb), ChannelPeak(m, data))))
    ensures var x := Transform(m, Lift(data)).value;
      var g := DbToAmplitude(m, targetDb) / ChannelPeak(m, data);
      var y := seq(|x|, k requires 0 <= k < |x| => Complex(x[k].re * g, x[k].im * g));
      NormalizeChannel(m, data, targetDb) == Success(RealParts(Inverse(m, y).value))
  {
    var x := Transform(m, Lift(data)).value;
    var g := Factor(DbToAmplitude(m, targetDb), ChannelPeak(m, data));
    ScaleRuleBins(x, g);
  }

  lemma ScaleRuleBins(x: seq<Complex>, g: real)
    ensures BinMap(x, ScaleRule(g)) == seq(|x|, k requires 0 <= k < |x| => Complex(x[k].re * g, x[k].im * g))
  {
    var y := seq(|x|, k requires 0 <= k < |x| => Complex(x[k].re * g, x[k].im * g));
    forall k | 0 <= k < |x|
      ensures BinMap(x, ScaleRule(g))[k] == y[k]
    {
      assert ScaleRule(g)(k, x[k]) == Scale(x[k], g);
    }
  }

  /** On success the output of a non-empty channel is the round trip of the
      input scaled by `target / peak`. */
  lemma NormalizeScalesRoundTrip(m: Numerics, data: seq<real>, targetDb: real)
    requires NormalizeChannel(m, data, targetDb).Success? && |data| > 0
    ensures ChannelPeak(m, data) > 0.0
    ensures RoundTrip(m, data).Success?
    ensures NormalizeChannel(m, data, targetDb).value
         == ScaleAll(RoundTrip(m, data).value, Factor(DbToAmplitude(m, targetDb), ChannelPeak(m, data)))
  {
    PeakPositive(m, data, targetDb);
    var g := Factor(DbToAmplitude(m, targetDb), ChannelPeak(m, data));
    NormalizeIsUniformGain(m, data, targetDb);
    UniformGain(m, data, g);
  }

  lemma PeakPositive(m: Numerics, data: seq<real>, targetDb: real)
    requires NormalizeChannel(m, data, targetDb).Success? && |data| > 0
    ensures ChannelPeak(m, data) > 0.0
  {
    PeakIsMaximum(Amplitudes(m, Transform(m, Lift(data)).value));
  }

  lemma UniformGain(m: Numerics, data: seq<real>, g: real)
    requires SpectralApply(m, data, ScaleRule(g)).Success?
    ensures RoundTrip(m, data).Success?
    ensures SpectralApply(m, data, ScaleRule(g)) == Success(ScaleAll(RoundTrip(m, data).value, g))
  {
    SpectralGain(m, data, ScaleRule(g), g);
  }

  /** The peak magnitude of the spectrum of a transformable channel. */
  function ChannelPeak(m: Numerics, data: seq<real>): real
    requires Transformable(|data|)
  {
    Peak(Amplitudes(m, Transform(m, Lift(data)).value))
  }

  /** Every amplitude passed through `f`. */
  function MapAll(amps: seq<real>, f: real -> real): (r: seq<real>)
    ensures |r| == |amps|
    ensures forall i :: 0 <= i < |amps| ==> r[i] == f(amps[i])
  {
    seq(|amps|, i requires 0 <= i < |amps| => f(amps[i]))
  }

  lemma MapAllPrefix(amps: seq<real>, f: real -> real, n: nat)
    requires n <= |amps|
    ensures MapAll(amps, f)[..n] == MapAll(amps[..n], f)
  {
    assert forall i :: 0 <= i < n ==> amps[..n][i] == amps[i];
  }

  /** The peak commutes with every strictly increasing map that fixes 0. */
  lemma {:induction false} PeakMonotoneMap(amps: seq<real>, f: real -> real)
    requires forall x: real, y: real :: x < y ==> f(x) < f(y)
    requires f(0.0) == 0.0
    ensures Peak(MapAll(amps, f)) == f(Peak(amps))
  {
    if |amps| > 0 {
      var n := |amps| - 1;
      MapAllPrefix(amps, f, n);
      PeakMonotoneMap(amps[..n], f);
      var p, a := Peak(amps[..n]), amps[n];
      assert f(a) > f(p) <==> a > p by {
        if a <= p {
          assert a < p ==> f(a) < f(p);
        }
      }
    }
  }

  /** Multiplication by `c`. */
  function Times(c: real): real -> real {
    x => c * x
  }

  lemma TimesIncreasing(c: real)
    requires 0.0 < c
    ensures forall x: real, y: real :: x < y ==> Times(c)(x) < Times(c)(y)
    ensures Times(c)(0.0) == 0.0
  {
    forall x: real, y: real | x < y
      ensures Times(c)(x) < Times(c)(y)
    {
      assert c * y - c * x == c * (y - x);
    }
  }

  lemma PosQuotient(t: real, p: real)
    requires 0.0 < t && 0.0 < p
    ensures 0.0 < t / p && Times(t / p)(p) == t
  {
    assert (t / p) * p == t;
  }

  /** The point of normalization: after scaling, the loudest bin of the
      spectrum sits exactly on the target amplitude. */
  lemma NormalizedPeakIsTarget(m: Numerics, x: seq<Complex>, target: PosReal)
    requires SqrtLaw(m.sqrt) && SqrtHomogeneous(m.sqrt)
    requires Peak(Amplitudes(m, x)) != 0.0
    ensures Peak(Amplitudes(m, ScaleSeq(x, target / Peak(Amplitudes(m, x))))) == target
  {
    var p := Peak(Amplitudes(m, x));
    PeakIsMaximum(Amplitudes(m, x));
    PosQuotient(target, p);
    var g := target / p;
    var amps := Amplitudes(m, x);
    ScaledAmplitudes(m, x, g);
    TimesIncreasing(g);
    PeakMonotoneMap(amps, Times(g));

  }

  /** The amplitudes of a spectrum scaled by `g ≥ 0` are its amplitudes
      scaled by `g`. */
  lemma ScaledAmplitudes(m: Numerics, x: seq<Complex>, g: real)
    requires SqrtHomogeneous(m.sqrt) && 0.0 <= g
    ensures Amplitudes(m, ScaleSeq(x, g)) == MapAll(Amplitudes(m, x), Times(g))
  {
    forall k | 0 <= k < |x|
      ensures Amplitudes(m, ScaleSeq(x, g))[k] == MapAll(Amplitudes(m, x), Times(g))[k]
    {
      MagnitudeScale(m, x[k], g);
    }
  }
}
