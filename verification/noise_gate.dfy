/** `noise-reduce/noiseReduce.ts`: a spectral gate. A bin quieter than the
    threshold amplitude is scaled by `amplitude / threshold`; a bin at or
    above it is kept. */
module NoiseGate {
  import opened Common
  import opened ComplexNumbers
  import opened Bits
  import opened Fft
  import opened Audio

  /** The per-bin rule for threshold amplitude `thr`. */
  function Gate(m: Numerics, thr: PosReal, x: Complex): Complex {
    var amp := Magnitude(m, x);
    if amp < thr then Scale(x, amp / thr) else x
  }

  /** `applyNoiseReduction(data, sampleRate, thresholdDb)`. */
  function GateChannel(m: Numerics, data: seq<real>, thresholdDb: real): (r: Result<seq<real>>)
    ensures r.Success? <==> Transformable(|data|)
    ensures r.Success? ==> |r.value| == |data|
  {
    var thr := DbToAmplitude(m, thresholdDb);
    SpectralApply(m, data, (k: int, x: Complex) => Gate(m, thr, x))
  }

  /** `reduceNoise(audio, sampleRate, thresholdDb)`. */
  function ReduceNoise(m: Numerics, c: Container, thresholdDb: real): (r: Result<Container>)
    ensures IsStereo(c) ==>
      (r.Success? <==> Transformable(|c.left.value|) && Transformable(|c.right.value|))
    ensures !IsStereo(c) && c.mono.Some? ==> (r.Success? <==> Transformable(|c.mono.value|))
    ensures !IsStereo(c) && c.mono.None? ==> r == Failure(MissingChannelData)
    ensures IsStereo(c) && r.Success? ==>
      r.value == c.(left := Some(GateChannel(m, c.left.value, thresholdDb).value),
                    right := Some(GateChannel(m, c.right.value, thresholdDb).value))
    ensures !IsStereo(c) && r.Success? ==>
      r.value == c.(mono := Some(GateChannel(m, c.mono.value, thresholdDb).value))
  {
    ForEachChannel(c, (d: seq<real>) => GateChannel(m, d, thresholdDb))
  }

  lemma QuotientBelowOne(a: real, t: real)
    requires 0.0 <= a < t
    ensures 0.0 <= a / t < 1.0
  {
    var q := a / t;
    assert q * t == a;
  }

  lemma SquareBelowOne(f: real, n: real)
    requires 0.0 <= f < 1.0 && 0.0 <= n
    ensures SquareTimes(f, n) <= n
  {
    assert f * f <= 1.0 by {
      assert f * f <= f * 1.0;
    }
    assert n - f * f * n == (1.0 - f * f) * n;
  }

  /** A bin at or above the threshold passes unchanged; a quieter bin is
      multiplied by a factor in `[0, 1)`, and that factor is zero exactly
      when the bin is silent. */
  lemma GateShape(m: Numerics, thr: PosReal, x: Complex)
    requires SqrtLaw(m.sqrt)
    ensures Magnitude(m, x) >= thr ==> Gate(m, thr, x) == x
    ensures Magnitude(m, x) < thr ==>
      exists f: real :: 0.0 <= f < 1.0 && Gate(m, thr, x) == Scale(x, f) &&
                        (f == 0.0 <==> NormSq(x) == 0.0)
  {
    var amp := Magnitude(m, x);
    if amp < thr {
      QuotientBelowOne(amp, thr);
      var f := amp / thr;
      assert f == 0.0 <==> amp == 0.0;
      assert Gate(m, thr, x) == Scale(x, f);
    }
  }

  /** The gate never makes a bin louder. */
  lemma GateNeverAmplifies(m: Numerics, thr: PosReal, x: Complex)
    requires SqrtLaw(m.sqrt)
    ensures NormSq(Gate(m, thr, x)) <= NormSq(x)
  {
    var amp := Magnitude(m, x);
    if amp < thr {
      QuotientBelowOne(amp, thr);
      NormSqScale(x, amp / thr);
      SquareBelowOne(amp / thr, NormSq(x));
    }
  }

  /** When every bin of the spectrum is at or above the threshold, the gate
      returns the round trip of its input. */
  lemma LoudSpectrumIsRoundTrip(m: Numerics, data: seq<real>, thresholdDb: real)
    requires Transform(m, Lift(data)).Success?
    requires var x := Transform(m, Lift(data)).value;
      forall k :: 0 <= k < |x| ==> Magnitude(m, x[k]) >= DbToAmplitude(m, thresholdDb)
    ensures GateChannel(m, data, thresholdDb) == RoundTrip(m, data)
  {
    var thr := DbToAmplitude(m, thresholdDb);
    var x := Transform(m, Lift(data)).value;
    assert BinMap(x, (k: int, y: Complex) => Gate(m, thr, y)) == BinMap(x, (k: int, y: Complex) => y);
  }
}
