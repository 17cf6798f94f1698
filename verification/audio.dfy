/** The audio container every effect accepts, the stereo/mono dispatch
    they share, and the "transform, change each bin, transform back, keep
    the real parts" pipeline that every spectral effect is built from. */
module Audio {
  import opened Common
  import opened ComplexNumbers
  import opened Bits
  import opened Fft

  /** `AudioData | StereoAudioData`: which of the properties `audioData`,
      `audioDataLeft` and `audioDataRight` are present, and their samples. */
  datatype Container = Container(
    mono: Option<seq<real>>,
    left: Option<seq<real>>,
    right: Option<seq<real>>
  )

  /** `'audioDataLeft' in audio && 'audioDataRight' in audio`. */
  predicate IsStereo(c: Container) {
    c.left.Some? && c.right.Some?
  }

  /** The dispatch of `applyFilter`, `adjustEqualizer`, `reduceNoise` and
      `normalizeAmplitude`: a stereo container has both channels processed
      and nothing else touched; otherwise `audioData` is processed, and its
      absence makes `audio.audioData.map` throw. */
  function ForEachChannel(c: Container, f: seq<real> -> Result<seq<real>>): (r: Result<Container>)
    ensures IsStereo(c) ==>
      (r.Success? <==> f(c.left.value).Success? && f(c.right.value).Success?)
    ensures IsStereo(c) && r.Success? ==>
      r.value == Container(c.mono, Some(f(c.left.value).value), Some(f(c.right.value).value))
    ensures !IsStereo(c) && c.mono.None? ==> r == Failure(MissingChannelData)
    ensures !IsStereo(c) && c.mono.Some? ==>
      (r.Success? <==> f(c.mono.value).Success?)
    ensures !IsStereo(c) && r.Success? ==>
      r.value == c.(mono := Some(f(c.mono.value).value))
  {
    if IsStereo(c) then
      var l :- f(c.left.value);
      var rt :- f(c.right.value);
      Success(c.(left := Some(l), right := Some(rt)))
    else if c.mono.None? then
      Failure(MissingChannelData)
    else
      var d :- f(c.mono.value);
      Success(c.(mono := Some(d)))
  }

  /** `data.map(value => new Complex(value, 0))`. */
  function Lift(data: seq<real>): (r: seq<Complex>)
    ensures |r| == |data|
    ensures forall i :: 0 <= i < |data| ==> r[i] == Complex(data[i], 0.0)
  {
    seq(|data|, i requires 0 <= i < |data| => Complex(data[i], 0.0))
  }

  /** `complexes.map(complex => complex.real)`. */
  function RealParts(z: seq<Complex>): (r: seq<real>)
    ensures |r| == |z|
    ensures forall i :: 0 <= i < |z| ==> r[i] == z[i].re
  {
    seq(|z|, i requires 0 <= i < |z| => z[i].re)
  }

  /** `(index * sampleRate) / data.length`: the frequency of bin `k`. */
  function BinFrequency(k: int, sampleRate: real, n: nat): real {
    if n == 0 then 0.0 // no bins exist
    else (k as real) * sampleRate / (n as real)
  }

  /** The pipeline of every spectral effect: transform the samples, replace
      bin `k` holding `x` by `rule(k, x)`, transform back, keep real parts. */
  function SpectralApply(m: Numerics, data: seq<real>, rule: (int, Complex) -> Complex): (r: Result<seq<real>>)
    ensures r.Success? <==> Transformable(|data|)
    ensures r.Success? ==> |r.value| == |data|
  {
    var x :- Transform(m, Lift(data));
    Success(RealParts(Inverse(m, BinMap(x, rule)).value))
  }

  /** Bin `k` of the spectrum replaced by `rule(k, x[k])`. */
  function BinMap(x: seq<Complex>, rule: (int, Complex) -> Complex): (r: seq<Complex>)
    ensures |r| == |x|
    ensures forall k :: 0 <= k < |x| ==> r[k] == rule(k, x[k])
  {
    seq(|x|, k requires 0 <= k < |x| => rule(k, x[k]))
  }

  /** What a spectral effect that keeps every bin returns. */
  function RoundTrip(m: Numerics, data: seq<real>): Result<seq<real>> {
    SpectralApply(m, data, (k: int, x: Complex) => x)
  }

  /** Two effects whose bin rules add up to a third give outputs that add
      up to its output, sample by sample. */
  lemma SpectralSum(m: Numerics, data: seq<real>, r1: (int, Complex) -> Complex,
                    r2: (int, Complex) -> Complex, r: (int, Complex) -> Complex)
    requires forall k: int, x: Complex :: 0 <= k < |data| ==> r(k, x) == Add(r1(k, x), r2(k, x))
    ensures SpectralApply(m, data, r).Success? ==>
      forall i :: 0 <= i < |data| ==>
        SpectralApply(m, data, r).value[i]
          == SpectralApply(m, data, r1).value[i] + SpectralApply(m, data, r2).value[i]
  {
    var t := Transform(m, Lift(data));
    if t.Success? {
      var x := t.value;
      assert BinMap(x, r) == AddSeq(BinMap(x, r1), BinMap(x, r2));
      InverseAdditive(m, BinMap(x, r1), BinMap(x, r2));
    }
  }

  /** Every sample multiplied by `c`. */
  function ScaleAll(d: seq<real>, c: real): (r: seq<real>)
    ensures |r| == |d|
    ensures forall i :: 0 <= i < |d| ==> r[i] == d[i] * c
  {
    seq(|d|, i requires 0 <= i < |d| => d[i] * c)
  }

  /** An effect that multiplies every bin by the same real factor `c`
      multiplies every output sample of the round trip by `c`. */
  lemma SpectralGain(m: Numerics, data: seq<real>, r: (int, Complex) -> Complex, c: real)
    requires forall k: int, x: Complex :: 0 <= k < |data| ==> r(k, x) == Scale(x, c)
    ensures SpectralApply(m, data, r).Success? == RoundTrip(m, data).Success?
    ensures RoundTrip(m, data).Success? ==>
      SpectralApply(m, data, r) == Success(ScaleAll(RoundTrip(m, data).value, c))
  {
    var t := Transform(m, Lift(data));
    if t.Success? {
      var x := t.value;
      assert BinMap(x, r) == ScaleSeq(x, c);
      InverseScale(m, x, c);
      RoundTripUnfold(m, data);
      RealPartsScale(Inverse(m, x).value, c);
    }
  }

  lemma RoundTripUnfold(m: Numerics, data: seq<real>)
    requires Transform(m, Lift(data)).Success?
    ensures RoundTrip(m, data) == Success(RealParts(Inverse(m, Transform(m, Lift(data)).value).value))
  {
    var x := Transform(m, Lift(data)).value;
    assert BinMap(x, (k: int, y: Complex) => y) == x;
  }

  lemma RealPartsScale(z: seq<Complex>, c: real)
    ensures RealParts(ScaleSeq(z, c)) == ScaleAll(RealParts(z), c)
  {
    assert forall i :: 0 <= i < |z| ==> RealParts(ScaleSeq(z, c))[i] == ScaleAll(RealParts(z), c)[i];
  }

  /** For two samples the round trip gives the samples back. */
  lemma RoundTripTwoSamples(m: Numerics, a: real, b: real)
    requires TwiddleLaw(m.twiddle)
    ensures RoundTrip(m, [a, b]) == Success([a, b])
  {
    var x, y := Complex(a, 0.0), Complex(b, 0.0);
    assert Lift([a, b]) == [x, y];
    Fft.RoundTripTwo(m, x, y);
    var t := Transform(m, [x, y]).value;
    assert BinMap(t, (k: int, z: Complex) => z) == t;
    assert Inverse(m, t) == Success([x, y]);
    assert RealParts([x, y]) == [a, b];
  }
}
