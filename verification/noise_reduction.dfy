/** `noise-reduction/NoisReduction.ts`: a chain of threshold filters, each of
    which zeroes a frequency bin it judges to be noise, run by a stereo
    handler that hands mono input on to a mono handler. */
module NoiseReduction {
  import opened Common
  import opened ComplexNumbers
  import opened Bits
  import opened Fft
  import opened Audio

  /** `NoiseReductionMethod`. */
  datatype Method = Amplitude | Power | Decibel | AbsoluteValue

  /** The enum's numeric values 0 to 3; any other value reaches the
      `default` branch of the constructor's `switch`. */
  function MethodOf(code: int): (r: Option<Method>)
    ensures r.Some? <==> 0 <= code <= 3
    ensures r == Some(Amplitude) <==> code == 0
    ensures r == Some(Power) <==> code == 1
    ensures r == Some(Decibel) <==> code == 2
    ensures r == Some(AbsoluteValue) <==> code == 3
  {
    if code == 0 then Some(Amplitude)
    else if code == 1 then Some(Power)
    else if code == 2 then Some(Decibel)
    else if code == 3 then Some(AbsoluteValue)
    else None
  }

  /** One `{ method, threshold }` pair as passed to the constructor. */
  datatype Pair = Pair(code: int, threshold: real)

  /** A constructed filter. */
  datatype NoiseFilter = NoiseFilter(kind: Method, threshold: real)

  /** The filters the constructor builds, in order: an unknown method
      throws 'Unsupported noise reduction method', an empty list throws
      'No filters provided'. */
  function BuildFilters(pairs: seq<Pair>): (r: Result<seq<NoiseFilter>>)
    ensures r.Success? <==> |pairs| > 0 && forall i :: 0 <= i < |pairs| ==> MethodOf(pairs[i].code).Some?
    ensures r.Failure? && (exists i :: 0 <= i < |pairs| && MethodOf(pairs[i].code).None?) ==>
      r.error == UnsupportedMethod
    ensures |pairs| == 0 ==> r == Failure(NoFilters)
    ensures r.Success? ==> |r.value| == |pairs|
    ensures r.Success? ==> forall i :: 0 <= i < |pairs| ==>
      Some(r.value[i].kind) == MethodOf(pairs[i].code) && r.value[i].threshold == pairs[i].threshold
  {
    var fs :- Convert(pairs);
    if |fs| == 0 then Failure(NoFilters) else Success(fs)
  }

  /** The `forEach` over the pairs, stopping at the first unknown method. */
  function Convert(pairs: seq<Pair>): (r: Result<seq<NoiseFilter>>)
    ensures r.Success? <==> forall i :: 0 <= i < |pairs| ==> MethodOf(pairs[i].code).Some?
    ensures r.Failure? ==> r.error == UnsupportedMethod
    ensures r.Success? ==> |r.value| == |pairs|
    ensures r.Success? ==> forall i :: 0 <= i < |pairs| ==>
      Some(r.value[i].kind) == MethodOf(pairs[i].code) && r.value[i].threshold == pairs[i].threshold
  {
    if |pairs| == 0 then Success([])
    else
      match MethodOf(pairs[0].code)
      case None => Failure(UnsupportedMethod)
      case Some(meth) =>
        var rest :- Convert(pairs[1..]);
        assert forall i :: 1 <= i < |pairs| ==> pairs[1..][i - 1] == pairs[i];
        Success([NoiseFilter(meth, pairs[0].threshold)] + rest)
  }

  /** `20 * Math.log10(amplitude) < threshold` for the amplitude of a bin:
      `log10(0)` is `-Infinity`, below every finite threshold, and the
      logarithm of a negative number is NaN, below nothing. */
  predicate DecibelBelow(m: Numerics, amplitude: real, threshold: real) {
    if amplitude > 0.0 then 20.0 * m.log10(amplitude) < threshold
    else amplitude == 0.0
  }

  function Abs(x: real): real {
    if x < 0.0 then -x else x
  }

  /** `shouldFilter` of each filter class. */
  predicate ShouldFilter(m: Numerics, f: NoiseFilter, x: Complex) {
    match f.kind
    case Amplitude => Magnitude(m, x) < f.threshold
    case Power => NormSq(x) < f.threshold
    case Decibel => DecibelBelow(m, Magnitude(m, x), f.threshold)
    case AbsoluteValue => Abs(x.re) < f.threshold && Abs(x.im) < f.threshold
  }

  /** `applyFilter`: a bin judged to be noise becomes `0 + 0i`. */
  function ApplyOne(m: Numerics, f: NoiseFilter, x: Complex): Complex {
    if ShouldFilter(m, f, x) then Zero else x
  }

  /** The chain as the code behaves. Every filter class overrides `filter`
      with `applyFilter` alone and never consults `nextFilter`, so only the
      first filter of the list is ever applied (the constructor moreover
      links every later filter to the head, so only the last one would be
      its successor). */
  function ChainAsWritten(m: Numerics, fs: seq<NoiseFilter>, x: Complex): (r: Complex)
    requires |fs| > 0
    ensures r == x || r == Zero
    ensures r == Zero <==> ShouldFilter(m, fs[0], x) || x == Zero
  {
    ApplyOne(m, fs[0], x)
  }

  /** The chain as a chain of responsibility evidently means it: every
      filter in list order, each on the previous one's output. */
  function Chain(m: Numerics, fs: seq<NoiseFilter>, x: Complex): Complex {
    if |fs| == 0 then x else Chain(m, fs[1..], ApplyOne(m, fs[0], x))
  }

  /** Some filter of the list judges `x` to be noise. */
  predicate AnyTriggers(m: Numerics, fs: seq<NoiseFilter>, x: Complex) {
    exists i :: 0 <= i < |fs| && ShouldFilter(m, fs[i], x)
  }

  /** A zero bin stays zero through the chain. */
  lemma {:induction false} ChainKeepsZero(m: Numerics, fs: seq<NoiseFilter>)
    ensures Chain(m, fs, Zero) == Zero
  {
    if |fs| > 0 {
      ChainKeepsZero(m, fs[1..]);
    }
  }

  /** The chain zeroes a bin exactly when some filter of the list judges
      the original bin to be noise, and otherwise leaves it alone. */
  lemma {:induction false} ChainIsAnyFilter(m: Numerics, fs: seq<NoiseFilter>, x: Complex)
    ensures Chain(m, fs, x) == (if AnyTriggers(m, fs, x) then Zero else x)
  {
    if |fs| > 0 {
      if ShouldFilter(m, fs[0], x) {
        ChainKeepsZero(m, fs[1..]);
      } else {
        ChainIsAnyFilter(m, fs[1..], x);
        if AnyTriggers(m, fs[1..], x) {
          var i :| 0 <= i < |fs[1..]| && ShouldFilter(m, fs[1..][i], x);
          assert ShouldFilter(m, fs[i + 1], x);
        }
        if AnyTriggers(m, fs, x) {
          var i :| 0 <= i < |fs| && ShouldFilter(m, fs[i], x);
          assert ShouldFilter(m, fs[1..][i - 1], x);
        }
      }
    }
  }

  /** A concatenated list triggers when either part does. */
  lemma AnyTriggersConcat(m: Numerics, a: seq<NoiseFilter>, b: seq<NoiseFilter>, x: Complex)
    ensures AnyTriggers(m, a + b, x) <==> AnyTriggers(m, a, x) || AnyTriggers(m, b, x)
  {
    if AnyTriggers(m, a + b, x) {
      var i :| 0 <= i < |a + b| && ShouldFilter(m, (a + b)[i], x);
      if i >= |a| {
        assert (a + b)[i] == b[i - |a|];
      }
    }
    if AnyTriggers(m, a, x) {
      var i :| 0 <= i < |a| && ShouldFilter(m, a[i], x);
      assert (a + b)[i] == a[i];
    }
    if AnyTriggers(m, b, x) {
      var i :| 0 <= i < |b| && ShouldFilter(m, b[i], x);
      assert (a + b)[|a| + i] == b[i];
    }
  }

  /** The order of the filters does not matter to the intended chain. */
  lemma ChainOrderIrrelevant(m: Numerics, a: seq<NoiseFilter>, b: seq<NoiseFilter>, x: Complex)
    ensures Chain(m, a + b, x) == Chain(m, b + a, x)
  {
    ChainIsAnyFilter(m, a + b, x);
    ChainIsAnyFilter(m, b + a, x);
    AnyTriggersConcat(m, a, b, x);
    AnyTriggersConcat(m, b, a, x);
  }

  /** Running the chain twice changes nothing more. */
  lemma ChainIdempotent(m: Numerics, fs: seq<NoiseFilter>, x: Complex)
    ensures Chain(m, fs, Chain(m, fs, x)) == Chain(m, fs, x)
  {
    ChainIsAnyFilter(m, fs, x);
    if AnyTriggers(m, fs, x) {
      ChainKeepsZero(m, fs);
    } else {
      ChainIsAnyFilter(m, fs, x);
    }
  }

  /** With a single filter the code and the intended chain agree. */
  lemma SingleFilterAgrees(m: Numerics, f: NoiseFilter, x: Complex)
    ensures ChainAsWritten(m, [f], x) == Chain(m, [f], x)
  {
  }

  /** With two filters they differ: a power filter with threshold 1 keeps
      the bin `2 + 0i`, an absolute-value filter with threshold 5 behind
      it would remove it, and the code never runs the second filter. */
  lemma AsWrittenSkipsLaterFilters(m: Numerics)
    ensures var fs := [NoiseFilter(Power, 1.0), NoiseFilter(AbsoluteValue, 5.0)];
      ChainAsWritten(m, fs, Complex(2.0, 0.0)) == Complex(2.0, 0.0) &&
      Chain(m, fs, Complex(2.0, 0.0)) == Zero
  {
    var fs := [NoiseFilter(Power, 1.0), NoiseFilter(AbsoluteValue, 5.0)];
    var x := Complex(2.0, 0.0);
    assert NormSq(x) == 4.0;
    assert ApplyOne(m, fs[0], x) == x;
    assert fs[1..] == [NoiseFilter(AbsoluteValue, 5.0)];
    assert ApplyOne(m, fs[1], x) == Zero;
    assert Chain(m, fs[1..], x) == Chain(m, [], Zero);
  }

  lemma SquareLt(a: real, t: real)
    requires Abs(a) < t
    ensures a * a < t * t
  {
    var b := Abs(a);
    assert a * a == b * b;
    assert t * t - b * b == (t - b) * (t + b);
    MulPos(t - b, t + b);
  }

  lemma MulPos(p: real, q: real)
    requires 0.0 < p && 0.0 < q
    ensures 0.0 < p * q
  {
  }

  /** An absolute-value filter removes only bins whose power is below
      twice the square of its threshold. */
  lemma AbsoluteValueBoundsPower(m: Numerics, t: real, x: Complex)
    ensures ShouldFilter(m, NoiseFilter(AbsoluteValue, t), x) ==> NormSq(x) < 2.0 * (t * t)
  {
    if ShouldFilter(m, NoiseFilter(AbsoluteValue, t), x) {
      SquareLt(x.re, t);
      SquareLt(x.im, t);
    }
  }

  /** An amplitude filter with threshold `t ≥ 0` removes exactly the bins a
      power filter with threshold `t²` removes. */
  lemma AmplitudeIsPowerOfSquare(m: Numerics, t: real, x: Complex)
    requires SqrtLaw(m.sqrt) && SqrtHomogeneous(m.sqrt) && 0.0 <= t
    ensures ShouldFilter(m, NoiseFilter(Amplitude, t), x)
        <==> ShouldFilter(m, NoiseFilter(Power, t * t), x)
  {
    var n, tt := NormSq(x), t * t;
    assert m.sqrt(tt) == t by {
      assert SquareTimes(t, 1.0) == tt;
      assert m.sqrt(SquareTimes(t, 1.0)) == t * m.sqrt(1.0);
    }
    assert Magnitude(m, x) == m.sqrt(n);
    SqrtOrder(m.sqrt, n, tt);
  }

  /** A square root law keeps the strict order of non-negative numbers. */
  lemma SqrtOrder(sqrt: real -> real, a: real, b: real)
    requires SqrtLaw(sqrt) && 0.0 <= a && 0.0 <= b
    ensures sqrt(a) < sqrt(b) <==> a < b
  {
    if a < b {
      assert sqrt(a) < sqrt(b);
    } else if b < a {
      assert sqrt(b) < sqrt(a);
    }
  }

  /** A decibel filter removes every silent bin, whatever its threshold. */
  lemma DecibelRemovesSilence(m: Numerics, t: real, x: Complex)
    requires SqrtLaw(m.sqrt) && NormSq(x) == 0.0
    ensures ShouldFilter(m, NoiseFilter(Decibel, t), x)
  {
  }

  /** With two filters the code is order-sensitive: the same two filters
      keep the bin `2 + 0i` in one order and remove it in the other. */
  lemma AsWrittenOrderMatters(m: Numerics)
    ensures var a := [NoiseFilter(Power, 1.0)];
      var b := [NoiseFilter(AbsoluteValue, 5.0)];
      ChainAsWritten(m, a + b, Complex(2.0, 0.0)) != ChainAsWritten(m, b + a, Complex(2.0, 0.0))
  {
    var a := [NoiseFilter(Power, 1.0)];
    var b := [NoiseFilter(AbsoluteValue, 5.0)];
    var x := Complex(2.0, 0.0);
    assert NormSq(x) == 4.0;
    assert (a + b)[0] == NoiseFilter(Power, 1.0);
    assert (b + a)[0] == NoiseFilter(AbsoluteValue, 5.0);
    assert ApplyOne(m, (a + b)[0], x) == x;
    assert ApplyOne(m, (b + a)[0], x) == Zero;
  }

  /** The per-channel pipeline of `MonoNoiseReductionHandler.process` as
      written: the handler holds the head of the chain, whose `filter` does
      not pass the bin on, so each bin meets the first filter only. */
  function ReduceChannel(m: Numerics, fs: seq<NoiseFilter>, data: seq<real>): (r: Result<seq<real>>)
    requires |fs| > 0
    ensures r.Success? <==> Transformable(|data|)
    ensures r.Success? ==> |r.value| == |data|
  {
    SpectralApply(m, data, (k: int, x: Complex) => ChainAsWritten(m, fs, x))
  }

  /** The per-channel pipeline with every filter of the chain applied. */
  function ReduceChannelIntended(m: Numerics, fs: seq<NoiseFilter>, data: seq<real>): (r: Result<seq<real>>)
    ensures r.Success? <==> Transformable(|data|)
    ensures r.Success? ==> |r.value| == |data|
  {
    SpectralApply(m, data, (k: int, x: Complex) => Chain(m, fs, x))
  }

  /** The handler chain `stereo → mono` around a channel pipeline `f`.
      Stereo input has both channels processed and `audioData` carried
      over; anything else is processed as mono and comes back as
      `{ audioData }` alone, a lone left or right channel dropped; a
      missing `audioData` makes `.map` throw. */
  function HandleWith(c: Container, f: seq<real> -> Result<seq<real>>): (r: Result<Container>)
    ensures IsStereo(c) ==>
      (r.Success? <==> f(c.left.value).Success? && f(c.right.value).Success?)
    ensures IsStereo(c) && r.Success? ==>
      r.value == Container(c.mono, Some(f(c.left.value).value), Some(f(c.right.value).value))
    ensures !IsStereo(c) && c.mono.None? ==> r == Failure(MissingChannelData)
    ensures !IsStereo(c) && c.mono.Some? ==> (r.Success? <==> f(c.mono.value).Success?)
    ensures !IsStereo(c) && r.Success? ==>
      r.value == Container(Some(f(c.mono.value).value), None, None)
  {
    if IsStereo(c) then
      var l :- f(c.left.value);
      var rt :- f(c.right.value);
      Success(Container(c.mono, Some(l), Some(rt)))
    else if c.mono.None? then
      Failure(MissingChannelData)
    else
      var d :- f(c.mono.value);
      Success(Container(Some(d), None, None))
  }

  /** The handlers as the constructor builds them, holding the head filter. */
  function Handle(m: Numerics, fs: seq<NoiseFilter>, c: Container): (r: Result<Container>)
    requires |fs| > 0
    ensures IsStereo(c) ==>
      (r.Success? <==> Transformable(|c.left.value|) && Transformable(|c.right.value|))
    ensures IsStereo(c) && r.Success? ==>
      r.value == Container(c.mono, Some(ReduceChannel(m, fs, c.left.value).value),
                           Some(ReduceChannel(m, fs, c.right.value).value))
    ensures !IsStereo(c) && c.mono.None? ==> r == Failure(MissingChannelData)
    ensures !IsStereo(c) && c.mono.Some? ==> (r.Success? <==> Transformable(|c.mono.value|))
    ensures !IsStereo(c) && r.Success? ==>
      r.value == Container(Some(ReduceChannel(m, fs, c.mono.value).value), None, None)
  {
    HandleWith(c, (d: seq<real>) => ReduceChannel(m, fs, d))
  }

  /** The handlers with the whole chain applied to each bin. */
  function HandleIntended(m: Numerics, fs: seq<NoiseFilter>, c: Container): (r: Result<Container>)
    ensures IsStereo(c) ==>
      (r.Success? <==> Transformable(|c.left.value|) && Transformable(|c.right.value|))
    ensures IsStereo(c) && r.Success? ==>
      r.value == Container(c.mono, Some(ReduceChannelIntended(m, fs, c.left.value).value),
                           Some(ReduceChannelIntended(m, fs, c.right.value).value))
    ensures !IsStereo(c) && c.mono.None? ==> r == Failure(MissingChannelData)
    ensures !IsStereo(c) && c.mono.Some? ==> (r.Success? <==> Transformable(|c.mono.value|))
    ensures !IsStereo(c) && r.Success? ==>
      r.value == Container(Some(ReduceChannelIntended(m, fs, c.mono.value).value), None, None)
  {
    HandleWith(c, (d: seq<real>) => ReduceChannelIntended(m, fs, d))
  }

  /** `new NoiseReduction(pairs).reduceNoise(audio)` as written. */
  function ReduceNoise(m: Numerics, pairs: seq<Pair>, c: Container): (r: Result<Container>)
    ensures |pairs| == 0 ==> r == Failure(NoFilters)
    ensures (exists i :: 0 <= i < |pairs| && MethodOf(pairs[i].code).None?) ==>
      r == Failure(UnsupportedMethod)
    ensures BuildFilters(pairs).Success? ==> r == Handle(m, BuildFilters(pairs).value, c)
  {
    var fs :- BuildFilters(pairs);
    Handle(m, fs, c)
  }

  /** `reduceNoise` with every filter of the list applied to each bin. */
  function ReduceNoiseIntended(m: Numerics, pairs: seq<Pair>, c: Container): (r: Result<Container>)
    ensures |pairs| == 0 ==> r == Failure(NoFilters)
    ensures (exists i :: 0 <= i < |pairs| && MethodOf(pairs[i].code).None?) ==>
      r == Failure(UnsupportedMethod)
    ensures BuildFilters(pairs).Success? ==> r == HandleIntended(m, BuildFilters(pairs).value, c)
  {
    var fs :- BuildFilters(pairs);
    HandleIntended(m, fs, c)
  }

  /** A channel as written is the intended pipeline run with the first
      filter alone. */
  lemma ChannelUsesHeadOnly(m: Numerics, fs: seq<NoiseFilter>, data: seq<real>)
    requires |fs| > 0
    ensures ReduceChannel(m, fs, data) == ReduceChannelIntended(m, [fs[0]], data)
  {
    var t := Transform(m, Lift(data));
    if t.Success? {
      var x := t.value;
      forall k | 0 <= k < |x|
        ensures ChainAsWritten(m, fs, x[k]) == Chain(m, [fs[0]], x[k])
      {
        SingleFilterAgrees(m, fs[0], x[k]);
      }
      assert BinMap(x, (k: int, y: Complex) => ChainAsWritten(m, fs, y))
          == BinMap(x, (k: int, y: Complex) => Chain(m, [fs[0]], y));
    }
  }

  /** The filters after the first are never consulted: `reduceNoise` as
      written is the intended `reduceNoise` given the first pair alone. */
  lemma ReduceNoiseUsesHeadOnly(m: Numerics, pairs: seq<Pair>, c: Container)
    requires BuildFilters(pairs).Success?
    ensures ReduceNoise(m, pairs, c) == ReduceNoiseIntended(m, pairs[..1], c)
  {
    var fs := BuildFilters(pairs).value;
    var head := pairs[..1];
    assert head[0] == pairs[0];
    assert BuildFilters(head).Success?;
    assert BuildFilters(head).value == [fs[0]];
    if IsStereo(c) {
      ChannelUsesHeadOnly(m, fs, c.left.value);
      ChannelUsesHeadOnly(m, fs, c.right.value);
    } else if c.mono.Some? {
      ChannelUsesHeadOnly(m, fs, c.mono.value);
    }
  }

  /** When the first filter judges no bin of the spectrum to be noise, a
      channel as written comes back as the round trip of its input. */
  lemma QuietHeadIsRoundTrip(m: Numerics, fs: seq<NoiseFilter>, data: seq<real>)
    requires |fs| > 0
    requires Transform(m, Lift(data)).Success?
    requires var x := Transform(m, Lift(data)).value;
      forall k :: 0 <= k < |x| ==> !ShouldFilter(m, fs[0], x[k])
    ensures ReduceChannel(m, fs, data) == RoundTrip(m, data)
  {
    var x := Transform(m, Lift(data)).value;
    assert BinMap(x, (k: int, y: Complex) => ChainAsWritten(m, fs, y)) == BinMap(x, (k: int, y: Complex) => y);
  }

  /** When no filter judges any bin of the spectrum to be noise, a channel
      of the intended pipeline comes back as the round trip of its input. */
  lemma QuietChainIsRoundTrip(m: Numerics, fs: seq<NoiseFilter>, data: seq<real>)
    requires Transform(m, Lift(data)).Success?
    requires var x := Transform(m, Lift(data)).value;
      forall k :: 0 <= k < |x| ==> !AnyTriggers(m, fs, x[k])
    ensures ReduceChannelIntended(m, fs, data) == RoundTrip(m, data)
  {
    var x := Transform(m, Lift(data)).value;
    forall k | 0 <= k < |x|
      ensures Chain(m, fs, x[k]) == x[k]
    {
      ChainIsAnyFilter(m, fs, x[k]);
    }
    assert BinMap(x, (k: int, y: Complex) => Chain(m, fs, y)) == BinMap(x, (k: int, y: Complex) => y);
  }
}
