/** The frequency-domain filters of `audio-filters/audioFilters.ts`. Each
    filter decides, from the frequency of a bin alone, whether to keep the
    bin, zero it, scale it by a gain, or rotate its phase. */
module Filters {
  import opened Common
  import opened ComplexNumbers
  import opened Bits
  import opened Fft
  import opened Audio

  /** The `type` of a shelving filter: `'low'` or `'high'`. */
  datatype ShelfType = LowShelf | HighShelf

  /** The seven `AudioFilter` implementations and their constructor fields. */
  datatype Filter =
    | HighPass(cutoff: real)
    | LowPass(cutoff: real)
    | BandPass(low: real, high: real)
    | BandStop(low: real, high: real)
    | Peaking(center: real, gainDb: real, bandwidth: real)
    | Shelving(cutoff: real, gainDb: real, kind: ShelfType)
    | AllPass(phaseShift: real)

  function Abs(x: real): real {
    if x < 0.0 then -x else x
  }

  /** Whether a zeroing filter removes the bin at frequency `f`. */
  predicate Removes(flt: Filter, f: real)
    requires flt.HighPass? || flt.LowPass? || flt.BandPass? || flt.BandStop?
  {
    match flt
    case HighPass(c) => f < c
    case LowPass(c) => f > c
    case BandPass(lo, hi) => f < lo || f > hi
    case BandStop(lo, hi) => lo <= f && f <= hi
  }

  /** The real factor a gain filter applies at frequency `f`. */
  function GainAt(m: Numerics, flt: Filter, f: real): real
    requires flt.Peaking? || flt.Shelving?
  {
    var gain := DbToAmplitude(m, flt.gainDb);
    match flt
    case Peaking(center, _, bw) =>
      if Abs(f - center) <= bw / 2.0 then gain else 1.0
    case Shelving(c, _, kind) =>
      if (kind == LowShelf && f <= c) || (kind == HighShelf && f >= c) then gain else 1.0
  }

  /** The new value of a bin holding `x` at frequency `f`. */
  function BinRule(m: Numerics, flt: Filter, f: real, x: Complex): Complex {
    match flt
    case AllPass(shift) => m.rotate(x, shift)
    case Peaking(_, _, _) => Scale(x, GainAt(m, flt, f))
    case Shelving(_, _, _) => Scale(x, GainAt(m, flt, f))
    case _ => if Removes(flt, f) then Zero else x
  }

  /** `filter.apply(data, sampleRate)`. */
  function Apply(m: Numerics, flt: Filter, data: seq<real>, sampleRate: real): (r: Result<seq<real>>)
    ensures r.Success? <==> Transformable(|data|)
    ensures r.Success? ==> |r.value| == |data|
  {
    SpectralApply(m, data, (k: int, x: Complex) => BinRule(m, flt, BinFrequency(k, sampleRate, |data|), x))
  }

  /** `FilterHandler.applyFilter(audio, sampleRate)`. */
  function ApplyFilter(m: Numerics, flt: Filter, c: Container, sampleRate: real): (r: Result<Container>)
    ensures IsStereo(c) ==>
      (r.Success? <==> Transformable(|c.left.value|) && Transformable(|c.right.value|))
    ensures !IsStereo(c) && c.mono.Some? ==> (r.Success? <==> Transformable(|c.mono.value|))
    ensures IsStereo(c) && r.Success? ==>
      r.value == c.(left := Some(Apply(m, flt, c.left.value, sampleRate).value),
                    right := Some(Apply(m, flt, c.right.value, sampleRate).value))
    ensures !IsStereo(c) && c.mono.None? ==> r == Failure(MissingChannelData)
    ensures !IsStereo(c) && r.Success? ==>
      r.value == c.(mono := Some(Apply(m, flt, c.mono.value, sampleRate).value))
  {
    ForEachChannel(c, (d: seq<real>) => Apply(m, flt, d, sampleRate))
  }

  /** High-pass and low-pass with the same cutoff split every bin away from
      the cutoff between them: exactly one of the two removes it. Both keep
      a bin exactly at the cutoff. */
  lemma HighLowComplement(c: real, f: real)
    ensures f != c ==> (Removes(HighPass(c), f) <==> !Removes(LowPass(c), f))
    ensures f == c ==> !Removes(HighPass(c), f) && !Removes(LowPass(c), f)
  {
  }

  /** A band-pass keeps exactly the bins its band-stop twin removes. */
  lemma BandComplement(lo: real, hi: real, f: real)
    ensures Removes(BandPass(lo, hi), f) <==> !Removes(BandStop(lo, hi), f)
  {
  }

  /** A band-pass is a high-pass at the low edge followed by a low-pass at
      the high edge, bin by bin. */
  lemma BandPassIsHighThenLow(m: Numerics, lo: real, hi: real, f: real, x: Complex)
    ensures BinRule(m, BandPass(lo, hi), f, x)
         == BinRule(m, LowPass(hi), f, BinRule(m, HighPass(lo), f, x))
  {
  }

  /** Zeroing filters are idempotent on every bin. */
  lemma ZeroingIdempotent(m: Numerics, flt: Filter, f: real, x: Complex)
    requires flt.HighPass? || flt.LowPass? || flt.BandPass? || flt.BandStop?
    ensures BinRule(m, flt, f, BinRule(m, flt, f, x)) == BinRule(m, flt, f, x)
    ensures BinRule(m, flt, f, x) == (if Removes(flt, f) then Zero else x)
  {
  }

  /** Band-pass and band-stop outputs add up, sample by sample, to the
      round trip of the input. */
  lemma BandSplitSumsToRoundTrip(m: Numerics, lo: real, hi: real, data: seq<real>, sampleRate: real)
    ensures Apply(m, BandPass(lo, hi), data, sampleRate).Success? ==
            RoundTrip(m, data).Success?
    ensures RoundTrip(m, data).Success? ==>
      forall i :: 0 <= i < |data| ==>
        Apply(m, BandPass(lo, hi), data, sampleRate).value[i]
          + Apply(m, BandStop(lo, hi), data, sampleRate).value[i]
        == RoundTrip(m, data).value[i]
  {
    var n := |data|;
    var bp := (k: int, x: Complex) => BinRule(m, BandPass(lo, hi), BinFrequency(k, sampleRate, n), x);
    var bs := (k: int, x: Complex) => BinRule(m, BandStop(lo, hi), BinFrequency(k, sampleRate, n), x);
    var id := (k: int, x: Complex) => x;
    forall k: int, x: Complex
      ensures id(k, x) == Add(bp(k, x), bs(k, x))
    {
      BandComplement(lo, hi, BinFrequency(k, sampleRate, n));
    }
    SpectralSum(m, data, bp, bs, id);
  }

  /** A gain of 0 dB leaves every bin alone, so a peaking or shelving
      filter with `gainDb = 0` returns the round trip of its input. */
  lemma ZeroGainIsRoundTrip(m: Numerics, flt: Filter, data: seq<real>, sampleRate: real)
    requires Pow10Law(m.pow10)
    requires (flt.Peaking? || flt.Shelving?) && flt.gainDb == 0.0
    ensures Apply(m, flt, data, sampleRate) == RoundTrip(m, data)
  {
    var n := |data|;
    var r := (k: int, x: Complex) => BinRule(m, flt, BinFrequency(k, sampleRate, n), x);
    var t := Transform(m, Lift(data));
    if t.Success? {
      assert BinMap(t.value, r) == BinMap(t.value, (k: int, x: Complex) => x);
    }
  }

  /** A peaking filter whose band covers every bin multiplies the whole
      round trip by its gain. */
  lemma WideBandPeakingScales(m: Numerics, center: real, gainDb: real, bw: real,
                              data: seq<real>, sampleRate: real)
    requires forall k: int :: 0 <= k < |data| ==> Abs(BinFrequency(k, sampleRate, |data|) - center) <= bw / 2.0
    ensures RoundTrip(m, data).Success? ==>
      Apply(m, Peaking(center, gainDb, bw), data, sampleRate)
        == Success(ScaleAll(RoundTrip(m, data).value, DbToAmplitude(m, gainDb)))
  {
    var flt := Peaking(center, gainDb, bw);
    var g := DbToAmplitude(m, gainDb);
    var r := (k: int, x: Complex) => BinRule(m, flt, BinFrequency(k, sampleRate, |data|), x);
    forall k: int, x: Complex | 0 <= k < |data|
      ensures r(k, x) == Scale(x, g)
    {
      assert GainAt(m, flt, BinFrequency(k, sampleRate, |data|)) == g;
    }
    SpectralGain(m, data, r, g);
  }

  /** An all-pass filter keeps the squared magnitude of every bin. */
  lemma AllPassKeepsMagnitude(m: Numerics, shift: real, f: real, x: Complex)
    requires RotateLaw(m.rotate)
    ensures NormSq(BinRule(m, AllPass(shift), f, x)) == NormSq(x)
  {
  }

  /** Eight samples at 8 Hz put bin `k` at `k` Hz; a 2 Hz low-pass keeps
      bins 0, 1 and 2 and zeroes bins 3 to 7 (the strict `>` keeps the
      cutoff bin itself). */
  lemma LowPassEightBins(m: Numerics, k: int)
    requires 0 <= k < 8
    ensures BinFrequency(k, 8.0, 8) == k as real
    ensures Removes(LowPass(2.0), BinFrequency(k, 8.0, 8)) <==> k > 2
  {
  }
}
