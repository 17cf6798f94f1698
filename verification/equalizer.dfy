/** `equalizer/Equalizer.ts`: each bin is scaled by the gain of the first
    setting, in iteration order, whose frequency key is at least the bin's
    frequency; bins above every key keep gain 1. */
module Equalizer {
  import opened Common
  import opened ComplexNumbers
  import opened Bits
  import opened Fft
  import opened Audio

  /** One `[freqHz, settingGain]` entry, the key already parsed. */
  datatype Band = Band(key: real, gain: real)

  /** The gain the `for … of Object.entries(settings)` loop settles on. */
  function GainFor(settings: seq<Band>, f: real): real {
    if |settings| == 0 then 1.0
    else if f <= settings[0].key then settings[0].gain
    else GainFor(settings[1..], f)
  }

  /** The loop itself, with its `break`. */
  method GainLoop(settings: seq<Band>, f: real) returns (gain: real)
    ensures gain == GainFor(settings, f)
  {
    gain := 1.0;
    var i := 0;
    while i < |settings|
      invariant 0 <= i <= |settings|
      invariant forall j :: 0 <= j < i ==> f > settings[j].key
      invariant GainFor(settings, f) == GainFor(settings[i..], f)
    {
      if f <= settings[i].key {
        gain := settings[i].gain;
        break;
      }
      assert settings[i..][1..] == settings[i + 1..];
      i := i + 1;
    }
  }

  /** Keys strictly increasing: the order `Object.entries` gives
      integer-like keys. */
  predicate Ascending(settings: seq<Band>) {
    forall i, j :: 0 <= i < j < |settings| ==> settings[i].key < settings[j].key
  }

  /** The first entry whose key is at least `f` is the one whose gain
      wins. */
  lemma {:induction false} GainIsFirstMatch(settings: seq<Band>, f: real, i: nat)
    requires i < |settings| && f <= settings[i].key
    requires forall j :: 0 <= j < i ==> f > settings[j].key
    ensures GainFor(settings, f) == settings[i].gain
    decreases i
  {
    if i > 0 {
      assert f > settings[0].key;
      assert settings[1..][i - 1] == settings[i];
      forall j | 0 <= j < i - 1 ensures f > settings[1..][j].key {
        assert settings[1..][j] == settings[j + 1];
      }
      GainIsFirstMatch(settings[1..], f, i - 1);
    }
  }

  /** No entry whose key is at least `f` means gain 1. */
  lemma {:induction false} GainWithoutMatch(settings: seq<Band>, f: real)
    requires forall j :: 0 <= j < |settings| ==> f > settings[j].key
    ensures GainFor(settings, f) == 1.0
    decreases |settings|
  {
    if |settings| > 0 {
      assert f > settings[0].key;
      forall j | 0 <= j < |settings| - 1 ensures f > settings[1..][j].key {
        assert settings[1..][j] == settings[j + 1];
      }
      GainWithoutMatch(settings[1..], f);
    }
  }

  /** With ascending keys the gain is that of the smallest key at or above
      the bin's frequency. */
  lemma AscendingPicksSmallestKeyAbove(settings: seq<Band>, f: real, i: nat)
    requires Ascending(settings)
    requires i < |settings| && f <= settings[i].key
    requires forall j :: 0 <= j < |settings| && f <= settings[j].key ==> settings[i].key <= settings[j].key
    ensures GainFor(settings, f) == settings[i].gain
  {
    assert forall j :: 0 <= j < i ==> settings[j].key < settings[i].key;
    GainIsFirstMatch(settings, f, i);
  }

  /** Bin `k` scaled by its gain. */
  function EqRule(settings: seq<Band>, sampleRate: real, n: nat): (int, Complex) -> Complex {
    (k: int, x: Complex) => Scale(x, GainFor(settings, BinFrequency(k, sampleRate, n)))
  }

  /** `applyEqualizer(data, settings, sampleRate)`. */
  function Equalize(m: Numerics, data: seq<real>, settings: seq<Band>, sampleRate: real): (r: Result<seq<real>>)
    ensures r.Success? <==> Transformable(|data|)
    ensures r.Success? ==> |r.value| == |data|
  {
    SpectralApply(m, data, EqRule(settings, sampleRate, |data|))
  }

  /** `adjustEqualizer(audio, settings, sampleRate)`. */
  function AdjustEqualizer(m: Numerics, c: Container, settings: seq<Band>, sampleRate: real): (r: Result<Container>)
    ensures IsStereo(c) ==>
      (r.Success? <==> Transformable(|c.left.value|) && Transformable(|c.right.value|))
    ensures !IsStereo(c) && c.mono.Some? ==> (r.Success? <==> Transformable(|c.mono.value|))
    ensures !IsStereo(c) && c.mono.None? ==> r == Failure(MissingChannelData)
    ensures IsStereo(c) && r.Success? ==>
      r.value == c.(left := Some(Equalize(m, c.left.value, settings, sampleRate).value),
                    right := Some(Equalize(m, c.right.value, settings, sampleRate).value))
    ensures !IsStereo(c) && r.Success? ==>
      r.value == c.(mono := Some(Equalize(m, c.mono.value, settings, sampleRate).value))
  {
    ForEachChannel(c, (d: seq<real>) => Equalize(m, d, settings, sampleRate))
  }

  /** With no settings every gain is 1 and the output is the round trip of
      the input. */
  lemma NoSettingsIsRoundTrip(m: Numerics, data: seq<real>, sampleRate: real)
    ensures Equalize(m, data, [], sampleRate) == RoundTrip(m, data)
  {
    SpectralGain(m, data, EqRule([], sampleRate, |data|), 1.0);
    if RoundTrip(m, data).Success? {
      var d := RoundTrip(m, data).value;
      assert ScaleAll(d, 1.0) == d;
    }
  }

  /** A single setting whose key is at or above every bin's frequency
      scales the whole round trip by its gain. */
  lemma OneBandAboveAllScales(m: Numerics, data: seq<real>, band: Band, sampleRate: real)
    requires forall k: int :: 0 <= k < |data| ==> BinFrequency(k, sampleRate, |data|) <= band.key
    ensures RoundTrip(m, data).Success? ==>
      Equalize(m, data, [band], sampleRate) == Success(ScaleAll(RoundTrip(m, data).value, band.gain))
  {
    var r := EqRule([band], sampleRate, |data|);
    forall k: int, x: Complex | 0 <= k < |data|
      ensures r(k, x) == Scale(x, band.gain)
    {
    }
    SpectralGain(m, data, r, band.gain);
  }
}
