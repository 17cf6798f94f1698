/** `spec-converter/soundSpecConverter.ts`: sample-rate conversion by
    linear, nearest-neighbour or cubic interpolation, and bit-depth
    conversion by rescaling and rounding. */
module SpecConverter {
  import opened Common
  import opened Bits
  import opened Audio

  /** `InterpolationMethod`. */
  datatype Interpolation = Linear | Nearest | Cubic

  /** `Math.round`: halves round towards +∞. */
  function JsRound(x: real): (r: int)
    ensures r as real - 0.5 <= x < r as real + 0.5
  {
    (x + 0.5).Floor
  }

  /** `Math.ceil`. */
  function Ceil(x: real): (r: int)
    ensures x <= r as real < x + 1.0
  {
    -((-x).Floor)
  }

  /** `data[j]`: `undefined` (here `None`) outside the array. */
  function Read(data: seq<real>, j: int): (r: Option<real>)
    ensures r.Some? <==> 0 <= j < |data|
    ensures r.Some? ==> r.value == data[j]
  {
    if 0 <= j < |data| then Some(data[j]) else None
  }

  /** `a || b` on a read sample: `undefined` and `0` are both falsy. */
  function JsOr(a: Option<real>, b: Option<real>): (r: Option<real>)
    ensures a.Some? && a.value != 0.0 ==> r == a
    ensures (a.None? || a.value == 0.0) ==> r == b
  {
    if a.Some? && a.value != 0.0 then a else b
  }

  /** `(1 - weight) * data[lowerIndex] + weight * data[upperIndex]`. */
  function Lerp(x: real, y: real, w: real): real {
    (1.0 - w) * x + w * y
  }

  /** `cubicInterpolation(p0, p1, p2, p3, t)`. */
  function CubicFormula(p0: real, p1: real, p2: real, p3: real, t: real): real {
    p1 + 0.5 * t * (p2 - p0 + t * (2.0 * p0 - 5.0 * p1 + 4.0 * p2 - p3 + t * (3.0 * (p1 - p2) + p3 - p0)))
  }

  lemma LerpShift(x: real, y: real, w: real)
    ensures Lerp(x, y, w) == x + w * (y - x)
  {
  }

  /** The linear rule runs from the lower sample at weight 0 to the upper
      one at weight 1, and stays between them in between. */
  lemma LerpBetween(x: real, y: real, w: real)
    requires 0.0 <= w <= 1.0
    ensures Lerp(x, y, 0.0) == x && Lerp(x, y, 1.0) == y && Lerp(x, x, w) == x
    ensures x <= y ==> x <= Lerp(x, y, w) <= y
    ensures y <= x ==> y <= Lerp(x, y, w) <= x
  {
    LerpEnds(x, y);
    LerpShift(x, x, w);
    LerpShift(x, y, w);
    var d := y - x;
    assert Lerp(x, y, w) == x + w * d;
    if x <= y {
      WeightedPart(w, d);
    } else {
      WeightedPart(w, -d);
      assert w * d == -(w * -d);
    }
  }

  lemma LerpEnds(x: real, y: real)
    ensures Lerp(x, y, 0.0) == x && Lerp(x, y, 1.0) == y
  {
  }

  lemma WeightedPart(w: real, d: real)
    requires 0.0 <= w <= 1.0 && 0.0 <= d
    ensures 0.0 <= w * d <= d
  {
    assert d - w * d == (1.0 - w) * d;
  }

  /** The cubic rule passes through `p1` at `t = 0` and `p2` at `t = 1`,
      and reproduces a straight line through four equally spaced points. */
  lemma CubicInterpolates(p0: real, p1: real, p2: real, p3: real, t: real)
    ensures CubicFormula(p0, p1, p2, p3, 0.0) == p1
    ensures CubicFormula(p0, p1, p2, p3, 1.0) == p2
    ensures p1 - p0 == p2 - p1 == p3 - p2 ==> CubicFormula(p0, p1, p2, p3, t) == p1 + t * (p2 - p1)
  {
    if p1 - p0 == p2 - p1 == p3 - p2 {
      var d := p2 - p1;
      assert p0 == p1 - d && p2 == p1 + d && p3 == p1 + 2.0 * d;
      assert 2.0 * p0 - 5.0 * p1 + 4.0 * p2 - p3 == 0.0;
      assert 3.0 * (p1 - p2) + p3 - p0 == 0.0;
    }
  }

  /** One output sample as the code computes it at input position `pos`
      (`None` where it comes out NaN). The upper index may be one past the
      end, and the cubic rule treats a zero neighbour as missing. */
  function InterpolateAsWritten(data: seq<real>, kind: Interpolation, pos: real): Option<real> {
    var lower := pos.Floor;
    var upper := Ceil(pos);
    var w := pos - lower as real;
    match kind
    case Linear =>
      (match (Read(data, lower), Read(data, upper))
       case (Some(x), Some(y)) => Some(Lerp(x, y, w))
       case _ => None)
    case Nearest => Read(data, JsRound(pos))
    case Cubic =>
      var p0 := JsOr(Read(data, lower - 1), Read(data, lower));
      var p3 := JsOr(Read(data, upper + 1), Read(data, upper));
      (match (p0, Read(data, lower), Read(data, upper), p3)
       case (Some(a), Some(b), Some(c), Some(d)) => Some(CubicFormula(a, b, c, d, w))
       case _ => None)
  }

  /** An index held inside `[0, n)`. */
  function Clamp(j: int, n: nat): (r: nat)
    requires 0 < n
    ensures r < n
    ensures 0 <= j < n ==> r == j
  {
    if j < 0 then 0 else if j >= n then n - 1 else j
  }

  /** One output sample as evidently intended: every index held inside the
      array, and a neighbour replaced by the nearest sample only when it
      lies outside the array. */
  function Interpolate(data: seq<real>, kind: Interpolation, pos: real): real
    requires |data| > 0
  {
    var n := |data|;
    var lower := pos.Floor;
    var upper := Ceil(pos);
    var w := pos - lower as real;
    match kind
    case Linear => Lerp(data[Clamp(lower, n)], data[Clamp(upper, n)], w)
    case Nearest => data[Clamp(JsRound(pos), n)]
    case Cubic =>
      CubicFormula(data[Clamp(lower - 1, n)], data[Clamp(lower, n)],
                   data[Clamp(upper, n)], data[Clamp(upper + 1, n)], w)
  }

  /** `Math.round(data.length * ratio)`. */
  function NewLength(len: nat, ratio: real): int {
    JsRound(len as real * ratio)
  }

  lemma PositiveLength(len: nat, ratio: real)
    requires NewLength(len, ratio) > 0
    ensures len > 0 && ratio > 0.0
  {
    assert len as real * ratio >= 0.5;
    if ratio <= 0.0 {
      NonPositiveProduct(len as real, ratio);
    }
  }

  lemma NonPositiveProduct(a: real, b: real)
    requires 0.0 <= a && b <= 0.0
    ensures a * b <= 0.0
  {
    assert a * b == -(a * -b);
  }

  /** `resample(data, originalSampleRate, targetSampleRate, interpolator)`
      with the interpolation the code evidently intends. A zero original
      rate makes the length `NaN` or `Infinity`, and `new Array` rejects a
      negative length or one of 2^32 or more: each throws `RangeError`. */
  function Resample(data: seq<real>, original: real, target: real, kind: Interpolation): (r: Result<seq<real>>)
    ensures original == 0.0 ==> r == Failure(InvalidSampleRate)
    ensures original != 0.0 ==>
      (r.Success? <==> IsArrayLength(NewLength(|data|, target / original) as real))
    ensures original != 0.0 && r.Failure? ==> r.error == InvalidArrayLength
    ensures r.Success? ==> |r.value| == NewLength(|data|, target / original)
  {
    if original == 0.0 then Failure(InvalidSampleRate)
    else
      var ratio := target / original;
      var n := NewLength(|data|, ratio);
      if !IsArrayLength(n as real) then Failure(InvalidArrayLength)
      else if n == 0 then Success([])
      else
        PositiveLength(|data|, ratio);
        Success(seq(n, i requires 0 <= i < n => Interpolate(data, kind, i as real / ratio)))
  }

  /** The same, as the code computes it; `None` marks a NaN sample. */
  function ResampleAsWritten(data: seq<real>, original: real, target: real, kind: Interpolation): (r: Result<seq<Option<real>>>)
    ensures r.Success? <==> Resample(data, original, target, kind).Success?
    ensures r.Success? ==> |r.value| == |Resample(data, original, target, kind).value|
    ensures r.Failure? ==> r.error == Resample(data, original, target, kind).error
  {
    if original == 0.0 then Failure(InvalidSampleRate)
    else
      var ratio := target / original;
      var n := NewLength(|data|, ratio);
      if !IsArrayLength(n as real) then Failure(InvalidArrayLength)
      else if n == 0 then Success([])
      else
        PositiveLength(|data|, ratio);
        Success(seq(n, i requires 0 <= i < n => InterpolateAsWritten(data, kind, i as real / ratio)))
  }

  /** For linear and nearest-neighbour interpolation the intended rule
      gives the code's value wherever the code's value is a number. */
  lemma AgreesWhereDefined(data: seq<real>, kind: Interpolation, pos: real)
    requires |data| > 0 && kind != Cubic
    ensures InterpolateAsWritten(data, kind, pos).Some? ==>
      InterpolateAsWritten(data, kind, pos).value == Interpolate(data, kind, pos)
  {
  }

  /** Converting to the same rate gives the input back, whatever the
      interpolation. */
  lemma SameRateIsIdentity(data: seq<real>, rate: real, kind: Interpolation)
    requires rate != 0.0
    requires |data| < 4294967296 // a JavaScript array holds fewer than 2^32 elements
    ensures Resample(data, rate, rate, kind) == Success(data)
  {
    assert rate / rate == 1.0;
    assert NewLength(|data|, 1.0) == |data|;
    var r := Resample(data, rate, rate, kind);
    if |data| > 0 {
      forall i | 0 <= i < |data|
        ensures r.value[i] == data[i]
      {
        assert i as real / 1.0 == i as real;
        SampleAtWholePosition(data, kind, i);
      }
      assert r.value == data;
    }
  }

  /** At a whole-numbered position every rule returns the sample there. */
  lemma SampleAtWholePosition(data: seq<real>, kind: Interpolation, i: nat)
    requires i < |data|
    ensures Interpolate(data, kind, i as real) == data[i]
  {
    var pos := i as real;
    assert pos.Floor == i && Ceil(pos) == i && JsRound(pos) == i;
    assert pos - pos.Floor as real == 0.0;
    LerpBetween(data[i], data[i], 0.0);
    CubicInterpolates(data[Clamp(i - 1, |data|)], data[i], data[i], data[Clamp(i + 1, |data|)], 0.0);
  }

  /** The same holds of the code's interpolators: at a whole-numbered
      position the upper index equals the lower one, so nothing is read past
      the end, and the cubic rule's weight is 0 whatever its outer
      neighbours are. */
  lemma SampleAtWholePositionAsWritten(data: seq<real>, kind: Interpolation, i: nat)
    requires i < |data|
    ensures InterpolateAsWritten(data, kind, i as real) == Some(data[i])
  {
    var pos := i as real;
    assert pos.Floor == i && Ceil(pos) == i && JsRound(pos) == i;
    assert pos - pos.Floor as real == 0.0;
    match kind
    case Linear =>
      LerpBetween(data[i], data[i], 0.0);
    case Nearest =>
    case Cubic =>
      var p0 := JsOr(Read(data, i - 1), Read(data, i));
      var p3 := JsOr(Read(data, i + 1), Read(data, i));
      assert p0.Some? && p3.Some?;
      CubicInterpolates(p0.value, data[i], data[i], p3.value, 0.0);
  }

  /** The code, too, returns the input at equal rates: every sample is
      defined, so the channel is the input itself. */
  lemma SameRateAsWritten(data: seq<real>, rate: real, kind: Interpolation)
    requires rate != 0.0
    requires |data| < 4294967296 // a JavaScript array holds fewer than 2^32 elements
    ensures ResampleAsWritten(data, rate, rate, kind)
      == Success(seq(|data|, i requires 0 <= i < |data| => Some(data[i])))
    ensures ResampleChannel(data, rate, rate, kind) == Success(data)
  {
    assert rate / rate == 1.0;
    assert NewLength(|data|, 1.0) == |data|;
    var e := seq(|data|, i requires 0 <= i < |data| => Some(data[i]));
    var w := ResampleAsWritten(data, rate, rate, kind);
    if |data| > 0 {
      forall i | 0 <= i < |data|
        ensures w.value[i] == e[i]
      {
        assert i as real / 1.0 == i as real;
        SampleAtWholePositionAsWritten(data, kind, i);
      }
      assert w.value == e;
    } else {
      assert w.value == e;
    }
    var r := ResampleChannel(data, rate, rate, kind);
    assert r.Success?;
    assert r.value == data;
  }

  /** `convertSampleRate` at equal rates returns the audio it was given, as
      written and as intended, for every interpolation. */
  lemma SameRateConversion(c: Container, rate: real, kind: Interpolation)
    requires rate != 0.0
    // JavaScript arrays hold fewer than 2^32 elements
    requires c.mono.Some? ==> |c.mono.value| < 4294967296
    requires c.left.Some? ==> |c.left.value| < 4294967296
    requires c.right.Some? ==> |c.right.value| < 4294967296
    ensures IsStereo(c) || c.mono.Some? ==> ConvertSampleRate(c, rate, rate, kind) == Success(c)
    ensures IsStereo(c) || c.mono.Some? ==> ConvertSampleRateIntended(c, rate, rate, kind) == Success(c)
  {
    if IsStereo(c) {
      SameRateAsWritten(c.left.value, rate, kind);
      SameRateAsWritten(c.right.value, rate, kind);
      SameRateIsIdentity(c.left.value, rate, kind);
      SameRateIsIdentity(c.right.value, rate, kind);
    } else if c.mono.Some? {
      SameRateAsWritten(c.mono.value, rate, kind);
      SameRateIsIdentity(c.mono.value, rate, kind);
    }
  }

  /** Every linearly interpolated sample lies between the two input samples
      around its position. */
  lemma LinearStaysBetween(data: seq<real>, pos: real)
    requires |data| > 0
    ensures var n := |data|;
      var x, y := data[Clamp(pos.Floor, n)], data[Clamp(Ceil(pos), n)];
      (x <= y ==> x <= Interpolate(data, Linear, pos) <= y) &&
      (y <= x ==> y <= Interpolate(data, Linear, pos) <= x)
  {
    LerpBetween(data[Clamp(pos.Floor, |data|)], data[Clamp(Ceil(pos), |data|)], pos - pos.Floor as real);
  }

  /** Two samples taken from 4 Hz to 7 Hz give four output samples; the
      last sits at input position 12/7, and its upper neighbour, index 2,
      is past the end, so the code's value is NaN; held at the last sample
      it is `b`. */
  lemma UpsamplingReadsPastEnd(a: real, b: real)
    ensures var r := ResampleAsWritten([a, b], 4.0, 7.0, Linear);
      r.Success? && |r.value| == 4 && r.value[3].None?
    ensures var r := Resample([a, b], 4.0, 7.0, Linear);
      r.Success? && |r.value| == 4 && r.value[3] == b
  {
    LerpBetween(b, b, 5.0 / 7.0);
    var ratio := 7.0 / 4.0;
    assert 2.0 * ratio == 3.5;
    assert NewLength(2, ratio) == 4;
    var pos := 3.0 / ratio;
    assert pos == 12.0 / 7.0;
    assert pos.Floor == 1;
    assert Ceil(pos) == 2;
    assert pos - 1.0 == 5.0 / 7.0;
  }

  /** Upsampling `[0, 1, 2, 3]` by two: at position 1.5 the zero before the
      interval is taken for a missing sample and replaced by 1, so the code
      yields 1.4375 where the line through the samples gives 1.5. */
  lemma CubicTreatsZeroAsMissing()
    ensures var r := ResampleAsWritten([0.0, 1.0, 2.0, 3.0], 1.0, 2.0, Cubic);
      r.Success? && |r.value| == 8 && r.value[3] == Some(1.4375)
    ensures var r := Resample([0.0, 1.0, 2.0, 3.0], 1.0, 2.0, Cubic);
      r.Success? && |r.value| == 8 && r.value[3] == 1.5
  {
    var data := [0.0, 1.0, 2.0, 3.0];
    assert NewLength(4, 2.0) == 8;
    var pos := 3.0 / 2.0;
    assert pos.Floor == 1;
    assert Ceil(pos) == 2;
    assert CubicFormula(1.0, 1.0, 2.0, 3.0, 0.5) == 1.4375;
    assert CubicFormula(0.0, 1.0, 2.0, 3.0, 0.5) == 1.5;
  }

  /** One sample taken from 1 Hz to 2^32 Hz asks `new Array` for 2^32
      elements, which is a `RangeError` for the code and for the intended
      resampler alike, and so for the whole conversion. */
  lemma TooLongIsRangeError(a: real)
    ensures Resample([a], 1.0, 4294967296.0, Linear) == Failure(InvalidArrayLength)
    ensures ResampleAsWritten([a], 1.0, 4294967296.0, Linear) == Failure(InvalidArrayLength)
    ensures ConvertSampleRate(Container(Some([a]), None, None), 1.0, 4294967296.0, Linear)
      == Failure(InvalidArrayLength)
    ensures ConvertSampleRateIntended(Container(Some([a]), None, None), 1.0, 4294967296.0, Linear)
      == Failure(InvalidArrayLength)
  {
    assert NewLength(1, 4294967296.0 / 1.0) == 4294967296;
  }

  /** Where the code's output sample `i` reads: the lower index is always
      inside the array, the upper index is the lower one or the next, and it
      reaches one past the end exactly when the position is beyond the last
      sample. A linear sample is undefined exactly then, a nearest one
      exactly when the position rounds to one past the end. */
  lemma AsWrittenReads(data: seq<real>, original: real, target: real, kind: Interpolation, i: int)
    requires ResampleAsWritten(data, original, target, kind).Success?
    requires 0 <= i < |ResampleAsWritten(data, original, target, kind).value|
    ensures var pos := i as real / (target / original);
      0 <= pos.Floor < |data| && 0.0 <= pos - pos.Floor as real < 1.0 &&
      pos.Floor <= Ceil(pos) <= pos.Floor + 1 && Ceil(pos) <= |data| &&
      (Ceil(pos) == |data| <==> pos > (|data| - 1) as real)
    ensures var pos := i as real / (target / original);
      kind == Linear ==>
        (ResampleAsWritten(data, original, target, kind).value[i].None? <==> Ceil(pos) == |data|)
    ensures var pos := i as real / (target / original);
      kind == Nearest ==>
        (ResampleAsWritten(data, original, target, kind).value[i].None? <==> JsRound(pos) == |data|)
  {
    var ratio := target / original;
    PositiveLength(|data|, ratio);
    PositionInRange(i, |data|, ratio);
    IndicesAround(i as real / ratio, |data|);
  }

  /** Output sample `i` sits at an input position inside `[0, len)`. */
  lemma PositionInRange(i: nat, len: nat, ratio: real)
    requires 0.0 < ratio && i < NewLength(len, ratio)
    ensures 0.0 <= i as real / ratio < len as real
  {
    assert (i + 1) as real - 0.5 <= len as real * ratio;
    assert (i as real / ratio) * ratio == i as real;
  }

  /** The indices `floor` and `ceil` around a position inside `[0, len)`. */
  lemma IndicesAround(pos: real, len: nat)
    requires 0.0 <= pos < len as real
    ensures 0 <= pos.Floor < len && 0.0 <= pos - pos.Floor as real < 1.0
    ensures pos.Floor <= Ceil(pos) <= pos.Floor + 1 && Ceil(pos) <= len
    ensures Ceil(pos) == len <==> pos > (len - 1) as real
  {
  }

  /** One channel as `resample` returns it. A sample read past the end
      comes out `NaN` or `undefined`, which the model reports as
      `Failure(ReadPastEnd)`; every other sample is the code's value. */
  function ResampleChannel(data: seq<real>, original: real, target: real, kind: Interpolation): (r: Result<seq<real>>)
    ensures var w := ResampleAsWritten(data, original, target, kind);
      r.Success? <==> w.Success? && forall i :: 0 <= i < |w.value| ==> w.value[i].Some?
    ensures var w := ResampleAsWritten(data, original, target, kind);
      w.Failure? ==> r == Failure(w.error)
    ensures var w := ResampleAsWritten(data, original, target, kind);
      r.Success? ==> (|r.value| == |w.value| &&
        forall i :: 0 <= i < |w.value| ==> w.value[i] == Some(r.value[i]))
  {
    var w :- ResampleAsWritten(data, original, target, kind);
    if forall i :: 0 <= i < |w| ==> w[i].Some? then
      Success(seq(|w|, i requires 0 <= i < |w| => w[i].value))
    else
      Failure(ReadPastEnd)
  }

  /** For linear and nearest-neighbour interpolation a channel the code
      resamples without a bad read is exactly the intended resampling. */
  lemma ChannelAgreesWhenDefined(data: seq<real>, original: real, target: real, kind: Interpolation)
    requires kind != Cubic
    ensures ResampleChannel(data, original, target, kind).Success? ==>
      ResampleChannel(data, original, target, kind) == Resample(data, original, target, kind)
  {
    var r := ResampleChannel(data, original, target, kind);
    if r.Success? && |r.value| > 0 {
      var ratio := target / original;
      PositiveLength(|data|, ratio);
      var e := Resample(data, original, target, kind).value;
      forall i | 0 <= i < |r.value|
        ensures r.value[i] == e[i]
      {
        AgreesWhereDefined(data, kind, i as real / ratio);
      }
      assert r.value == e;
    }
  }

  /** `convertSampleRate(audio, originalSampleRate, targetSampleRate, method)`
      as written: every sample is the code's, and a channel with a read past
      its end is an error. */
  function ConvertSampleRate(c: Container, original: real, target: real, kind: Interpolation): (r: Result<Container>)
    ensures !IsStereo(c) && c.mono.None? ==> r == Failure(MissingChannelData)
    ensures original == 0.0 && (IsStereo(c) || c.mono.Some?) ==> r == Failure(InvalidSampleRate)
    ensures IsStereo(c) ==>
      (r.Success? <==> ResampleChannel(c.left.value, original, target, kind).Success? &&
                       ResampleChannel(c.right.value, original, target, kind).Success?)
    ensures !IsStereo(c) && c.mono.Some? ==>
      (r.Success? <==> ResampleChannel(c.mono.value, original, target, kind).Success?)
    ensures IsStereo(c) && r.Success? ==>
      r.value == c.(left := Some(ResampleChannel(c.left.value, original, target, kind).value),
                    right := Some(ResampleChannel(c.right.value, original, target, kind).value))
    ensures !IsStereo(c) && r.Success? ==>
      r.value == c.(mono := Some(ResampleChannel(c.mono.value, original, target, kind).value))
  {
    ForEachChannel(c, (d: seq<real>) => ResampleChannel(d, original, target, kind))
  }

  /** `convertSampleRate` with the interpolation the code evidently intends. */
  function ConvertSampleRateIntended(c: Container, original: real, target: real, kind: Interpolation): (r: Result<Container>)
    ensures !IsStereo(c) && c.mono.None? ==> r == Failure(MissingChannelData)
    ensures original == 0.0 && (IsStereo(c) || c.mono.Some?) ==> r == Failure(InvalidSampleRate)
    ensures IsStereo(c) ==>
      (r.Success? <==> Resample(c.left.value, original, target, kind).Success? &&
                       Resample(c.right.value, original, target, kind).Success?)
    ensures !IsStereo(c) && c.mono.Some? ==>
      (r.Success? <==> Resample(c.mono.value, original, target, kind).Success?)
    ensures IsStereo(c) && r.Success? ==>
      r.value == c.(left := Some(Resample(c.left.value, original, target, kind).value),
                    right := Some(Resample(c.right.value, original, target, kind).value))
    ensures !IsStereo(c) && r.Success? ==>
      r.value == c.(mono := Some(Resample(c.mono.value, original, target, kind).value))
  {
    ForEachChannel(c, (d: seq<real>) => Resample(d, original, target, kind))
  }

  /** For linear and nearest-neighbour interpolation, whenever the code
      converts a container without a bad read, it gives the intended result. */
  lemma ConvertAgreesWhenDefined(c: Container, original: real, target: real, kind: Interpolation)
    requires kind != Cubic
    ensures ConvertSampleRate(c, original, target, kind).Success? ==>
      ConvertSampleRate(c, original, target, kind) == ConvertSampleRateIntended(c, original, target, kind)
  {
    if IsStereo(c) {
      ChannelAgreesWhenDefined(c.left.value, original, target, kind);
      ChannelAgreesWhenDefined(c.right.value, original, target, kind);
    } else if c.mono.Some? {
      ChannelAgreesWhenDefined(c.mono.value, original, target, kind);
    }
  }

  /** Two samples converted from 4 Hz to 7 Hz: the code's last sample reads
      past the end, so the conversion as written is an error. */
  lemma UpsamplingConversionFails(a: real, b: real)
    ensures ConvertSampleRate(Container(Some([a, b]), None, None), 4.0, 7.0, Linear) == Failure(ReadPastEnd)
    ensures ConvertSampleRateIntended(Container(Some([a, b]), None, None), 4.0, 7.0, Linear).Success?
  {
    UpsamplingReadsPastEnd(a, b);
  }

  /** `Math.pow(2, e)` for an integer exponent. */
  function Pow2Real(e: int): (r: real)
    ensures 0.0 < r
    ensures e == 0 <==> r == 1.0
    ensures 0 <= e ==> r == Pow2(e) as real
  {
    if e >= 0 then Pow2(e) as real
    else
      assert Pow2(-e) >= 2 by { Pow2Mono(1, -e); }
      1.0 / (Pow2(-e) as real)
  }

  /** `Math.pow(2, bitDepth - 1) - 1`: the largest sample value. */
  function MaxValue(bits: int): (r: real)
    ensures r == 0.0 <==> bits == 1
  {
    Pow2Real(bits - 1) - 1.0
  }

  /** `Math.round(sample / originalMaxValue * targetMaxValue)`. */
  function ConvertSample(s: real, originalMax: real, targetMax: real): real
    requires originalMax != 0.0
  {
    JsRound(Rescale(s, originalMax, targetMax)) as real
  }

  /** `sample / originalMaxValue * targetMaxValue`. */
  function Rescale(s: real, originalMax: real, targetMax: real): real
    requires originalMax != 0.0
  {
    s / originalMax * targetMax
  }

  /** `convert(data, originalBitDepth, targetBitDepth)`. A 1-bit original
      depth makes the largest value 0, and every sample is divided by it
      into an infinity or NaN. */
  function ConvertDepth(data: seq<real>, originalBits: int, targetBits: int): (r: Result<seq<real>>)
    ensures r.Failure? <==> originalBits == 1 && |data| > 0
    ensures r.Failure? ==> r.error == DivisionByZero
    ensures r.Success? ==> |r.value| == |data|
    ensures r.Success? ==> forall i :: 0 <= i < |data| ==>
      r.value[i].Floor as real == r.value[i] &&
      r.value[i] - 0.5 <= data[i] / MaxValue(originalBits) * MaxValue(targetBits) < r.value[i] + 0.5
  {
    if MaxValue(originalBits) == 0.0 then
      if |data| == 0 then Success([]) else Failure(DivisionByZero)
    else
      var om, tm := MaxValue(originalBits), MaxValue(targetBits);
      Success(seq(|data|, i requires 0 <= i < |data| => ConvertSample(data[i], om, tm)))
  }

  /** `Math.round(x)` is the one whole number within half of `x`, a half
      counted downwards. */
  lemma RoundUnique(x: real, r: int)
    requires r as real - 0.5 <= x < r as real + 0.5
    ensures JsRound(x) == r
  {
    var q := JsRound(x);
    assert q as real - 0.5 <= x < q as real + 0.5;
    assert -1.0 < q as real - r as real < 1.0;
  }

  lemma RoundWhole(x: real)
    requires x.Floor as real == x
    ensures JsRound(x) as real == x
  {
    RoundUnique(x, x.Floor);
  }

  lemma DivMulCancel(d: real, mx: real)
    requires mx != 0.0
    ensures d / mx * mx == d
  {
  }

  /** Whole numbers survive a conversion to the same depth. */
  lemma SameDepthKeepsIntegers(data: seq<real>, bits: int)
    requires bits != 1
    requires forall i :: 0 <= i < |data| ==> data[i].Floor as real == data[i]
    ensures ConvertDepth(data, bits, bits) == Success(data)
  {
    var mx := MaxValue(bits);
    var r := ConvertDepth(data, bits, bits);
    forall i | 0 <= i < |data|
      ensures r.value[i] == data[i]
    {
      DivMulCancel(data[i], mx);
      RoundWhole(data[i]);
    }
    assert r.value == data;
  }

  lemma DivMulMono(a: real, b: real, om: real, tm: real)
    requires a <= b && 0.0 < om && 0.0 <= tm
    ensures Rescale(a, om, tm) <= Rescale(b, om, tm)
  {
    assert b / om - a / om == (b - a) / om;
    assert (b - a) / om >= 0.0;
    assert b / om * tm - a / om * tm == (b / om - a / om) * tm;
  }

  lemma RoundMono(x: real, y: real)
    requires x <= y
    ensures JsRound(x) <= JsRound(y)
  {
  }

  /** With positive maximum values the conversion keeps the order of
      samples. */
  lemma ConvertSampleMonotone(a: real, b: real, om: real, tm: real)
    requires a <= b && 0.0 < om && 0.0 <= tm
    ensures ConvertSample(a, om, tm) <= ConvertSample(b, om, tm)
  {
    DivMulMono(a, b, om, tm);
    RoundMono(Rescale(a, om, tm), Rescale(b, om, tm));
  }

  /** The largest original value maps to the largest target value. */
  lemma FullScaleMapsToFullScale(originalBits: int, targetBits: int)
    requires originalBits != 1 && targetBits >= 1
    ensures ConvertSample(MaxValue(originalBits), MaxValue(originalBits), MaxValue(targetBits))
         == MaxValue(targetBits)
  {
    var om, tm := MaxValue(originalBits), MaxValue(targetBits);
    DivMulCancel(1.0, om);
    assert om / om == 1.0;
    assert om / om * tm == tm;
    assert tm == (Pow2(targetBits - 1) - 1) as real;
    RoundWhole(tm);
  }

  /** The 16-bit test signal converted to 8 bits. */
  lemma SixteenToEightBits()
    ensures ConvertDepth([32767.0, 16383.0, 0.0, -16383.0, -32767.0], 16, 8)
         == Success([127.0, 63.0, 0.0, -63.0, -127.0])
  {
    assert Pow2(1) == 2;
    assert Pow2(2) == 4;
    assert Pow2(3) == 8;
    assert Pow2(4) == 16;
    assert Pow2(5) == 32;
    assert Pow2(6) == 64;
    assert Pow2(7) == 128;
    assert Pow2(8) == 256;
    assert Pow2(9) == 512;
    assert Pow2(10) == 1024;
    assert Pow2(11) == 2048;
    assert Pow2(12) == 4096;
    assert Pow2(13) == 8192;
    assert Pow2(14) == 16384;
    assert Pow2(15) == 32768;
    assert MaxValue(16) == 32767.0 && MaxValue(8) == 127.0;
    RoundUnique(32767.0 / 32767.0 * 127.0, 127);
    RoundUnique(16383.0 / 32767.0 * 127.0, 63);
    RoundUnique(0.0 / 32767.0 * 127.0, 0);
    RoundUnique(-16383.0 / 32767.0 * 127.0, -63);
    RoundUnique(-32767.0 / 32767.0 * 127.0, -127);
    var r := ConvertDepth([32767.0, 16383.0, 0.0, -16383.0, -32767.0], 16, 8);
    assert r.value == [127.0, 63.0, 0.0, -63.0, -127.0];
  }

  /** `convertBitDepth(audio, originalBitDepth, targetBitDepth)`. */
  function ConvertBitDepth(c: Container, originalBits: int, targetBits: int): (r: Result<Container>)
    ensures !IsStereo(c) && c.mono.None? ==> r == Failure(MissingChannelData)
    ensures IsStereo(c) ==>
      (r.Success? <==> ConvertDepth(c.left.value, originalBits, targetBits).Success? &&
                       ConvertDepth(c.right.value, originalBits, targetBits).Success?)
    ensures !IsStereo(c) && c.mono.Some? ==>
      (r.Success? <==> ConvertDepth(c.mono.value, originalBits, targetBits).Success?)
    ensures IsStereo(c) && originalBits != 1 ==> r.Success?
    ensures !IsStereo(c) && c.mono.Some? && originalBits != 1 ==> r.Success?
    ensures IsStereo(c) && r.Success? ==>
      r.value == c.(left := Some(ConvertDepth(c.left.value, originalBits, targetBits).value),
                    right := Some(ConvertDepth(c.right.value, originalBits, targetBits).value))
    ensures !IsStereo(c) && r.Success? ==>
      r.value == c.(mono := Some(ConvertDepth(c.mono.value, originalBits, targetBits).value))
  {
    ForEachChannel(c, (d: seq<real>) => ConvertDepth(d, originalBits, targetBits))
  }
}
