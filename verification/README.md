# common-codes: audio effects, WAV reading, sanitizers, prosody and a license chooser, in Dafny

This project models the core of the `common-codes` collection:

- **FFT.** The radix-2 FFT with its bit-reversal permutation, butterfly stages and conjugate-based inverse.
- **Spectral effects.** They are all built on that FFT:
  - the seven frequency-domain filters and their `FilterHandler`;
  - the equalizer;
  - the hum remover;
  - the threshold noise gate;
  - the amplitude normalizer;
  - the chain of noise-reduction filters.
- **Sample format conversion.** The sample-rate converter with its three interpolations, and the bit-depth converter.
- **WAV reader.** It reads the canonical 44-byte RIFF/WAVE header and decodes interleaved little-endian signed samples.
- **Sanitizers.** There are three families:
  - the single-function TypeScript sanitizer;
  - the TypeScript chain-of-responsibility sanitizer with its four variations;
  - the Python chain, whose handlers remember having fired.
- **Prosodic symbols.** The extractor turns full-context labels into prosodic symbols.
- **License chooser.** The Creative Commons yes/no decision table.

Each module follows one source file. Every operation is a pure function, or a method with loop invariants, that returns a `Result` when the source would throw or produce `NaN`/`undefined`.

## How the model is put together

Modules, in dependency order:

- `Common`: `Option`, `Result` and the error kinds.
- `ComplexNumbers`: complex arithmetic, plus the `Numerics` record of transcendentals. The fields are square root, `10^x`, `log10`, twiddle factor and phase rotation. Each field is a parameter, and the laws it must obey are stated as predicates.
- `Bits`: powers of two and bit reversal.
- `Fft`: the transform, as a recursive definition (`Transform`, `Inverse`) and as the loop implementation of the source (`FftMethod`, `RunStages`, `ApplyStage`, `ApplyBlock`, `BitReverseCopy`), proved equal.
- `Audio`: the mono/stereo container, the shared channel dispatch, and the "transform, change each bin, transform back, keep the real parts" pipeline.
- The effect modules, one per source file: `Filters`, `Equalizer`, `HumRemover`, `NoiseGate`, `Normalizer`, `NoiseReduction`, `SpecConverter`.
- `WavReader`: header and sample decoding, with an encoder used only to state round trips.
- `Text`: literal and case-folding global replace, rule chains, escaping, and JavaScript/Python `trim`/`strip`.
- `Pipeline`: running a sequence of text passes.
- `SanitizerRules`: the rewrite rules of every sanitizer stage, shared by the two TypeScript sanitizers.
- `SimpleSanitizer`, `ChainSanitizer` and `PySanitizer`: the three sanitizers.
- `Prosody`: the regular-expression features and `pp_symbols`.
- `Licenser`: the decision table, button clicks and the legal-code link.

Floating-point numbers are modelled as exact reals. Sample values in JavaScript arrays are reals, and the bytes of a WAV buffer are a `Byte` subset type.

## Model

| member | source | states |
|---|---|---|
| Bits.ReverseInvolution | noise-reduction/FFT.ts:19-27 | Reversing the low `b` bits of an index twice gives the index back, so the swap loop is an involution on indices. |
| Bits.ReverseBound | noise-reduction/FFT.ts:20-23 | The reversed index stays below `2^b`, so the swap partner is in range. |
| Fft.BitReversalInvolution | noise-reduction/FFT.ts:19-27 | The bit-reversal permutation undone by itself restores the input, and it moves element `i` to position `rev(i)`. |
| Fft.BitReverseCopy | noise-reduction/FFT.ts:19-27 | The swap-if-`i < j` loop yields exactly the bit-reversal permutation of the input. |
| Fft.PartnerInRange | noise-reduction/FFT.ts:32-41 | In a stage of block size `2h`, a lower-half index has its butterfly partner `p + h` inside the array, and an upper-half index is at least `h`. |
| Fft.StageShape | noise-reduction/FFT.ts:29-31 | Stage `s` of a transform of length `2^L` has block size twice the half size, and the blocks tile the array exactly. |
| Fft.ButterflyStep | noise-reduction/FFT.ts:33-40 | One butterfly, with the twiddle at `j·tableStep`, extends the finished pairs by pair `j`: everything before the block and every finished pair holds the stage's value, every other position the input. |
| Fft.TwiddleIndexBound | noise-reduction/FFT.ts:30-34 | For every butterfly `j < size/2` of a stage with `tableStep = N/size`, the index `k = j·tableStep` is below `N/2`. |
| Fft.ApplyBlock | noise-reduction/FFT.ts:32-43 | After the butterflies of one block, every element up to the block's end holds the stage's value and every later element is untouched. |
| Fft.ApplyStage | noise-reduction/FFT.ts:29-44 | The block loop of one stage computes that stage of the transform. |
| Fft.FftMethod | noise-reduction/FFT.ts:16-47 | The in-place loops of `fft()` compute the same result as the stage-by-stage definition, including failure on lengths that are not powers of two. |
| Fft.RunStages | noise-reduction/FFT.ts:29-44 | The outer `size` loop, doubling from 2 up to `N = 2^levels`, runs exactly the `levels` butterfly stages in order, so its result is the stage-by-stage definition after all of them. |
| Fft.Transform | noise-reduction/FFT.ts:16-47 | The transform succeeds exactly on power-of-two lengths (and 0 and 1), keeps the length, and returns lengths 0 and 1 unchanged. |
| Fft.Inverse | noise-reduction/FFT.ts:49-54 | The inverse succeeds exactly when the forward transform does and keeps the length. |
| Fft.TransformAdditive | noise-reduction/FFT.ts:16-47 | The transform of a sum of signals is the sum of their transforms. |
| Fft.TransformScale | noise-reduction/FFT.ts:16-47 | The transform of a signal scaled by a real factor is its transform scaled by that factor. |
| Fft.InverseAdditive | noise-reduction/FFT.ts:49-54 | The inverse transform is additive. |
| Fft.InverseScale | noise-reduction/FFT.ts:49-54 | The inverse transform commutes with real scaling. |
| Fft.TransformTwo | noise-reduction/FFT.ts:29-44 | On two samples, with the twiddle of index 0 equal to 1, the transform is the sum and the difference. |
| Fft.RoundTripTwo | noise-reduction/FFT.ts:49-54 | On two samples, the inverse of the transform gives the input back. |
| Fft.InverseTrivial | noise-reduction/FFT.ts:49-54 | The inverse of a signal of length 0 or 1 is the signal itself. |
| Audio.ForEachChannel | sound-efects/audio-filters/audioFilters.ts:159-167 | A stereo container has both channels processed and its mono field left alone. Otherwise `audioData` is processed, and a missing one is an error. |
| Audio.SpectralSum | sound-efects/audio-filters/audioFilters.ts:12-25 | If one bin rule is the sum of two others, the filtered signal is the sample-wise sum of the two filtered signals. |
| Audio.SpectralGain | sound-efects/audio-filters/audioFilters.ts:12-25 | A rule that scales every bin by `c` scales the round-tripped signal by `c`. |
| Audio.RoundTripTwoSamples | sound-efects/audio-filters/audioFilters.ts:13-24 | Transforming two real samples and transforming back gives them back. |
| Filters.Apply | sound-efects/audio-filters/audioFilters.ts:9-146 | Each filter's `apply` succeeds exactly on a transformable length and keeps the length. |
| Filters.ApplyFilter | sound-efects/audio-filters/audioFilters.ts:159-167 | `FilterHandler.applyFilter` filters both stereo channels, or the mono channel, and fails exactly when a processed channel has a length the transform rejects or `audioData` is missing. |
| Filters.HighLowComplement | sound-efects/audio-filters/audioFilters.ts:17-39 | High-pass and low-pass at the same cutoff remove complementary bins, except that both keep the bin exactly at the cutoff. |
| Filters.BandComplement | sound-efects/audio-filters/audioFilters.ts:55-77 | Band-pass removes exactly the bins band-stop keeps. |
| Filters.BandPassIsHighThenLow | sound-efects/audio-filters/audioFilters.ts:55-58 | Band-pass on `[lo, hi]` acts on each bin as high-pass at `lo` followed by low-pass at `hi`. |
| Filters.ZeroingIdempotent | sound-efects/audio-filters/audioFilters.ts:17-20 | A zeroing filter either zeroes a bin or keeps it, and applying it twice equals applying it once. |
| Filters.BandSplitSumsToRoundTrip | sound-efects/audio-filters/audioFilters.ts:47-83 | Band-pass output plus band-stop output over the same band is the unfiltered round trip, sample by sample. |
| Filters.ZeroGainIsRoundTrip | sound-efects/audio-filters/audioFilters.ts:85-126 | A peaking or shelving filter with 0 dB gain leaves the signal as the plain round trip. |
| Filters.WideBandPeakingScales | sound-efects/audio-filters/audioFilters.ts:85-105 | A peaking band that covers every bin scales the whole signal by the linear gain. |
| Filters.AllPassKeepsMagnitude | sound-efects/audio-filters/audioFilters.ts:128-146 | The all-pass filter keeps every bin's magnitude. |
| Filters.LowPassEightBins | sound-efects/audio-filters/audioFilters.ts:36-39 | With 8 samples at 8 Hz and a 2 Hz cutoff, bin `k` is at `k` Hz and exactly the bins above 2 are removed. |
| Equalizer.GainLoop | sound-efects/equalizer/Equalizer.ts:17-23 | The `for … of` loop with its `break` yields the gain of the first setting, in iteration order, whose key is at least the bin frequency, or 1. |
| Equalizer.GainIsFirstMatch | sound-efects/equalizer/Equalizer.ts:17-23 | The chosen gain is that of the first setting whose key is at least the frequency. |
| Equalizer.GainWithoutMatch | sound-efects/equalizer/Equalizer.ts:16-23 | When no key is at least the frequency the gain stays 1. |
| Equalizer.AscendingPicksSmallestKeyAbove | sound-efects/equalizer/Equalizer.ts:17-23 | With settings in ascending key order, the gain is that of the smallest key at or above the frequency. |
| Equalizer.Equalize | sound-efects/equalizer/Equalizer.ts:10-30 | Equalizing one channel succeeds exactly on a transformable length and keeps the length. |
| Equalizer.AdjustEqualizer | sound-efects/equalizer/Equalizer.ts:32-37 | Both stereo channels, or the mono channel, are equalized with the same settings, and a missing `audioData` is an error. |
| Equalizer.NoSettingsIsRoundTrip | sound-efects/equalizer/Equalizer.ts:16-24 | With no settings every bin keeps gain 1, so the output is the plain round trip. |
| Equalizer.OneBandAboveAllScales | sound-efects/equalizer/Equalizer.ts:16-24 | A single setting whose key is at or above every bin frequency scales the whole signal by its gain. |
| HumRemover.JsRem | sound-efects/hum-remover/humRemover.ts:33 | JavaScript's `%` is undefined (NaN) exactly when the divisor is 0. |
| HumRemover.ApplyNotch | sound-efects/hum-remover/humRemover.ts:25-44 | The notch filter succeeds exactly on a transformable length and keeps the length. Any failure is reported as a failure to remove hum. |
| HumRemover.RemoveHum | sound-efects/hum-remover/humRemover.ts:46-62 | Stereo channels, or the mono channel, are notched. A container with neither, and any inner failure, give the single hum-removal error. |
| HumRemover.RemainderIsDistance | sound-efects/hum-remover/humRemover.ts:33 | For a nonnegative frequency and a positive hum, the remainder is the distance to the largest multiple of the hum below the frequency. |
| HumRemover.HarmonicIffNearMultiple | sound-efects/hum-remover/humRemover.ts:33 | For a nonnegative frequency, a bin is treated as harmonic exactly when it lies strictly within the notch width of some multiple of the hum frequency. |
| HumRemover.DcRemoved | sound-efects/hum-remover/humRemover.ts:33 | With a nonzero hum and a positive width, the 0 Hz bin is always removed. |
| HumRemover.ZeroHumKeepsAll | sound-efects/hum-remover/humRemover.ts:33-34 | A hum frequency of 0 makes every remainder NaN, so no bin is removed and the output is the plain round trip. |
| HumRemover.CustomRemovesFractional | sound-efects/hum-remover/humRemover.ts:9-48 | With the CUSTOM values (−1 Hz hum, −1 width), a bin is removed exactly when its frequency is not a whole number. |
| HumRemover.NotchIdempotent | sound-efects/hum-remover/humRemover.ts:31-35 | Applying the notch rule to a bin twice equals applying it once. |
| NoiseGate.GateChannel | sound-efects/noise-reduce/noiseReduce.ts:6-25 | Gating one channel succeeds exactly on a transformable length and keeps the length. |
| NoiseGate.ReduceNoise | sound-efects/noise-reduce/noiseReduce.ts:27-33 | Both stereo channels, or the mono channel, are gated with the same threshold, and a missing `audioData` is an error. |
| NoiseGate.GateShape | sound-efects/noise-reduce/noiseReduce.ts:13-20 | A bin at or above the threshold is kept. A quieter bin is scaled by a factor in `[0, 1)` that is 0 only for a zero bin. |
| NoiseGate.GateNeverAmplifies | sound-efects/noise-reduce/noiseReduce.ts:13-20 | The gate never increases a bin's power. |
| NoiseGate.LoudSpectrumIsRoundTrip | sound-efects/noise-reduce/noiseReduce.ts:13-20 | When every bin is at or above the threshold, gating is the plain round trip. |
| Normalizer.PeakIsMaximum | sound-efects/normalizer/normalizer.ts:17-23 | The peak is nonnegative, bounds every amplitude, and is one of them unless it is 0. |
| Normalizer.PeakLoop | sound-efects/normalizer/normalizer.ts:17-23 | The `Math.max` loop computes that peak. |
| Normalizer.NormalizeChannel | sound-efects/normalizer/normalizer.ts:12-33 | Normalizing fails on a length the transform rejects, and on a non-empty silent spectrum. Otherwise it keeps the length. |
| Normalizer.NormalizeAmplitude | sound-efects/normalizer/normalizer.ts:35-41 | Both stereo channels, or the mono channel, are normalized to the same target, and a missing `audioData` is an error. |
| Normalizer.SilentIffAllBinsZero | sound-efects/normalizer/normalizer.ts:17-25 | Normalization reports silence exactly when every bin of the spectrum is zero. |
| Normalizer.NormalizeIsUniformGain | sound-efects/normalizer/normalizer.ts:25-32 | When the peak is nonzero, the output is the real part of the inverse transform of the spectrum with the real and imaginary parts of every bin multiplied by target amplitude over peak. |
| Normalizer.NormalizeScalesRoundTrip | sound-efects/normalizer/normalizer.ts:25-30 | A successful normalization has a positive peak and equals the round trip scaled by target over peak. |
| Normalizer.PeakMonotoneMap | sound-efects/normalizer/normalizer.ts:17-23 | The peak commutes with any strictly increasing map that fixes 0. |
| Normalizer.NormalizedPeakIsTarget | sound-efects/normalizer/normalizer.ts:25-28 | After the scaling, the peak bin amplitude is exactly the target amplitude. |
| NoiseReduction.MethodOf | sound-efects/noise-reduction/NoisReduction.ts:226-241 | Codes 0 to 3 map to Amplitude, Power, Decibel and AbsoluteValue, and every other code is unsupported. |
| NoiseReduction.BuildFilters | sound-efects/noise-reduction/NoisReduction.ts:221-259 | The constructor succeeds exactly when there is at least one filter and every code is supported. It then yields one filter per pair with the pair's method and threshold. |
| NoiseReduction.Convert | sound-efects/noise-reduction/NoisReduction.ts:226-241 | Converting pairs succeeds exactly when every code is supported, keeping order, method and threshold. |
| NoiseReduction.ChainAsWritten | sound-efects/noise-reduction/NoisReduction.ts:25-63 | As written, the chain zeroes a bin exactly when the head filter triggers on it (or it is already zero), and otherwise returns it unchanged. |
| NoiseReduction.ChainIsAnyFilter | sound-efects/noise-reduction/NoisReduction.ts:25-30 | The intended chain zeroes a bin exactly when some filter in it triggers. |
| NoiseReduction.ChainKeepsZero | sound-efects/noise-reduction/NoisReduction.ts:36-41 | A zero bin stays zero through the chain. |
| NoiseReduction.ChainOrderIrrelevant | sound-efects/noise-reduction/NoisReduction.ts:243-247 | For the intended chain (the corrected half of the first finding), swapping two halves of the filter list does not change the result. |
| NoiseReduction.AsWrittenOrderMatters | sound-efects/noise-reduction/NoisReduction.ts:243-247 | As written, the order of the list matters: `[Power 1]` then `[AbsoluteValue 5]` keeps the bin `2+0i`, and the other order removes it. |
| NoiseReduction.ChainIdempotent | sound-efects/noise-reduction/NoisReduction.ts:36-41 | Running the chain twice equals running it once. |
| NoiseReduction.SingleFilterAgrees | sound-efects/noise-reduction/NoisReduction.ts:25-30 | With a single filter, the as-written chain and the intended chain agree. |
| NoiseReduction.AsWrittenSkipsLaterFilters | sound-efects/noise-reduction/NoisReduction.ts:25-63 | With filters `[Power 1, AbsoluteValue 5]`, the bin `2+0i` survives as written but is removed by the intended chain. |
| NoiseReduction.AbsoluteValueBoundsPower | sound-efects/noise-reduction/NoisReduction.ts:115-134 | A bin the absolute-value filter removes has power below `2·t²`. |
| NoiseReduction.AmplitudeIsPowerOfSquare | sound-efects/noise-reduction/NoisReduction.ts:44-86 | The amplitude filter at `t` removes exactly the bins the power filter at `t²` removes. |
| NoiseReduction.DecibelRemovesSilence | sound-efects/noise-reduction/NoisReduction.ts:96-104 | The decibel filter removes a zero bin, whose level is minus infinity, at every threshold. |
| NoiseReduction.ReduceChannel | sound-efects/noise-reduction/NoisReduction.ts:167-181 | As written, processing one channel puts every bin through the head filter only. It succeeds exactly on a transformable length and keeps the length. |
| NoiseReduction.ReduceChannelIntended | sound-efects/noise-reduction/NoisReduction.ts:167-181 | With every filter applied to each bin, processing one channel succeeds exactly on a transformable length and keeps the length. |
| NoiseReduction.ChannelUsesHeadOnly | sound-efects/noise-reduction/NoisReduction.ts:167-181 | One channel as written equals the intended pipeline run with the first filter alone. |
| NoiseReduction.HandleWith | sound-efects/noise-reduction/NoisReduction.ts:149-216 | Stereo input has both channels processed and `audioData` kept. Other input comes back as `{ audioData }` alone, and a missing `audioData` is an error. |
| NoiseReduction.Handle | sound-efects/noise-reduction/NoisReduction.ts:149-216 | The handlers as built hold the head filter: each channel goes through the as-written pipeline. The result succeeds exactly when the processed channels have transformable lengths. |
| NoiseReduction.HandleIntended | sound-efects/noise-reduction/NoisReduction.ts:149-216 | The same dispatch with each channel going through the intended pipeline. |
| NoiseReduction.ReduceNoise | sound-efects/noise-reduction/NoisReduction.ts:221-270 | As written: no filters, or any unsupported method, is an error before any audio is touched. Otherwise the filters are built and the handlers apply the head filter. |
| NoiseReduction.ReduceNoiseIntended | sound-efects/noise-reduction/NoisReduction.ts:221-270 | The same errors. Otherwise the handlers apply every filter of the list to each bin. |
| NoiseReduction.ReduceNoiseUsesHeadOnly | sound-efects/noise-reduction/NoisReduction.ts:243-270 | Whenever the filters build, `reduceNoise` as written equals the intended `reduceNoise` given only the first pair, so later pairs are never consulted. |
| NoiseReduction.QuietHeadIsRoundTrip | sound-efects/noise-reduction/NoisReduction.ts:167-181 | As written, if the first filter triggers on no bin, processing is the plain round trip. |
| NoiseReduction.QuietChainIsRoundTrip | sound-efects/noise-reduction/NoisReduction.ts:167-181 | In the intended pipeline, if no filter triggers on any bin, processing is the plain round trip. |
| SpecConverter.JsRound | sound-efects/spec-converter/soundSpecConverter.ts:47 | `Math.round` returns the integer within half of `x`, rounding halves up. |
| SpecConverter.Ceil | sound-efects/spec-converter/soundSpecConverter.ts:53 | `Math.ceil` returns the least integer not below `x`. |
| SpecConverter.Read | sound-efects/spec-converter/soundSpecConverter.ts:11-26 | Reading an array is defined exactly at valid indices and is `undefined` elsewhere. |
| SpecConverter.JsOr | sound-efects/spec-converter/soundSpecConverter.ts:23-26 | `a \|\| b` keeps `a` unless it is missing or 0, in which case it is `b`. |
| SpecConverter.Clamp | sound-efects/spec-converter/soundSpecConverter.ts:50-56 | The clamped read index of the intended converter is always in range and leaves in-range indices alone. |
| SpecConverter.LerpBetween | sound-efects/spec-converter/soundSpecConverter.ts:9-13 | Linear interpolation hits its end points and stays between them. |
| SpecConverter.CubicInterpolates | sound-efects/spec-converter/soundSpecConverter.ts:21-35 | The cubic formula passes through `p1` at 0 and `p2` at 1, and reproduces straight lines. |
| SpecConverter.Resample | sound-efects/spec-converter/soundSpecConverter.ts:45-60 | The intended resampler, with reads clamped to the array (the corrected half of the second finding). It fails on a zero original rate. Otherwise it succeeds exactly when `new Array` accepts the new length, a whole number in `[0, 2^32)`, fails with `InvalidArrayLength` (the `RangeError`) otherwise, and has that length. |
| SpecConverter.ResampleAsWritten | sound-efects/spec-converter/soundSpecConverter.ts:45-60 | The as-written resampler fails and succeeds like the intended one, with the same error (so a length of 2^32 or more is `InvalidArrayLength`), and has the same length, but its samples may be undefined. |
| SpecConverter.TooLongIsRangeError | sound-efects/spec-converter/soundSpecConverter.ts:46-48 | One sample taken from 1 Hz to 2^32 Hz asks `new Array` for 2^32 elements: both resamplers and both conversions fail with `InvalidArrayLength`. |
| SpecConverter.AsWrittenReads | sound-efects/spec-converter/soundSpecConverter.ts:50-56 | For every output index, the code's lower index is inside the array and its upper index is the same or the next one, one past the end exactly when the position lies beyond the last sample. A linear sample is undefined exactly then, and a nearest one exactly when the position rounds to one past the end. |
| SpecConverter.PositionInRange | sound-efects/spec-converter/soundSpecConverter.ts:46-51 | Every output index `i < round(len·ratio)` has its read position `i / ratio` inside `[0, len)`. |
| SpecConverter.ResampleChannel | sound-efects/spec-converter/soundSpecConverter.ts:45-60 | One channel as the code resamples it: it succeeds exactly when the resampling succeeds and no sample is undefined, and then holds the code's samples. A failed resampling (zero rate, or a length `new Array` rejects) keeps its error, and a read past the end is the error `ReadPastEnd`. |
| SpecConverter.ChannelAgreesWhenDefined | sound-efects/spec-converter/soundSpecConverter.ts:9-19 | For nearest and linear interpolation, a channel the code resamples without a bad read equals the intended resampling. |
| SpecConverter.AgreesWhereDefined | sound-efects/spec-converter/soundSpecConverter.ts:9-19 | For nearest and linear interpolation, wherever the as-written value is defined it equals the intended one. |
| SpecConverter.SameRateIsIdentity | sound-efects/spec-converter/soundSpecConverter.ts:45-60 | The intended (clamped) resampler returns any JavaScript array (fewer than 2^32 elements) unchanged at equal rates, for every interpolation. |
| SpecConverter.SampleAtWholePosition | sound-efects/spec-converter/soundSpecConverter.ts:9-35 | At a whole-number position every intended (clamped) interpolation returns the sample there. |
| SpecConverter.SampleAtWholePositionAsWritten | sound-efects/spec-converter/soundSpecConverter.ts:9-35 | The code's three interpolators return the sample at a whole-number position inside the array, with no read past the end, including the cubic rule with its fallbacks for a missing or zero neighbour. |
| SpecConverter.SameRateAsWritten | sound-efects/spec-converter/soundSpecConverter.ts:45-60 | The code's `resample` at equal rates defines every sample and returns the input, for every interpolation, so the channel is the input itself. |
| SpecConverter.SameRateConversion | sound-efects/spec-converter/soundSpecConverter.ts:44-71 | `convertSampleRate` at equal nonzero rates returns the audio unchanged, both as written and as intended, for mono and stereo input. |
| SpecConverter.LinearStaysBetween | sound-efects/spec-converter/soundSpecConverter.ts:9-13 | A linearly interpolated value lies between the two samples it is drawn from. |
| SpecConverter.UpsamplingReadsPastEnd | sound-efects/spec-converter/soundSpecConverter.ts:44-56 | Upsampling `[a, b]` from 4 Hz to 7 Hz reads past the end, so the last sample is undefined as written and `b` when clamped. |
| SpecConverter.CubicTreatsZeroAsMissing | sound-efects/spec-converter/soundSpecConverter.ts:23-35 | Doubling the rate of `[0, 1, 2, 3]` with cubic interpolation gives 1.4375 at position 1.5 as written, and 1.5 as intended. |
| SpecConverter.ConvertSampleRate | sound-efects/spec-converter/soundSpecConverter.ts:62-70 | As written: both stereo channels, or the mono channel, are resampled with the code's values. A zero original rate, a length `new Array` rejects, a read past the end or a missing `audioData` is an error. |
| SpecConverter.ConvertSampleRateIntended | sound-efects/spec-converter/soundSpecConverter.ts:62-70 | The same dispatch over the intended, clamped resampler: a zero original rate, a length `new Array` rejects, or a missing `audioData` is an error. |
| SpecConverter.ConvertAgreesWhenDefined | sound-efects/spec-converter/soundSpecConverter.ts:44-70 | For nearest and linear interpolation, whenever the code converts a container without a bad read, the result is the intended one. |
| SpecConverter.UpsamplingConversionFails | sound-efects/spec-converter/soundSpecConverter.ts:44-70 | Converting mono `[a, b]` from 4 Hz to 7 Hz fails as written with a read past the end, and succeeds as intended. |
| SpecConverter.Pow2Real | sound-efects/spec-converter/soundSpecConverter.ts:75-76 | `Math.pow(2, e)` is positive, is 1 exactly at `e = 0`, and agrees with the integer power on nonnegative exponents. |
| SpecConverter.MaxValue | sound-efects/spec-converter/soundSpecConverter.ts:75-76 | The full-scale value `2^(bits-1) - 1` is 0 exactly for 1-bit samples. |
| SpecConverter.ConvertDepth | sound-efects/spec-converter/soundSpecConverter.ts:74-82 | The depth conversion fails exactly on a non-empty 1-bit source, by division by zero. Otherwise each output is the whole number nearest to the rescaled sample. |
| SpecConverter.RoundUnique | sound-efects/spec-converter/soundSpecConverter.ts:80 | The rounded value is the only integer within half of the input. |
| SpecConverter.SameDepthKeepsIntegers | sound-efects/spec-converter/soundSpecConverter.ts:74-82 | Converting whole-number samples to the same depth returns them unchanged. |
| SpecConverter.ConvertSampleMonotone | sound-efects/spec-converter/soundSpecConverter.ts:79-80 | The depth conversion preserves the order of samples. |
| SpecConverter.FullScaleMapsToFullScale | sound-efects/spec-converter/soundSpecConverter.ts:74-82 | Full scale at the source depth maps to full scale at the target depth. |
| SpecConverter.SixteenToEightBits | sound-efects/spec-converter/soundSpecConverter.ts:74-82 | 16-bit `[32767, 16383, 0, -16383, -32767]` becomes 8-bit `[127, 63, 0, -63, -127]`. |
| SpecConverter.ConvertBitDepth | sound-efects/spec-converter/soundSpecConverter.ts:84-90 | Both stereo channels, or the mono channel, are converted. This always succeeds unless the source depth is 1 bit or `audioData` is missing. |
| WavReader.LeValueOfBytes | WavReader.ts:47-61 | Reading a little-endian field written from a value gives the value back. |
| WavReader.BytesOfLeValue | WavReader.ts:47-61 | Writing back the value read from bytes reproduces those bytes. |
| WavReader.SignedRoundTrip | WavReader.ts:74-98 | Two's-complement reading and writing are inverse bijections between the unsigned and signed ranges of a width. |
| WavReader.ReadUInt | WavReader.ts:47-61 | `readUInt16LE`/`readUInt32LE` succeeds exactly when the field lies inside the buffer, and then reads the little-endian value. |
| WavReader.ReadInt | WavReader.ts:74-98 | `readInt8`/`readInt16LE`/`readInt32LE` succeeds exactly when the field lies inside the buffer, and then reads the two's-complement value. |
| WavReader.Ascii | WavReader.ts:48-59 | `buffer.toString('ascii', start, end)` clips the range to the buffer, gives the empty string for an empty range, and maps each byte to the character of its low seven bits. |
| WavReader.ParseHeader | WavReader.ts:47-61 | Parsing the header succeeds exactly on buffers of at least 44 bytes. |
| WavReader.HeaderRoundTrip | WavReader.ts:47-61 | Parsing an encoded header, whatever follows it, returns that header. |
| WavReader.ArrayLength | WavReader.ts:71-87 | `new Array(n)` accepts exactly whole lengths below `2^32`, and any other count is a range error. |
| WavReader.Decode | WavReader.ts:70-102 | Decoding succeeds exactly when the last sample lies inside the buffer, and then sample `j` is the signed value at `start + j·stride`. |
| WavReader.ParseMono | WavReader.ts:70-83 | Mono parsing succeeds exactly when the sample count is a valid length and, for a non-empty file, the bit depth is supported and the data fit. It returns one decoded sample per count. |
| WavReader.ParseStereo | WavReader.ts:84-102 | Stereo parsing reads half the sample count as frames, left at even and right at odd positions, with the same success conditions. |
| WavReader.ParseAudioData | WavReader.ts:63-106 | One channel is parsed as mono and two as stereo. Any other channel count is an error. |
| WavReader.GetAudioData | WavReader.ts:112-120 | One channel yields a mono container and two a stereo one. Any other count is an error. |
| WavReader.ReadWav | WavReader.ts:112-120 | Reading a buffer succeeds exactly when header and audio parse. The result holds the parsed header and the decoded channels. |
| WavReader.SampleCountOfWholeSamples | WavReader.ts:65-85 | A data chunk of `k` whole samples gives a sample count of `k` and a frame count of `k/2`. |
| WavReader.DecodeEncoded | WavReader.ts:70-83 | Decoding an encoded run of samples gives them back. |
| WavReader.MonoRoundTrip | WavReader.ts:22-83 | Reading a mono file built from a header and samples returns that header and those samples. |
| WavReader.StereoRoundTrip | WavReader.ts:22-102 | Reading a stereo file built by interleaving two channels returns the header and both channels. |
| Text.StartsWithAt | my-Sanitizer.ts:10-16 | A literal (folded or not) matches at the front exactly when each of its characters matches the character there. |
| Text.NoMatchUnchanged | my-Sanitizer.ts:10-16 | A global replace whose pattern matches nowhere leaves the text unchanged. |
| Text.RulesKeepAbsent | my-Sanitizer.ts:10-16 | A chain of replaces whose replacements cannot bring in a character keeps it absent. |
| Text.RulesRemove | my-Sanitizer.ts:10-16 | After a rule that replaces a character by text without it, followed only by rules that keep it absent, the character is gone. |
| Text.ApplyRulesAppend | my-Sanitizer.ts:10-16 | Running two rule lists in a row equals running their concatenation. |
| Text.SingleCharReplace | my-Sanitizer.ts:9-16 | Replacing every occurrence of one character is a character-by-character substitution. |
| Text.EscapeRulesAreEscape | my-Sanitizer.ts:66-78 | Escaping distinct characters one after another, none of them the backslash, equals putting a backslash before each in a single pass. |
| Text.DotsRemoved | sanitizer/my-Sanitizer.ts:212-221 | Removing every `..` leaves no `..`. |
| Text.Trim | my-Sanitizer.ts:19-21 | The trimmed text is the middle of the input with only spaces cut from both ends and no space left at either end. |
| Text.TrimUnique | my-Sanitizer.ts:19-21 | Only one string satisfies that description. |
| Text.TrimIdempotent | my-Sanitizer.ts:19-21 | Trimming twice is trimming once. |
| Text.TrimNoEdgeSpace | my-Sanitizer.ts:19-21 | A text without space at either end is left unchanged. |
| Pipeline.RunAppend | sanitizer/my-Sanitizer.ts:14-19 | Running two sequences of handlers in a row equals running their concatenation. |
| Pipeline.RunKeepsAbsent | sanitizer/my-Sanitizer.ts:14-19 | A character absent from the input stays absent through handlers that cannot bring it in. |
| Pipeline.RunKeepsPresent | sanitizer/my-Sanitizer.ts:14-19 | A character present in the input survives handlers that never match it. |
| Pipeline.RunAfterRemoval | sanitizer/my-Sanitizer.ts:14-19 | Once a handler removes a character, handlers after it that cannot bring it in keep it out. |
| SanitizerRules.HandleAppend | sanitizer/my-Sanitizer.ts:14-19 | Handling by a chain of stages splits over concatenation. |
| SanitizerRules.Without | sanitizer/my-Sanitizer.ts:267-336 | Dropping a set of stages keeps exactly the others. |
| SanitizerRules.HtmlRemovesSpecials | sanitizer/my-Sanitizer.ts:37-52 | After HTML escaping, none of ``< > " ' ` / =`` is left in the text. |
| SanitizerRules.OsIsEscape | sanitizer/my-Sanitizer.ts:164-182 | The OS stage puts a backslash before each of ``& \| ; ` $ > < * ? ! ~`` in one pass. |
| SanitizerRules.SqlDoublesSemicolonEscape | sanitizer/my-Sanitizer.ts:55-70 | The SQL stage turns `;` into `\\;`, because the later backslash rule doubles the backslash added before it. |
| SanitizerRules.TraversalLeavesNoDots | sanitizer/my-Sanitizer.ts:212-221 | The traversal stage leaves no `..`. |
| SanitizerRules.VbRewritesEval | sanitizer/my-Sanitizer.ts:118-130 | The VB stage rewrites `Eval` so that a `7` from its character reference appears. |
| SimpleSanitizer.Sanitize | my-Sanitizer.ts:80-90 | The stored text is the result, and the result holds no `<` or `>` because every step after HTML escaping keeps them out. |
| SimpleSanitizer.NoLt | my-Sanitizer.ts:80-90 | Whatever the input, the sanitized text has no `<`. |
| SimpleSanitizer.NoGt | my-Sanitizer.ts:80-90 | Whatever the input, the sanitized text has no `>`. |
| ChainSanitizer.ChainShape | sanitizer/my-Sanitizer.ts:267-336 | Each variation's chain is in the default order and holds exactly the stages the variation does not leave out. |
| ChainSanitizer.ChainOmits | sanitizer/my-Sanitizer.ts:267-336 | Each variation's chain is the default chain with its omitted stages removed. |
| ChainSanitizer.OrderedUnique | sanitizer/my-Sanitizer.ts:267-336 | Two chains in the default order with the same stages are equal. |
| ChainSanitizer.LinkSets | sanitizer/my-Sanitizer.ts:270-281 | Linking a chain of distinct stages makes each stage's next the one after it. |
| ChainSanitizer.FollowWalks | sanitizer/my-Sanitizer.ts:14-19 | Following next-links from a stage walks the rest of the linked chain. |
| ChainSanitizer.ChainLinked | sanitizer/my-Sanitizer.ts:267-335 | After linking a variation's chain, the walk from the trim stage visits exactly that chain, and traversal has no successor. |
| ChainSanitizer.OrderedLinked | sanitizer/my-Sanitizer.ts:270-281 | Linking any ordered chain makes the walk from its head visit it exactly. |
| ChainSanitizer.ChainEnds | sanitizer/my-Sanitizer.ts:267-336 | Every chain starts with trim and ends with directory traversal. |
| ChainSanitizer.New | sanitizer/my-Sanitizer.ts:248-265 | A new sanitizer holds its data and a valid stage table. |
| ChainSanitizer.Sanitize | sanitizer/my-Sanitizer.ts:267-336 | The intended `sanitize` (the corrected half of the `NoMinor` finding): each variation runs its own case's chain over the data and stores the result. For every variation but `NoMinor` this is what the code does (`ChainSanitizer.SanitizeAsWritten`). |
| ChainSanitizer.SanitizeOmits | sanitizer/my-Sanitizer.ts:267-336 | The intended `sanitize` runs the default chain without the stages the variation's name leaves out, so `NoMinor` skips VB, Ruby and Lua. |
| ChainSanitizer.SanitizeAsWritten | sanitizer/my-Sanitizer.ts:267-336 | `sanitize` as written: `NoMinor` falls through into `default` and runs the full default chain, and every other variation runs its own case's chain. |
| ChainSanitizer.LinkedAsWritten | sanitizer/my-Sanitizer.ts:309-335 | As written, after NoMinor the links walk the full default chain. |
| ChainSanitizer.SanitizeLeavesNoDots | sanitizer/my-Sanitizer.ts:212-221 | Every variation's output has no `..`. |
| ChainSanitizer.SanitizeNoAngles | sanitizer/my-Sanitizer.ts:37-52 | Every variation's output has no `<` or `>`. |
| ChainSanitizer.ChainSkipsShortWord | sanitizer/my-Sanitizer.ts:26-221 | A word of at most four letters passes unchanged through any chain of stages that skip short words. |
| ChainSanitizer.AfterVbKeepsSeven | sanitizer/my-Sanitizer.ts:133-221 | A `7` present after the VB stage survives the Ruby, Lua, XSS, template and traversal stages that follow it in the default chain. |
| ChainSanitizer.NoMinorAsWrittenRewritesEval | sanitizer/my-Sanitizer.ts:309-332 | On `Eval`, NoMinor as written brings in a `7`, while the intended NoMinor returns `Eval` unchanged. |
| PySanitizer.CaseSensitive | sanitizer/my_sanitizer.py:113-127 | Dropping case folding keeps the pattern text and the characters a match needs. |
| PySanitizer.FoldFirstOnly | sanitizer/my_sanitizer.py:113-127 | A Python handler's rules keep their texts and replacements, and only the first ignores case. |
| PySanitizer.PyChainDistinct | sanitizer/my_sanitizer.py:245-256 | The constructor's chain has no handler twice. |
| PySanitizer.Step | sanitizer/my_sanitizer.py:23-35 | A processed handler passes the text on untouched. Otherwise it rewrites the text and becomes processed exactly when the text changed. |
| PySanitizer.HandleFromRuns | sanitizer/my_sanitizer.py:23-35 | Running the chain equals running, in order, only the handlers not yet processed, and the processed set only grows. |
| PySanitizer.HandleFromMarks | sanitizer/my_sanitizer.py:23-35 | A handler is processed afterwards exactly when it was before or it changed the text it received. |
| PySanitizer.New | sanitizer/my_sanitizer.py:227-256 | A new sanitizer holds the data and no processed handler. |
| PySanitizer.Sanitize | sanitizer/my_sanitizer.py:258-260 | `sanitize` runs the unprocessed handlers in chain order, stores the result, and never unmarks a handler. |
| PySanitizer.SanitizeMarks | sanitizer/my_sanitizer.py:15-45 | After a call, handler `i` is processed exactly when it was before or it changed the text that reached it. |
| PySanitizer.FirstCallRunsAll | sanitizer/my_sanitizer.py:227-260 | On a fresh object every handler runs. |
| PySanitizer.TraversalRepeatIdle | sanitizer/my_sanitizer.py:213-224 | The repeated `str.replace` removals of the traversal handler change nothing after its two `re.sub` calls. |
| PySanitizer.LastTraversalNoDots | sanitizer/my_sanitizer.py:213-224 | A run ending with an unprocessed traversal handler leaves no `..`. |
| PySanitizer.SanitizeLeavesNoDots | sanitizer/my_sanitizer.py:213-224 | While the traversal handler is unprocessed, the output has no `..`. |
| PySanitizer.LateKeepsAngles | sanitizer/my_sanitizer.py:102-224 | No handler after HTML escaping can bring in `<` or `>`. |
| PySanitizer.SanitizeNoAngles | sanitizer/my_sanitizer.py:84-99 | While the HTML handler is unprocessed, the output has no `<` or `>`. |
| Prosody.Span | tts-model-creater/create_prosodic_phoneme_sequence.py:38-41 | A greedy character-class run stops exactly at the first character outside the class. |
| Prosody.MatchAtMeans | tts-model-creater/create_prosodic_phoneme_sequence.py:4-17 | The matcher at a position returns a group exactly when the pattern's prefix, group and stop character sit there. |
| Prosody.SearchLeftmost | tts-model-creater/create_prosodic_phoneme_sequence.py:4-17 | `re.search` finds the leftmost position where the pattern matches, and fails only when it matches nowhere. |
| Prosody.DecimalValue | tts-model-creater/create_prosodic_phoneme_sequence.py:8 | The decimal digits of `n` read back as `n`. |
| Prosody.ParseIntLiteral | tts-model-creater/create_prosodic_phoneme_sequence.py:8 | `int` of a printed integer, negative ones included, returns it. |
| Prosody.ParseIntLeadingZero | tts-model-creater/create_prosodic_phoneme_sequence.py:8 | A leading zero does not change the parsed value. |
| Prosody.Feature | tts-model-creater/create_prosodic_phoneme_sequence.py:3-8 | A feature is −50 when the pattern is absent, and otherwise `int` of its group. |
| Prosody.UnsignedFeatureParses | tts-model-creater/create_prosodic_phoneme_sequence.py:39-41 | A digits-only feature always parses. |
| Prosody.CollectSucceeds | tts-model-creater/create_prosodic_phoneme_sequence.py:14-50 | The loop succeeds exactly when every label's step does. |
| Prosody.CollectFailsAtFirst | tts-model-creater/create_prosodic_phoneme_sequence.py:14-50 | The loop fails with the error of the first failing label. |
| Prosody.CollectBound | tts-model-creater/create_prosodic_phoneme_sequence.py:14-50 | If each label adds at most `b` symbols, the result has at most `b` per label. |
| Prosody.LabelAtMostTwo | tts-model-creater/create_prosodic_phoneme_sequence.py:22-50 | One label adds at most two symbols. |
| Prosody.CollectLoop | tts-model-creater/create_prosodic_phoneme_sequence.py:14-52 | The loop appends each label's symbols in order and stops at the first failure, giving exactly the recursive collection. |
| Prosody.SymbolsAtMostTwice | tts-model-creater/create_prosodic_phoneme_sequence.py:14-50 | The output has at most two symbols per label. |
| Prosody.PpSymbols | tts-model-creater/create_prosodic_phoneme_sequence.py:10-52 | `pp_symbols` is the per-label collection, with at most two symbols per label. |
| Prosody.FirstSilence | tts-model-creater/create_prosodic_phoneme_sequence.py:22-24 | A leading `sil` gives `^`. |
| Prosody.LastSilence | tts-model-creater/create_prosodic_phoneme_sequence.py:25-31 | A trailing `sil` gives an empty symbol for `e3 = 0`, `?` for `e3 = 1`, and nothing otherwise. |
| Prosody.InnerSilence | tts-model-creater/create_prosodic_phoneme_sequence.py:22-31 | A `sil` in the middle gives nothing. |
| Prosody.Pause | tts-model-creater/create_prosodic_phoneme_sequence.py:32-34 | `pau` gives `_`. |
| Prosody.OtherLabel | tts-model-creater/create_prosodic_phoneme_sequence.py:35-50 | Any other phoneme gives itself, followed by at most one of `#`, `]` and `[`. |
| Prosody.AccentPriority | tts-model-creater/create_prosodic_phoneme_sequence.py:45-50 | `#` wins when `a3 = 1` and `a2_next = 1`. `]` applies only when that fails and the falling-accent test holds, and `[` only when both fail and the rising test holds. |
| Prosody.LastOtherFails | tts-model-creater/create_prosodic_phoneme_sequence.py:35-43 | A last label that is neither `sil` nor `pau` makes `labels[n+1]` raise. |
| Prosody.SymbolsFailAtFirst | tts-model-creater/create_prosodic_phoneme_sequence.py:14-50 | The whole run fails with the first failing label's error. |
| Prosody.SymbolsSucceed | tts-model-creater/create_prosodic_phoneme_sequence.py:14-50 | The whole run succeeds exactly when every label does. |
| Prosody.UnterminatedFails | tts-model-creater/create_prosodic_phoneme_sequence.py:35-43 | A label sequence that does not end in `sil` or `pau` always fails. |
| Licenser.TableShape | licenser/licens-selector.ts:9-80 | The table has four questions with both answers and six licenses with neither. |
| Licenser.TargetsAreKeys | licenser/licens-selector.ts:9-80 | Every answer leads to an entry of the table. |
| Licenser.LeafHeadings | licenser/licens-selector.ts:38-79 | Each license's heading recommends that license. |
| Licenser.Click | licenser/licens-selector.ts:108-120 | A click follows the chosen answer when it is set, and otherwise stays on the current entry. |
| Licenser.LeafStays | licenser/licens-selector.ts:108-120 | Clicks on a license change nothing. |
| Licenser.WalkAppend | licenser/licens-selector.ts:108-120 | Clicking one sequence then another equals clicking their concatenation. |
| Licenser.WalkPastLicense | licenser/licens-selector.ts:108-120 | Once a walk has reached a license, the answers after that point change nothing. |
| Licenser.ThreeAnswersDecide | licenser/licens-selector.ts:9-37 | Any three answers from the start reach a license. |
| Licenser.DecidedWithinThree | licenser/licens-selector.ts:108-120 | From the start, three or more answers reach a license and answers after the third change nothing. |
| Licenser.ClickStaysReachable | licenser/licens-selector.ts:9-37 | No click leads into CC BY-NC-SA from anywhere else. |
| Licenser.NonCommercialShareAlikeUnreachable | licenser/licens-selector.ts:24-30 | No sequence of answers from the start ever shows CC BY-NC-SA. |
| Licenser.Slug | licenser/licens-selector.ts:98-101 | The link slug has the key's length, with each space turned into `-` and each ASCII capital lowered. |
| Licenser.KeysAreAscii | licenser/licens-selector.ts:9-80 | Every key of the question table is ASCII text, where lowering `A`–`Z` is all `toLowerCase` does. |
| Licenser.SlugClean | licenser/licens-selector.ts:98-101 | The slug has no space and no capital letter. |
| Licenser.Show | licenser/licens-selector.ts:90-106 | The page shows the entry's heading, and a link exactly when neither button is shown. |
| Licenser.LeavesLink | licenser/licens-selector.ts:90-106 | Exactly the licenses show a link, and it is their legal-code address. |

## Left out

- Reading files and blobs (`readWavFile`, `blobToBuffer`, `WavReader.ts:12-45`) is asynchronous I/O. The model starts from the bytes. The trivial `getHeader` (`WavReader.ts:108-110`) is left out.
- Logging (`console.log`/`console.error` in the sanitizers, the hum remover and the noise reducer) and the timing in `reduceNoise` (`NoisReduction.ts:261-270`) do not change the data and are left out.
- `Complex.ts` and `AudioDataInterfaces.ts` are not part of this model. Complex numbers are the usual exact arithmetic, and the containers are `Audio.Container`.
- Square roots, powers of ten, logarithms, twiddle factors and phase rotation are parameters (`Numerics`), and only the laws the proofs need are stated about them. `Math.sqrt`, `Math.pow`, `Math.log10`, `Math.cos`/`Math.sin` are not modelled numerically.
- Floating point is exact real arithmetic. Rounding error, overflow to `Infinity` and `-0` are not modelled. `NaN` and `undefined` reads are modelled as `Failure`/`None`.
- Fft.Transform: the source's `fft()` on a length that is not a power of two (other than 0 and 1) reads array elements that are not there. The model gives `Failure(InvalidLength)`, assuming `Complex` arithmetic throws on `undefined`, which cannot be checked here.
- SpecConverter.ConvertDepth: from a 1-bit depth the largest value is 0, so the code divides each sample by 0 and yields `Infinity`, `-Infinity` or `NaN` without throwing. The model reports `Failure(DivisionByZero)` for a non-empty channel instead.
- Normalizer.NormalizeChannel: a silent non-empty spectrum divides by a zero peak and fills the channel with `NaN`. The model reports `Failure(SilentInput)` instead.
- HumRemover.RemoveHum: the CUSTOM branches on `humRemover.ts:47-48` return their argument either way, so the model passes the values through. The enum's −1 values are then used as given, as `HumRemover.CustomRemovesFractional` states.
- HumRemover.RemoveHumDefault restates `RemoveHum` at the default arguments and has no row.
- Filters.AllPassKeepsMagnitude: the phase rotation is an abstract parameter with a magnitude-preserving law. The exact angle arithmetic is not modelled.
- PySanitizer: `re.IGNORECASE` is modelled as ASCII case folding. Python also folds `ı`, `İ`, `ſ` and the Kelvin sign, which is not modelled.
- Prosody: `\d` in the feature patterns matches only ASCII digits here. Python also matches other Unicode decimal digits, which full-context labels do not contain.
- ChainSanitizer.Follow walks next-links with a fuel bound. The bound is the chain length, which is always enough for the chains built here.
- The demonstration code at the end of `sanitizer/my_sanitizer.py` (lines 262-267) and of `soundSpecConverter.ts` (lines 93-110) only prints, and is left out.
- Licenser.Slug: lowers only the ASCII capitals, where `toLowerCase` folds every Unicode letter. The two agree on the table's keys, which are all ASCII (`KeysAreAscii`), and no other key reaches the link.
- Licenser: the DOM (`licens-selector.ts:84-106`, `122`) is modelled only as the `Display` record. The description and use-case texts of the table are left out, as is the link text.
- Prosody: the `drop_unvoiced_vowels` branch (`create_prosodic_phoneme_sequence.py:19-20`) assigns a variable nobody reads. The flag is accepted and ignored.
- The Python sanitizer's `data` attribute can be reassigned from outside. The model passes the text in when the object is made.
- NoiseReduction.ChainOrderIrrelevant holds for the intended chain only. As written, `reduceNoise` applies the first filter alone, so the order of the list matters (`NoiseReduction.AsWrittenOrderMatters`).
- SpecConverter.ConvertSampleRate: the code returns a container in which a read past the end left a `NaN` or `undefined` sample. The model reports `Failure(ReadPastEnd)` for the whole conversion instead, so the other samples of such a channel are not given (`SpecConverter.ResampleAsWritten` keeps them).
- Every effect mutates the container it is given. The model returns a new container.
- Equalizer: the settings are iterated in `Object.entries` order, which is modelled as the given sequence. No sorting is applied, as in the code.
- Filters: the low-pass filter keeps the bin exactly at the cutoff (`f > cutoff` removes), and the model follows the code.
- `tts-model-creater/preproc.py`, `test.py` and `waveglow.py` are outside the modelled core.

## Findings

| source | as written | input that shows it | evidently intended | confidence | as-written member | corrected member |
|---|---|---|---|---|---|---|
| sound-efects/noise-reduction/NoisReduction.ts:25-63 | Every filter class overrides `filter` to return its own `applyFilter` result, so the `next` link set up at lines 243-247 is never followed and only the first filter runs. | Filters `[Power 1, AbsoluteValue 5]` and the bin `2+0i`: it survives, although the second filter removes it. | A bin is removed when any filter in the chain triggers. | not executed | NoiseReduction.AsWrittenSkipsLaterFilters | NoiseReduction.ChainIsAnyFilter |
| sound-efects/spec-converter/soundSpecConverter.ts:44-56 | The output length is `round(len·ratio)`, and the read position `i / ratio` can pass `len - 1`, so `data[ceil(pos)]` reads past the end and the sample becomes `NaN`. | `[a, b]` from 4 Hz to 7 Hz: sample 3 is at position 1.714, which reads `data[2]`. | Reads clamped to the last sample, giving `b`. | not executed | SpecConverter.UpsamplingReadsPastEnd | SpecConverter.LinearStaysBetween |
| sound-efects/spec-converter/soundSpecConverter.ts:23-26 | `data[lowerIndex - 1] \|\| data[lowerIndex]` and `data[upperIndex + 1] \|\| data[upperIndex]` treat a sample of 0 as missing. | `[0, 1, 2, 3]` at twice the rate: position 1.5 gives 1.4375 instead of 1.5. | Only out-of-range neighbours are replaced. | not executed | SpecConverter.CubicTreatsZeroAsMissing | SpecConverter.CubicInterpolates |
| sanitizer/my-Sanitizer.ts:309-332 | The `SanitizerVariation.NoMinor` case (lines 309-318) has no `break`, so it falls through into `default` and relinks the full chain, VB, Ruby and Lua included. | `Eval` under NoMinor comes out as `Ev&#97;l`. | NoMinor skips the VB, Ruby and Lua stages and returns `Eval`. | not executed | ChainSanitizer.NoMinorAsWrittenRewritesEval | ChainSanitizer.SanitizeOmits |
