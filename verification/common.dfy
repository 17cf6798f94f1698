/** Shared failure-compatible wrappers and the error conditions the modelled
    code raises (as exceptions, `RangeError`s or NaN results). */
module Common {

  datatype Option<+T> = None | Some(value: T)

  /** The conditions the toolkit fails with. Each is named after what the
      source does at that point; see the module that produces it. */
  datatype Error =
    | InvalidLength            // transform length > 1 and not a power of two
    | SilentInput              // normalizer: peak magnitude 0, division by zero
    | UnsupportedMethod        // noise reduction: unknown metric tag
    | NoFilters                // noise reduction: empty method/threshold list
    | MissingChannelData       // container has neither both channels nor `audioData`
    | HumRemovalFailed         // hum remover rethrows every failure with this message
    | InvalidArrayLength       // `new Array(n)` with n not a valid array length
    | InvalidSampleRate        // resampler: original rate 0 (Infinity/NaN length)
    | ReadPastEnd              // resampler: a sample read beyond the buffer (undefined)
    | DivisionByZero           // bit-depth conversion from a 1-bit depth
    | OutOfBounds              // byte buffer read beyond its length
    | UnsupportedChannels(count: int)
    | UnsupportedBitDepth(bits: int)
    | NoPhonemeMatch           // prosody: label without a `-phoneme+` part
    | InvalidIntLiteral        // prosody: `int()` of a non-numeric group
    | IndexOutOfRange          // prosody: `labels[n+1]` past the end

  datatype Result<+T> = Success(value: T) | Failure(error: Error) {

    predicate IsFailure() {
      Failure?
    }

    function PropagateFailure<U>(): Result<U>
      requires Failure?
    {
      Failure(error)
    }

    function Extract(): T
      requires Success?
    {
      value
    }
  }

  /** `n` is accepted by `new Array(n)`: a whole number below 2^32. Any
      other count makes it throw `RangeError`. */
  predicate IsArrayLength(n: real) {
    0.0 <= n && n.Floor as real == n && n < 4294967296.0
  }
}
