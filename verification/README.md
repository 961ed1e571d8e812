# Wave transforms in Dafny

A model of the `Wave` class of `host/wave.php`. A `Wave` holds a buffer of
audio samples, and every transform returns a new `Wave`:

- `Downsample(k)` averages each full block of `k` samples.
- `Upsample(k)` turns every sample into `k` points: the sample itself, then points interpolated linearly towards the next sample. A buffer of `n` samples becomes `n * k` points.
- `LowPass` is downsample-by-8 followed by upsample-by-8.
- `HighPass` halves the difference of each sample and its successor.
- `Rectify` takes magnitudes.
- `Envelope(resp, damp)` is an attack/decay envelope follower.
- `Trigger(low, high)` is a hysteresis gate.
- `GetMax` returns the largest sample.
- `Load` keeps the bytes of a fetched payload after a fixed 48-byte header and decodes them as unsigned 8-bit PCM.

The model is organised in modules:

- `Samples` holds the buffer type (`seq<real>`), the error type, `Sum` and `GetMax`.
- `Resampler` holds Downsample, Upsample and LowPass.
- `Filters` holds HighPass and Rectify.
- `EnvelopeFollower` holds Envelope.
- `Hysteresis` holds Trigger.
- `Loader` holds the byte decoding of `Load`.
- `WaveTests` holds the class's unit-test vectors, stated as lemmas.

Each transform is written as a pure function. The class's loops are also written out as methods (`DownsampleLoop`, `UpsampleLoop`, `EnvelopeLoop`, `TriggerLoop`, `HighPassArray`). Each loop method is proved to compute the function. Independent properties are proved about the functions: closed forms, bounds, inverses and reference definitions.

On unusual inputs the code behaves as follows, and so does the model:

- **Downsample with a zero factor.** The block count `count / 0` divides by zero with PHP's `/` operator. Under PHP 8 that throws, which is `Err(DivisionByZero)` in `DownsampleBy`.
- **Downsample with a negative factor.** The block count `floor(n / k)` is at most 0, so no block is produced and the result is `Ok([])`.
- **Upsample with a factor of 0 or less.** The result is empty. The inner loop never runs, so the coefficient step that divides by the factor is never reached (`UpsampleBy`).
- **HighPass of an empty buffer.** The class writes its final 0 at key `-1`, so the result is the one-entry array `{-1 => 0}` rather than an empty buffer (`HighPassArray`).
- **Trigger's two tests are independent `if`s.** With `low > high`, a sample between the two thresholds is first set and then cleared. An `if … else if` gate would differ exactly there (`InvertedThresholdsDiffer`).

## Model

| member | source | states |
|---|---|---|
| Samples.Sum | host/wave.php:122-125 | the left-to-right running total equals the reference sum taken from the front |
| Samples.SumFront | host/wave.php:122-125 | a sum is its first sample plus the sum of the rest |
| Samples.GetMax | host/wave.php:80-82 | an empty buffer is the `EmptySequence` error; otherwise the result is one of the samples and no sample exceeds it |
| Samples.GetMaxCharacterized | host/wave.php:80-82 | any member of the buffer that bounds every sample is exactly the value `GetMax` returns |
| Loader.DecodeSample | host/wave.php:113 | a byte `b` becomes a sample in `[-1, 127/128]` with `x * 128 + 128 == b` |
| Loader.DecodeBytes | host/wave.php:111-114 | one sample per byte, in order, each the decoding of its byte |
| Loader.Decode | host/wave.php:108-114 | a payload of at most 48 bytes yields no samples; otherwise sample `i` is `(payload[48 + i] - 128) / 128`, one per byte after the header, all within `[-1, 127/128]` |
| Loader.DecodeRoundTrip | host/wave.php:108-114 | re-encoding the decoded samples gives back exactly the payload bytes after the header, so decoding loses nothing |
| Loader.DecodeSampleInjective | host/wave.php:113 | distinct bytes decode to distinct samples |
| Resampler.Downsample | host/wave.php:117-130 | the output has `floor(n / k)` samples, one per full block of `k` |
| Resampler.DownsampleMeans | host/wave.php:119-127 | output `i` is the mean of input block `[i*k, i*k+k)`, and that block lies inside the input |
| Resampler.DownsampleDropsTail | host/wave.php:119-120 | samples after the last full block never change the output |
| Resampler.DownsampleBy | host/wave.php:117-119 | a factor of 0 is a division-by-zero error, a negative factor gives an empty result, and a positive factor gives exactly `Downsample`, with `floor(n / k)` samples |
| Resampler.DownsampleLoop | host/wave.php:117-130 | the nested block-total loop produces, at every index, the mean of that block, and equals `Downsample` |
| Resampler.Lerp | host/wave.php:140-143 | point `j` of `k`: it is the start sample at `j = 0`, would be the end sample at `j = k`, and lies between the two for `j <= k` |
| Resampler.Segment | host/wave.php:140-143 | the inner loop's segment has exactly `k` points |
| Resampler.SegmentBetween | host/wave.php:140-143 | a segment's first point is its start sample, and every point lies between the two end samples |
| Resampler.Upsample | host/wave.php:132-148 | the output has `n * k` samples |
| Resampler.UpsampleBlock | host/wave.php:134-145 | outputs `[i*k, i*k+k)` are the `k` points interpolated from sample `i` towards sample `min(i+1, n-1)` |
| Resampler.UpsampleAt | host/wave.php:134-145 | output `i*k + j` is `s[i] + (s[min(i+1, n-1)] - s[i]) * j/k` |
| Resampler.UpsampleKeepsSamples | host/wave.php:138-142 | every input sample reappears at the start of its segment, at output `i*k` |
| Resampler.UpsampleClampsTail | host/wave.php:136 | the last `k` outputs all equal the last input sample |
| Resampler.UpsampleBy | host/wave.php:132-148 | a factor of 0 or less gives an empty result; a positive factor gives exactly `Upsample`, with `n * k` samples |
| Resampler.SegmentLoop | host/wave.php:138-144 | the inner loop, whose coefficient grows by `1/k` from 0, yields `k` points with point `j` at coefficient `j/k` |
| Resampler.UpsampleLoop | host/wave.php:132-148 | the nested loop yields `n * k` outputs, each the interpolated point of its segment, and equals `Upsample` |
| Resampler.LowPass | host/wave.php:159-161 | the output covers exactly the full blocks of 8 samples, so it is never longer than the input |
| Resampler.LowPassBlockMeans | host/wave.php:159-161 | at the start of each block of 8 the low-pass output is that block's mean |
| Filters.HighPass | host/wave.php:163-170 | same length as the input; output `i` is `(s[i] - s[i+1]) / 2` and the last output is 0 |
| Filters.HighPassTelescopes | host/wave.php:163-170 | the outputs add up to half the drop from the first sample to the last |
| Filters.HighPassArray | host/wave.php:163-170 | the array the loop builds: for an empty buffer only key `-1` holding 0; otherwise exactly keys `0 .. n-1` holding the `HighPass` outputs |
| Filters.Rectify | host/wave.php:172-174 | same length; every output is the magnitude of its input |
| Filters.RectifyNonnegative | host/wave.php:173 | every rectified sample is non-negative and is its input or the input's negation |
| Filters.RectifyIdempotent | host/wave.php:172-174 | rectifying twice is rectifying once |
| Filters.RectifyPrefix | host/wave.php:172-174 | rectifying a prefix gives the prefix of the rectified buffer |
| EnvelopeFollower.Step | host/wave.php:180-185 | a magnitude above the envelope moves it up by the fraction `resp` of the gap; any other sample scales it by `damp` |
| EnvelopeFollower.Follow | host/wave.php:178-187 | from an envelope value `e`, each output is one step from the previous output on that sample |
| EnvelopeFollower.Envelope | host/wave.php:176-189 | same length; output 0 is one step from 0, and each later output is one step from the previous output |
| EnvelopeFollower.EnvelopeLoop | host/wave.php:176-189 | the loop with its single accumulator equals `Envelope` |
| EnvelopeFollower.EnvelopeNonnegative | host/wave.php:178-187 | with `0 <= resp <= 1` and `damp >= 0` the envelope is never negative |
| EnvelopeFollower.EnvelopeBelowPeak | host/wave.php:179-187 | with `resp` and `damp` in `[0, 1]`, every output is at most the magnitude of some sample seen so far |
| EnvelopeFollower.EnvelopeBelowMax | host/wave.php:179-187 | with `resp` and `damp` in `[0, 1]`, output `i` is at most the `GetMax` of the rectified first `i + 1` samples |
| EnvelopeFollower.EnvelopeSnapsOnRise | host/wave.php:180-185 | with `resp == 1` a rise jumps exactly to the new magnitude, and anything else scales the previous value by `damp` |
| EnvelopeFollower.EnvelopeNeverFallsWithoutDecay | host/wave.php:181-185 | with `damp == 1` and `resp` in `[0, 1]` the envelope never falls |
| Hysteresis.Step | host/wave.php:198-203 | a sample below `low` clears the state, a firing sample sets it, and a sample in neither case leaves it unchanged |
| Hysteresis.Gate | host/wave.php:196-205 | from a 0/1 state, every output is 0 or 1 and is one step from the previous state |
| Hysteresis.Trigger | host/wave.php:191-208 | same length, every output is 0 or 1, and each is one step from the previous state, starting from 0 |
| Hysteresis.TriggerLoop | host/wave.php:191-208 | the loop with two independent tests equals `Trigger` |
| Hysteresis.TriggerOnIff | host/wave.php:196-205 | the trigger is on at `i` exactly when some sample up to `i` exceeded `high` without being below `low`, and no later sample up to `i` was below `low` |
| Hysteresis.TriggerInvertedBand | host/wave.php:198-203 | with `low > high`, a sample strictly between them leaves the trigger off, because the clearing test runs second |
| Hysteresis.GateMatchesSchmitt | host/wave.php:198-203 | with `low <= high`, the two independent tests behave as the `if … else if` Schmitt gate from any 0/1 state |
| Hysteresis.TriggerMatchesSchmitt | host/wave.php:198-203 | with `low <= high`, the trigger equals the Schmitt gate started from 0 |
| Hysteresis.InvertedThresholdsDiffer | host/wave.php:198-203 | with `low = 1` and `high = 0`, the trigger on `[0.5]` stays off while the Schmitt gate turns on |
| WaveTests.DownsampleVector | host/wave.php:8-14 | downsampling `[0.2, 0.6, -0.2, 0.5, 1.0]` by 2 gives `[0.4, 0.15]` |
| WaveTests.UpsampleVector | host/wave.php:16-22 | upsampling `[0.2, 0.6, -0.2]` by 2 gives `[0.2, 0.4, 0.6, 0.2, -0.2, -0.2]` |
| WaveTests.HighPassVector | host/wave.php:25-30 | the high pass of `[-1, 1, 0.4, -0.7]` is `[-1, 0.3, 0.55, 0]` |
| WaveTests.RectifyVector | host/wave.php:32-37 | rectifying `[-1, 0.4, 1, -0.1, 0]` gives `[1, 0.4, 1, 0.1, 0]` |
| WaveTests.EnvelopeResponsivenessVector | host/wave.php:39-49 | with `resp = 0.25` and `damp = 0`, rising magnitudes take the rising branch at every step |
| WaveTests.EnvelopeDampeningVector | host/wave.php:51-59 | with `resp = 1` and `damp = 0.25`, the envelope of `[256, 255, 63, 15, 5]` is `[256, 64, 16, 4, 5]` |
| WaveTests.TriggerVector | host/wave.php:61-66 | the trigger `(-0.1, 0.4)` of `[0.5, 0.4, 0.3, 0.2, -0.3, -0.2, 0, 0.7]` is `[1, 1, 1, 1, 0, 0, 0, 1]` |

## Left out

- `Load`'s fetch is not modelled. This covers the cURL session, the HTTP status check, the transport-error check and their exceptions. The model starts from the payload bytes and treats each character as an integer byte 0–255.
- The extra 4-byte header offset that the comment on `Load` wonders about is not modelled. The model uses the constant 48 that the code uses.
- `GetIntervals` is left out. It calls `LowPass()` and `HighPass()` as free functions rather than methods, so it cannot run, and it returns nothing.
- The constructor and `GetSamples` are left out. They only store and return the buffer.
- Floating-point rounding is not modelled: samples are exact reals.
  - The unit tests compare with PHP's loose `assertEquals`, so the test vectors hold exactly here.
  - The Upsample coefficient, which PHP accumulates by repeated `+= 1/k`, is exactly `j/k` here.
- Samples are sequences rather than PHP arrays with integer keys. The one place where the keys matter, HighPass of an empty buffer, is modelled by `Filters.HighPassArray`.
- The default arguments of `Envelope` are not modelled. Both defaults name global constants that are never defined: `ENVELOPE_RESPONSIVENESS`, and `DEFAULT_ENVELOPE_DAMPENING` written without `self::`. So neither `Envelope()` nor a one-argument `Envelope($r)` can run. Every call in the model passes both parameters.
- The model follows PHP 8 semantics in three places where PHP 7 behaves differently:
  - `max` of an empty array is `Err(EmptySequence)`. PHP 7 warns and returns `false`.
  - Downsample by 0 is `Err(DivisionByZero)`. In PHP 7, `count / 0` warns and yields INF or NAN, so on a non-empty buffer the block loop does not terminate.
  - A payload of at most 48 bytes decodes to no samples. In PHP 7, `substr` past the end returns `false`, and the strict-typed `strlen` at line 111 then throws a TypeError.
- Resampler.Downsample: requires `k >= 1`. The other factors are handled by `Resampler.DownsampleBy`, which is `Downsample` for `k >= 1`.
- Resampler.Upsample: requires `k >= 1`. The other factors are handled by `Resampler.UpsampleBy`, which is `Upsample` for `k >= 1`.
- Filters.HighPass: requires a non-empty buffer, because the class's result for an empty one is not a list. That case is stated by `Filters.HighPassArray`.
- EnvelopeFollower.EnvelopeNonnegative, EnvelopeBelowPeak, EnvelopeBelowMax and EnvelopeNeverFallsWithoutDecay: these bounds are stated only for parameters in the ranges they name. The class accepts any floats, and for `resp` or `damp` outside those ranges the envelope can overshoot or go negative.
