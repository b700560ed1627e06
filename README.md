# Chromatic tuner core in Dafny

This project models the computational core of a browser chromatic tuner. That core has three parts.

- **The pitch estimator** (`findFundamentalFrequency`) is a McLeod-style detector. It applies a silence gate on the RMS of the buffer and searches the lags between `floor(sampleRate/4200)` and `ceil(sampleRate/27)`. It fills a zero-initialised normalised square difference function (NSDF) array with nested loops and collects every strict local maximum together with the global maximum. It then selects the first peak that reaches 0.93 of that maximum, shifts the peak's lag by the interpolation step `(s0 − s2) / (2·(2·s1 − s2 − s0))`, and reports `sampleRate / lag` with the peak's height as the clarity. There is also the clarity gate of `processAudio`, which forwards a pitch only when its clarity exceeds 0.9.
- **The note mapper** (`frequencyToNote`) rounds the key number `12·log2(f/a4) + 49` to the nearest piano key. It rejects keys outside 1..88 and derives the note name, octave, the key's ideal frequency and the deviation in cents.
- **The display logic of the gauge** decides the in-tune test, the clamped needle angle, the three colour bands of the readout and of the needle, and the tick marks and labels drawn from −50 to +50 cents.

Files:

- Constants: `constants.dfy`, module `Constants`.
- Note mapper: `music_utils.dfy`, module `MusicUtils`.
- Pitch estimator and clarity gate: `pitch_detection.dfy`, module `PitchDetection`.
- Gauge logic: `tuner_display.dfy`, module `TunerDisplay`.
- An `Option` type: `wrappers.dfy`.

The estimator is imperative in the source, and so it is here:
- `ComputeNsdf` fills a fresh `array<real>` with the source's nested loops.
- `FindPeaks` appends to a sequence while tracking `globalMax`.
- `SelectPeak` leaves its loop at the first qualifying peak, as the source's `break` does.
- `RefinePeak` adjusts the lag in place.

Each of these methods is proved to compute a specification function: `Nsdf`, `Peaks` and `GlobalMax`, `FirstQualifying`, `RefinedLag`. `FindFundamentalFrequency` strings them together and is proved equal to `Estimate`. The lemmas about `Estimate` state what the source promises. The mapper and the display helpers are pure in the source, so they are functions and lemmas here. The tick loop is a method proved equal to `TickRun`; the counting lemmas are about `TickRun`.

Points of modelling:
- An out-of-range typed-array read yields `undefined` in JavaScript, and every comparison with it is false. This happens at `nsdf[-1]` when the shortest lag is 0, and past the end of the buffer. `IsPeak` therefore tests that both neighbours lie inside the array.
- An empty buffer has a NaN RMS, so the silence gate does not fire. It then yields no peaks and so no pitch.
- Lags just outside the search range keep the zero fill. The first and last lags of the range are therefore compared against 0 on one side (`SearchRangeEdges`).
- The interpolation step as written moves the lag away from the larger neighbour. Its shift is the vertex offset of the parabola through the three samples with the sign reversed, so the refined lag is the vertex mirrored about the integer peak (`RefinedLagMirrorsVertex`). `Estimate` follows the code as written; `VertexLag` is the vertex itself. See "Findings".
- The first lag of the range is compared with the zero fill below it. A buffer whose NSDF falls from lag 0 on can therefore get a peak at the first lag although its NSDF has no local maximum (`EdgeLagExample`). `IntendedPeaksOf` computes the neighbours too. See "Findings".
- The `better_tau <= 0` return is kept in both `FindFundamentalFrequency` and `Estimate`. `EstimateNoneIff` shows that it never decides the outcome, because at a strict local maximum the refined lag is always positive.

## Model

| member | source | states |
|---|---|---|
| Constants.NoteNamesShape | constants.ts:2 | the name table has twelve entries, "C" first, "A" at index 9 and "B" last |
| Constants.NoteNamesDistinct | constants.ts:2 | no two pitch classes share a name |
| Constants.SettingsInRange | constants.ts:1-5 | the clarity threshold lies in [0, 1], the default A4 and the gauge range are positive, and the piano has 88 keys |
| MusicUtils.Round | utils/musicUtils.ts:10 | Math.round returns the integer n with n − ½ ≤ x < n + ½ (halves round up) |
| MusicUtils.KeyNumber | utils/musicUtils.ts:9 | the reference frequency itself has key number 49 when log2(1) = 0 |
| MusicUtils.NearestKey | utils/musicUtils.ts:9-10 | the rounded key lies within half a key of the continuous key number 12·log2(f/a4) + 49 |
| MusicUtils.OnKeyboard | utils/musicUtils.ts:13 | the range check: a key is kept exactly when it lies in 1..88 |
| MusicUtils.PitchClass | utils/musicUtils.ts:20 | the note index of a key on the keyboard is a valid index into the name table |
| MusicUtils.Octave | utils/musicUtils.ts:21 | the octave of a key is at most 8, and key + 8 = 12·octave + note index |
| MusicUtils.TargetFrequency | utils/musicUtils.ts:17 | a key's ideal frequency is positive for a positive reference, and is the reference for key 49 when 2⁰ = 1 |
| MusicUtils.FrequencyToNote | utils/musicUtils.ts:4-30 | null for a non-positive frequency; otherwise a note exactly when the nearest key is in 1..88, carrying that key's name, octave and ideal frequency and the measured frequency unchanged |
| MusicUtils.Landmarks | utils/musicUtils.ts:20-24 | key 49 is A4, key 1 is A0 and key 88 is C8 |
| MusicUtils.KeyStep | utils/musicUtils.ts:20-21 | one key up advances the note index by one modulo 12; the octave rises by one exactly when the index wraps from B to C |
| MusicUtils.NoteDeterminesKey | utils/musicUtils.ts:20-24 | the name and octave of a key determine the key |
| MusicUtils.ReferencePitchIsA4 | utils/musicUtils.ts:4-30 | the reference frequency itself maps to A4 with target a4 and 0 cents |
| MusicUtils.CentsWithinHalfSemitone | utils/musicUtils.ts:9-18 | the deviation of a returned note is 100 times the distance from the continuous key number to the chosen key, so it lies in [−50, 50) cents |
| MusicUtils.KeyRoundTrip | utils/musicUtils.ts:9-28 | the ideal frequency of any key in 1..88 maps back to that key's name and octave, with itself as target and 0 cents |
| MusicUtils.SemitoneUp | utils/musicUtils.ts:9-10 | multiplying a frequency by 2^(1/12) raises its nearest key by exactly one |
| MusicUtils.ReferenceScaling | utils/musicUtils.ts:9-28 | scaling the frequency and the reference by the same factor keeps name, octave and cents and scales the target frequency |
| PitchDetection.SumOfSquares | hooks/usePitchDetection.ts:14 | the `reduce` sum of the squared samples, which is never negative |
| PitchDetection.Silent | hooks/usePitchDetection.ts:13-17 | the gate fires exactly when the buffer is non-empty and its mean square is below 0.01² |
| PitchDetection.ZeroBufferIsSilent | hooks/usePitchDetection.ts:14-17 | a non-empty buffer of zeros falls below the RMS gate |
| PitchDetection.MinPeriod | hooks/usePitchDetection.ts:23 | the shortest lag is the floor of sampleRate / 4200 |
| PitchDetection.MaxPeriod | hooks/usePitchDetection.ts:24 | the loop bound is the ceiling of sampleRate / 27, at least 1 |
| PitchDetection.SearchRangeNonEmpty | hooks/usePitchDetection.ts:23-26 | the search range always holds at least one lag |
| PitchDetection.Overlap | hooks/usePitchDetection.ts:29 | the inner loop runs over bufferSize − tau pairs, all inside the buffer, and over none once tau reaches the buffer size |
| PitchDetection.Acf | hooks/usePitchDetection.ts:27-30 | ac, the sum of buffer[i]·buffer[i + tau] over the first n pairs; bounded by AcfWithinEnergy and the energy at lag 0 by LagZeroSums |
| PitchDetection.Energy | hooks/usePitchDetection.ts:28-31 | m, the sum of buffer[i]² + buffer[i + tau]² over the same pairs |
| PitchDetection.LagZeroSums | hooks/usePitchDetection.ts:14-31 | at lag 0, ac is the sum of squares of the first n samples, as the RMS `reduce` computes it, and m is twice that |
| PitchDetection.AcfWithinEnergy | hooks/usePitchDetection.ts:29-32 | twice the accumulated autocorrelation is bounded in size by the accumulated energy m |
| PitchDetection.NsdfAt | hooks/usePitchDetection.ts:26-36 | the value 2·ac/m written for a lag (or the 0 kept when m is 0) lies in [−1, 1], and is 0 for a lag with no overlapping pairs |
| PitchDetection.Nsdf | hooks/usePitchDetection.ts:20-36 | the nsdf has one entry per sample, each in [−1, 1] |
| PitchDetection.NsdfShape | hooks/usePitchDetection.ts:20-36 | entries outside the search range stay 0; entries inside hold the lag's 2·ac/m value (0 when m = 0) |
| PitchDetection.ComputeNsdf | hooks/usePitchDetection.ts:20-36 | the nested loops leave the array equal to the nsdf of the buffer over the lags [minPeriod, maxPeriod) |
| PitchDetection.IsPeak | hooks/usePitchDetection.ts:44 | a lag is a peak only strictly above both neighbours, never at the first or last index, and never on a tie with a neighbour |
| PitchDetection.Peaks | hooks/usePitchDetection.ts:43-51 | at most one peak per lag of the range |
| PitchDetection.GlobalMax | hooks/usePitchDetection.ts:40-49 | globalMax is non-negative and no recorded peak exceeds it |
| PitchDetection.PeaksExactly | hooks/usePitchDetection.ts:43-46 | a peak is recorded exactly for each lag of the range that is a strict local maximum with both neighbours in the array, with its nsdf value |
| PitchDetection.PeaksAscending | hooks/usePitchDetection.ts:43-46 | peaks are recorded in strictly ascending lag order |
| PitchDetection.GlobalMaxOf | hooks/usePitchDetection.ts:40-49 | globalMax starts at 0 and never falls below it |
| PitchDetection.GlobalMaxAppend | hooks/usePitchDetection.ts:46-49 | pushing a peak raises globalMax to its value exactly when that value is larger |
| PitchDetection.GlobalMaxOfBounds | hooks/usePitchDetection.ts:40-49 | after n peaks, globalMax bounds each of them and is 0 or one of their values |
| PitchDetection.GlobalMaxIsMaximum | hooks/usePitchDetection.ts:40-49 | globalMax is 0 or the value of some peak, and 0 when there is no positive peak, so with GlobalMax's bound it is the largest peak value |
| PitchDetection.FindPeaks | hooks/usePitchDetection.ts:39-51 | the loop returns exactly the peaks of the nsdf over the search range and their globalMax |
| PitchDetection.FirstQualifying | hooks/usePitchDetection.ts:62-68 | none exactly when every peak is below the bound; otherwise the index of a peak reaching it before which none does |
| PitchDetection.SomePeakQualifies | hooks/usePitchDetection.ts:57-68 | when some peak is non-negative, a peak reaching 0.93·globalMax exists |
| PitchDetection.NegativePeaksNeverQualify | hooks/usePitchDetection.ts:40-73 | when every peak is negative, globalMax stays 0 and no peak qualifies |
| PitchDetection.SelectPeak | hooks/usePitchDetection.ts:57-68 | the selection loop returns the first peak reaching 0.93·globalMax, or −1 for position and value when none does |
| PitchDetection.RefinedLagNearPeak | hooks/usePitchDetection.ts:76-86 | at a strict local maximum the interpolation denominator is positive, and the refined lag, within half a sample of the peak by RefinedLag's contract, is positive |
| PitchDetection.Adjustment | hooks/usePitchDetection.ts:83 | the shift (s0 − s2)/(2·denominator): 0 when the neighbours are equal and, for a positive denominator, positive exactly when the left neighbour is the larger |
| PitchDetection.RefinedLag | hooks/usePitchDetection.ts:76-86 | at a strict local maximum the lag moves by less than half a sample |
| PitchDetection.RefinePeak | hooks/usePitchDetection.ts:76-86 | the interpolation step returns the lag shifted by (s0 − s2)/(2·(2·s1 − s2 − s0)) when both neighbours exist and the denominator is not 0, and the integer lag otherwise |
| PitchDetection.VertexLag | hooks/usePitchDetection.ts:81-84 | the intended refinement, the parabola's vertex: at a strict local maximum it lies within half a sample of the peak |
| PitchDetection.VertexOfParabola | hooks/usePitchDetection.ts:81-84 | when the three samples lie on a downward parabola, VertexLag is its vertex exactly |
| PitchDetection.VertexTowardLargerNeighbour | hooks/usePitchDetection.ts:81-84 | at a strict local maximum the vertex lies on the side of the larger neighbour, and at the peak when they are equal |
| PitchDetection.RefinedLagMirrorsVertex | hooks/usePitchDetection.ts:83-84 | as written, the refined lag is the vertex mirrored about the integer peak |
| PitchDetection.RefinedLagTowardSmallerNeighbour | hooks/usePitchDetection.ts:83-84 | as written, at a strict local maximum the refined lag moves toward the smaller neighbour |
| PitchDetection.MirroredVertexExample | hooks/usePitchDetection.ts:81-84 | for the samples 0, −0.69, 0.91, 0.51, 0 the peak at lag 2 refines to 1.7 while the vertex is at 2.3 |
| PitchDetection.SelectedPeak | hooks/usePitchDetection.ts:57-73 | the peak the selection loop picks for a buffer, if any, is one of its recorded peaks and reaches 0.93·globalMax |
| PitchDetection.Estimate | hooks/usePitchDetection.ts:12-96 | no pitch for a buffer below the RMS gate, and none when no peak is recorded |
| PitchDetection.FindFundamentalFrequency | hooks/usePitchDetection.ts:12-96 | the whole estimator returns exactly Estimate of the buffer and sample rate |
| PitchDetection.PeakOfRange | hooks/usePitchDetection.ts:43-46 | each recorded peak of a buffer is a strict local maximum of its nsdf inside the search range, with its nsdf value |
| PitchDetection.SearchRangeEdges | hooks/usePitchDetection.ts:20-44 | the entries just below and just above the search range are 0, so the first and last lags are peaks exactly when positive and above their inner neighbour |
| PitchDetection.EstimateNoneIff | hooks/usePitchDetection.ts:17-88 | no pitch exactly when the buffer is below the RMS gate or every peak is negative (including no peak at all) |
| PitchDetection.SelectedPeakNoneIff | hooks/usePitchDetection.ts:62-73 | no peak is selected exactly when every peak is below 0.93·globalMax |
| PitchDetection.SelectedPeakIsPeak | hooks/usePitchDetection.ts:43-68 | the selected peak is a recorded strict local maximum inside the search range with its nsdf value, which reaches 0.93·globalMax and lies in [0, 1] |
| PitchDetection.SelectedPeakIsFirst | hooks/usePitchDetection.ts:62-68 | no peak at a shorter lag than the selected one reaches 0.93·globalMax |
| PitchDetection.EstimateFromSelectedPeak | hooks/usePitchDetection.ts:76-95 | a pitch comes from a selected peak: its clarity is the peak's value before interpolation, its frequency is sampleRate over the refined lag, strictly between sampleRate/(pos + ½) and sampleRate/(pos − ½) |
| PitchDetection.ZeroBufferNoPitch | hooks/usePitchDetection.ts:13-55 | a buffer of zeros, the empty one included, yields no pitch |
| PitchDetection.Forwarded | hooks/usePitchDetection.ts:116-118 | a pitch is forwarded exactly when there is one and its clarity exceeds 0.9, and it is forwarded unchanged |
| PitchDetection.ProcessAudio | hooks/usePitchDetection.ts:111-118 | one frame hands on the estimate of its buffer exactly when it passes the clarity gate |
| PitchDetection.ForwardedPitchIsClear | hooks/usePitchDetection.ts:114-118 | a forwarded pitch has a positive frequency and a clarity in (0.9, 1] |
| PitchDetection.PeaksPastEnd | hooks/usePitchDetection.ts:43-51 | lags at or past the last index of the nsdf add no peaks |
| PitchDetection.StepSums | hooks/usePitchDetection.ts:29-32 | the autocorrelation and energy sums of the buffer 1, 1, 1, 1, 1, 1, 0 at each lag |
| PitchDetection.StepNsdf | hooks/usePitchDetection.ts:26-36 | the NSDF of that buffer falls from 1 at lag 0 through 10/11, 8/9, 6/7, 4/5, 2/3 to 0 |
| PitchDetection.StepNotSilent | hooks/usePitchDetection.ts:13-17 | that buffer passes the RMS gate |
| PitchDetection.StepPeaks | hooks/usePitchDetection.ts:20-51 | at 4200 Hz its search range starts at lag 1 and, as written, its only peak is lag 1 with value 10/11 |
| PitchDetection.StepSelected | hooks/usePitchDetection.ts:57-68 | that peak is the one selected |
| PitchDetection.StepRefinedLag | hooks/usePitchDetection.ts:76-86 | the interpolation step moves it to lag 12/23 |
| PitchDetection.EdgeLagExample | hooks/usePitchDetection.ts:20-44 | as written, a buffer whose NSDF at lag 0 exceeds the NSDF at lag 1 is still reported at 8050 Hz with clarity 10/11 and forwarded |
| PitchDetection.IntendedNsdf | hooks/usePitchDetection.ts:20-36 | the intended nsdf, computed one lag further on each side, has one entry per sample |
| PitchDetection.IntendedPeaksOf | hooks/usePitchDetection.ts:43-46 | the intended peaks compare each lag with the true NSDF of both neighbours |
| PitchDetection.IntendedPeaksAreLocalMaxima | hooks/usePitchDetection.ts:43-46 | an intended peak is recorded exactly for each lag of the range, inside the buffer, whose NSDF exceeds the NSDF at both neighbouring lags, with its NSDF value |
| PitchDetection.IntendedStepHasNoPeak | hooks/usePitchDetection.ts:43-46 | the falling buffer has no intended peak |
| TunerDisplay.Abs | components/TunerDisplay.tsx:32 | Math.abs is non-negative and equals x or −x |
| TunerDisplay.InTune | components/TunerDisplay.tsx:32 | in tune exactly when there is a note whose cents lie strictly within ±2 |
| TunerDisplay.Max | components/TunerDisplay.tsx:35 | Math.max is at least both arguments and is one of them |
| TunerDisplay.Min | components/TunerDisplay.tsx:35 | Math.min is at most both arguments and is one of them |
| TunerDisplay.CentsToDegrees | components/TunerDisplay.tsx:34-38 | the needle angle lies in [−75, 75], is 1.5 degrees per cent within ±50 cents and saturates at ±75 beyond |
| TunerDisplay.CentsToDegreesZero | components/TunerDisplay.tsx:34-38 | zero cents points the needle straight up |
| TunerDisplay.CentsToDegreesMonotone | components/TunerDisplay.tsx:34-38 | the angle never decreases as the cents increase |
| TunerDisplay.CentsToDegreesOdd | components/TunerDisplay.tsx:34-38 | equal deviations flat and sharp turn the needle equally far |
| TunerDisplay.Rotation | components/TunerDisplay.tsx:40 | the rotation is 0 without a note and the note's angle otherwise, always within the arc |
| TunerDisplay.BandOf | components/TunerDisplay.tsx:42-52 | green exactly below 2 cents off, yellow exactly from 2 to below 10, red exactly from 10 |
| TunerDisplay.ClassesTellBandsApart | components/TunerDisplay.tsx:42-52 | distinct bands get distinct text classes and distinct stroke classes |
| TunerDisplay.TextClass | components/TunerDisplay.tsx:43-45 | the readout's class for a band, "text-" followed by the band's colour |
| TunerDisplay.StrokeClass | components/TunerDisplay.tsx:49-51 | the needle's class for a band, "stroke-" followed by the same colour as the band's text class |
| TunerDisplay.CentsColor | components/TunerDisplay.tsx:42-46 | the readout's text class is that of the band of the cents: green exactly below 2, yellow exactly from 2 to below 10, red exactly from 10 |
| TunerDisplay.NeedleColor | components/TunerDisplay.tsx:48-52 | the needle's stroke class is that of the same band |
| TunerDisplay.NeedleColorClass | components/TunerDisplay.tsx:54 | gray exactly when there is no note, otherwise the band of the note's cents |
| TunerDisplay.NeedleMatchesReadout | components/TunerDisplay.tsx:42-52 | the readout shows a band's text class exactly when the needle shows that band's stroke class |
| TunerDisplay.InTuneIsGreen | components/TunerDisplay.tsx:32-54 | in tune exactly when there is a note whose readout is green, and exactly when the needle is green |
| TunerDisplay.Ticks | components/TunerDisplay.tsx:56-110 | the loop pushes, for each cent from −50 to 50 in turn, its line and, on a multiple of 10, its label |
| TunerDisplay.LineCentsAppend | components/TunerDisplay.tsx:72-91 | the tick lines of two runs of pushes are those of the first followed by those of the second |
| TunerDisplay.LabelCentsAppend | components/TunerDisplay.tsx:72-91 | the same for the labels |
| TunerDisplay.IsMajor | components/TunerDisplay.tsx:61 | a tick is major exactly when its cents are a multiple of 10 |
| TunerDisplay.TickAt | components/TunerDisplay.tsx:61-107 | one turn pushes a line for its cents, major on a multiple of 10, followed on a multiple of 10 by its label |
| TunerDisplay.TickRun | components/TunerDisplay.tsx:60-107 | a run of turns pushes one item per cent plus one per multiple of 10 among its cents |
| TunerDisplay.TickAtCents | components/TunerDisplay.tsx:61-107 | one turn draws one line and labels it exactly when it is a multiple of 10 |
| TunerDisplay.MultiplesOfTenStep | components/TunerDisplay.tsx:61 | counting multiples of 10: one more exactly when stepping past one |
| TunerDisplay.TickRunLines | components/TunerDisplay.tsx:60-83 | a run of the loop draws one line per cent, in ascending order |
| TunerDisplay.TickRunLabels | components/TunerDisplay.tsx:60-107 | a run of the loop labels exactly the multiples of 10 among its cents |
| TunerDisplay.TickRunLabelCount | components/TunerDisplay.tsx:60-107 | the number of labels is the number of multiples of 10 among its cents |
| TunerDisplay.GaugeTicks | components/TunerDisplay.tsx:60-107 | the gauge has 101 lines for −50..50 cents and exactly 11 labels, at the multiples of 10: 112 pushes in all |
| TunerDisplay.OnlyCentreGlows | components/TunerDisplay.tsx:80 | a tick line glows exactly when it is the 0-cent tick and the note is in tune |

## Left out

- The audio capture lifecycle of hooks/usePitchDetection.ts:99-177 is browser I/O and scheduling, so it is left out. That covers `getUserMedia`, the `AudioContext` and analyser node, `requestAnimationFrame`, async start and stop, and the React state. `ProcessAudio` takes the captured buffer and the sample rate as parameters. It returns the forwarded pitch instead of calling the callback.
- service-worker.js, App.tsx, components/Controls.tsx and components/FrequencyControl.tsx are not part of this model. They are cache and network I/O, React wiring and input widgets, including the `toFixed` rounding of the reference-frequency steps.
- The SVG geometry of components/TunerDisplay.tsx is trigonometry and rendering, so it is left out: the arc path, the tick and label coordinates, the tick lengths and widths, the label styling and the JSX. The name's colour class at components/TunerDisplay.tsx:119 and the glow filter are left out too.
- Floating point: samples, the nsdf and every quantity are exact reals. The source stores the nsdf in a Float32Array and computes in IEEE-754 doubles. Rounding, NaN and infinities are not modelled, apart from the NaN RMS of an empty buffer and the `undefined` out-of-range reads described above. The numerical accuracy claims on sine inputs are not stated.
- PitchDetection.Silent: the square root is replaced by the equivalent comparison of the mean square with 0.01², taken as exactly 0.0001.
- MusicUtils.FrequencyToNote: Math.log2 and Math.pow(2, ·) are parameters, not computed. The lemmas that need their algebra require the laws in `Lawful` (2⁰ = 1, log2 inverts 2^y, and the product rule). Math.round is modelled exactly.
- MusicUtils.FrequencyToNote: it requires a positive reference frequency, so two cases of the source are not modelled. With a reference of exactly 0 the key number is +Infinity, the range check at utils/musicUtils.ts:13 rejects it, and the result is null; the −1 step of components/FrequencyControl.tsx:18 can bring the reference to 0. With a negative reference log2 gives NaN, the range check lets it through, and the result is a record with the measured frequency, an undefined name, and NaN octave, target frequency and cents.
- PitchDetection.FindFundamentalFrequency: it requires a positive sample rate, as an audio context always provides. A non-positive one is not modelled.
- TunerDisplay.Abs: NaN arguments to Math.abs, Math.max and Math.min are not modelled.

## Findings

| source | as written | input that shows it | evidently intended | confidence | as-written member | corrected member |
|---|---|---|---|---|---|---|
| hooks/usePitchDetection.ts:83 | the shift (s0 − s2)/(2·(2·s1 − s2 − s0)) moves the lag toward the smaller neighbour, mirroring the parabola's vertex about the peak | nsdf 0, −0.69, 0.91, 0.51, 0 with the peak at lag 2: the lag becomes 1.7, the vertex is at 2.3 | the vertex shift (s2 − s0)/(2·(2·s1 − s2 − s0)) | not executed | PitchDetection.RefinedLagMirrorsVertex | PitchDetection.VertexOfParabola |
| hooks/usePitchDetection.ts:20-44 | the lag just below the range keeps the zero fill, so the first lag of the range is compared with 0 rather than with its NSDF | buffer 1, 1, 1, 1, 1, 1, 0 at 4200 Hz: NSDF 1 at lag 0 and 10/11 at lag 1, yet lag 1 is a peak and 8050 Hz is reported with clarity 10/11 | compare the first and last lags with the NSDF of their true neighbours | not executed | PitchDetection.EdgeLagExample | PitchDetection.IntendedPeaksAreLocalMaxima |

`Estimate` and `FindFundamentalFrequency` follow the code as written in both cases. `MirroredVertexExample` and `VertexTowardLargerNeighbour` complete the first row, and `IntendedStepHasNoPeak` the second.
