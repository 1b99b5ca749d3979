# Formal model of the Marvin controller stack

This project models, in Dafny, the parts of the repository whose correctness is hard to see by
reading one function, and proves what they promise. Every module holds a specification written as
pure functions, imperative code in the shape of the source (classes with the source's fields, loops
where the source loops) proved against those functions, and theorems about the functions.

| file | models |
|---|---|
| `Words` (with `Bytes`), `Wrappers` | bytes and machine words, C's remainder and exclusive-or on integers, `Option`/`Result` |
| `Layers`, `Kernels` | the int8 network as a dense causal convolution over a whole scan sequence; its arithmetic step by step with int32/int64 bounds |
| `NetworkMeaning` | the same network spelled out as sums, roundings and clamps |
| `StreamEngine` | `model_infer_stream.c`: three rings of cached columns |
| `WindowEngine` | `model_infer.c`: the 85-scan window evaluated only at needed positions |
| `HostReference` | `quantize.py`: weights as nested lists, zero-padded copies, tap-major sums, flattening |
| `Equivalence` | the theorems tying the three engines together |
| `StrumPulse` | the strum one-shot, as firmware timers and as the list function of `metrics.py` |
| `Fletcher`, `Framing`, `FramingTheorems`, `WireFormat` | the perf-log checksum, encoder and resynchronising parser, and the format byte by byte |
| `Actuator`, `StrumSafety`, `InputHistory`, `FretHolding`, `ChordTiming` | the strum scheduler, what it guarantees over whole runs, and its frets, chords and pulses from the list of inputs alone |
| `CommandLink` | the command channels of `t1s_detector.c` |
| `SampleQueue` | the interrupt-to-main ring of `main.c` |
| `NavGraph`, `SimGame`, `Navigator`, `PracticeRun`, `GotoPlan` | menu routing, the simulated menu, the controller, and the closed loop of the two, for a practice run and for going to any screen |
| `Snapshot` | reassembly of screen bands |
| `DigitSegments`, `CoverageGrid` | digit segmentation and the integer coverage core of `score.py` |
| `MarvinLink` | the UART frame sender, CRC-8 and byte-fed parser of fauxmote |
| `Extension`, `CipherMeaning` | register reads and writes of the Wiimote extension and its cipher handshake, and the cipher bit by bit |

The main results, hardest first.

* **Three engines, one network.** The ring-cached stream, the sparse window evaluation and the host's
  padded convolution compute the same bits (`Equivalence.StreamRefinesRecompute`,
  `WindowEngine.WindowEngine.Run`, `HostReference.IntSimWindow`, `Equivalence.StreamMatchesHost`), and
  the stream forgets any earlier state after one receptive field (`Equivalence.SelfStabilises`). What they
  compute is spelled out in `NetworkMeaning.ActMeans`, `NetworkMeaning.RequantMeans` and
  `NetworkMeaning.VerdictMeans`.
* **The framer is chunk-blind, loses no byte and misses no record** (`FramingTheorems.AnyTwoChunkings`,
  `FramingTheorems.StreamAccounted`, `WireFormat.NothingMissed`), and brings back exactly the payloads whose
  length it accepts (`FramingTheorems.RoundTrip`, `FramingTheorems.LoneFrame`).
* **Every strum finds its own chord fretted** for every paced run (`StrumSafety.StrumRunsAreSafe`), and
  for every tick spacing exactly when the last fretted chord is the strummed one
  (`StrumSafety.OwnFretsExactly`). A fret is held exactly while its key is down, a queued chord needs it or
  the delay since its release runs (`FretHolding.FretsExactly`).
* **The latest command is the one delivered** (`CommandLink.DeliversLatest`), and a disarmed node releases
  once and then is silent, over all interleavings (`CommandLink.DisarmSendsOneRelease`,
  `CommandLink.DisarmedGoesSilent`).
* **The navigator chooses what was asked** exactly when the song exists, the cursors are within reach
  and a misfire skips no choice (`PracticeRun.ChoosesAsRequested`), and goes from any screen to any other
  exactly when the routing tables have a walk there (`GotoPlan.Goto`).
* **The sample queue** delivers every scan untorn and in order (`SampleQueue.QueueDeliversInOrder`), and
  what one push too many does is stated exactly.

Some promises hold only in part; each has its exact condition here, or a named failing input:

* The encoder accepts payloads under 16 and over 65028 bytes, the parser yields neither (`FramingTheorems.LoneFrame`).
* The recompute engine waits for 85 scans even when the model's receptive field is shorter, the
  streaming engine does not; their bytes agree throughout a run exactly when the network is silent on
  every prefix that fills the receptive field but not the window (`Equivalence.EnginesAgreeExactly`,
  and `Equivalence.EnginesDisagree` for a run that returns 63 against 0).
* Without a refractory sample two strums can fuse into one long pulse (`StrumPulse.PulseLength`, `StrumPulse.FusedPulses`).
* Ticks more than a pulse apart while a strum is queued let it sound on the next chord's frets
  (`StrumSafety.OwnFretsExactly`, and `StrumSafety.SlowTicksMisfret` for a run from power-up).
* A fret whose key was tapped between two ticks, so that only its counter tells, is never released: it stays
  until another chord or a disable (`FretHolding.TappedStays`). With a chord window longer than the strum delay
  a release can be spent while the chord is still open, and the fret stays too (`FretHolding.LongWindowHolds`).
  Without such taps and with a window up to the delay it never happens (`FretHolding.FretsExactly`).
* Told to go to the loading screen from the loading screen, the navigator gives up, since the game has left it by
  the first look; every other walk in the tables is completed (`GotoPlan.Goto`).
* The navigator's selection moves stop after 64 rows, so a longer way to the song or section is not
  completed (`PracticeRun.ChoosesAsRequested`).
* A register write that starts below the key area and runs into it changes the key without the
  cipher following. The boxes being injective and the same candidate row answering, the cipher stays in
  step exactly when the bytes written over the key are the ones already there (`Extension.StaysSynced`);
  with the source's constants, 0 and 1 written from one byte below an all-zero key leave it behind
  (`Extension.RunInGoesStale`).
* A snapshot band of height 0 stops the walk from ending: it ends exactly when it comes to no such band
  (`Snapshot.WalkEnds`).

Time in the scheduler is `real`. Clocks, sends that the bus accepts or refuses, completions, detector
states and observed menus are parameters or steps of the environment.

## Model

| member | source | states |
|---|---|---|
| `Layers.RoundsHalfUp` | tools/edge-ai/edge_ai/quantize.py:70-72 | the requantisation shift is rounding to the nearest integer, halves upwards, negative values included: the result is y exactly when x lies in the half-open interval of width 2^shift centred on y * 2^shift |
| `Layers.RequantRange` | firmware/fretboard/model_infer_stream.c:129-132 | every requantised value lies in 0..127 |
| `Layers.ActRange` | firmware/fretboard/model_infer.c:126-148 | for all scans, every activation of every layer is symmetric int8, and never negative after the first convolution |
| `Layers.Causal` | tools/edge-ai/edge_ai/quantize.py:202-217 | later scans cannot change an earlier column of any layer |
| `Layers.Local` | firmware/fretboard/model_infer_stream.c:51-60 | a column of layer l depends on nothing further back than the sum of the dilated kernel reaches below it, so dropping older scans leaves it unchanged |
| `Layers.LastIsWindow` | firmware/fretboard/model_infer.c:150-200 | the verdict on a stream is the verdict on any tail covering the receptive field: no zero padding enters it |
| `NetworkMeaning.RequantMeans` | firmware/fretboard/model_infer_stream.c:129-132 | a non-positive accumulator gives 0; a positive one gives y below 127 exactly when acc * mult lies within half a step around y * 2^shift, and 127 exactly from 126.5 steps on |
| `NetworkMeaning.QuantMeans` | firmware/fretboard/model_infer_stream.c:136-158 | an input channel quantises to y strictly between -127 and 127 exactly when adc * m_in - b_in lies within half a step around it, and to the two limits exactly beyond them |
| `NetworkMeaning.ActMeans` | firmware/fretboard/model_infer_stream.c:101-134 | every activation of every layer is the requantised bias plus the sum over input channels and five taps, the oldest first and a dilation apart, of weight times activation below |
| `NetworkMeaning.VerdictMeans` | firmware/fretboard/model_infer_stream.c:170-206 | the byte has bit o for each fret whose logit reaches its threshold, and bit 5 when the one-shot fed the sixth says so |
| `Kernels.NoAccumulatorOverflow` | firmware/fretboard/model_infer_stream.c:117-128 | no partial sum of any neuron leaves int32, for biases within the stated bound |
| `Kernels.RequantFits64` | firmware/fretboard/model_infer_stream.c:129-132 | the 64-bit product and rounding term of the requantisation never overflow |
| `Kernels.RequantAcc` | firmware/fretboard/model_infer_stream.c:129-132 | ReLU, rounding shift and clamp give the requantised value that `NetworkMeaning.RequantMeans` characterises, in 0..127 |
| `Kernels.QuantScan` | firmware/fretboard/model_infer_stream.c:136-158 | the input affine of one scan yields, channel by channel, the value that `NetworkMeaning.QuantMeans` characterises |
| `Kernels.Head` | firmware/fretboard/model_infer_stream.c:170-183 | the head's loop yields the five fret bits as a mask and the raw strum bit |
| `WindowEngine.WindowEngine.Push` | firmware/fretboard/model_infer.c:113-121 | the ring read oldest first loses its oldest scan and gains the new one; the fill count saturates at 85 |
| `WindowEngine.WindowEngine.SetModel` | firmware/fretboard/model_infer.c:57-79 | back-propagation marks the last position of the top layer and, below every marked position, all its taps |
| `WindowEngine.WindowEngine.ConvAt` | firmware/fretboard/model_infer.c:126-148 | the column computed at a position is the causal dilated convolution of the row below it |
| `WindowEngine.WindowEngine.RunLayers` | firmware/fretboard/model_infer.c:172-184 | whatever the scratch arrays held before, the last top column equals the dense zero-padded network on the window: every activation read was written in this run |
| `WindowEngine.WindowEngine.Run` | firmware/fretboard/model_infer.c:150-223 | 0 until 85 scans are in; then mask and timers are those of the dense verdict on the window |
| `WindowEngine.StrumStep` | firmware/fretboard/model_infer.c:202-220 | the firmware timers advance as the one-shot specification says |
| `StreamEngine.StreamEngine.SetModel` | firmware/fretboard/model_infer_stream.c:51-60 | a swap replaces model and receptive field and leaves rings, heads, count and timers as they were; no model leaves the field too |
| `StreamEngine.StreamEngine.TapTable` | firmware/fretboard/model_infer_stream.c:101-116 | each tap's ring index is the slot that many steps behind the head, or -1 at or before the stream start |
| `StreamEngine.StreamEngine.ConvCol` | firmware/fretboard/model_infer_stream.c:101-134 | the column computed from the ring taps is the specified convolution and symmetric int8 |
| `StreamEngine.StreamEngine.StepScan` | firmware/fretboard/model_infer_stream.c:136-206 | one scan takes the whole engine state and the byte to those of the step function |
| `Equivalence.RingsHold` | firmware/fretboard/model_infer_stream.c:136-166 | throughout any run the three rings hold, newest first, the most recent columns of their layers |
| `Equivalence.CachedIsDense` | firmware/fretboard/model_infer_stream.c:101-166 | from the positions no leftover ring contents reach, every cached column is the dense network's |
| `Equivalence.Settled` | firmware/fretboard/model_infer_stream.c:136-206 | one receptive field into a run from any state, byte and timers are the dense verdict's |
| `Equivalence.SelfStabilises` | firmware/fretboard/main.c:111-134 | from any streaming state, after one receptive field of consecutive scans the byte is the dense verdict on those scans, whatever came before |
| `Equivalence.RecomputeVerdict` | firmware/fretboard/model_infer.c:113-223 | once 85 scans are in, the recompute engine judges exactly the last 85 |
| `Equivalence.RecomputeWaits` | firmware/fretboard/model_infer.c:150-171 | before 85 scans are in it returns 0 and leaves the timers alone |
| `Equivalence.PushThenRun` | firmware/fretboard/model_infer.c:113-223 | pushing a scan and running the recompute engine object is one step of the run function the theorems speak of |
| `Equivalence.EnginesAgreeAfterWindow` | firmware/fretboard/model_infer_stream.c:136-206 | whatever their histories, 85 scans later the engines' fret bits agree, and the whole byte and timers if their timers did |
| `Equivalence.StreamRefinesRecompute` | firmware/fretboard/model_infer_stream.c:136-206 | from initialisation, with a receptive field equal to the window, both engines return the same byte at every step of every run, warm-up zeros and one-shot included |
| `Equivalence.ShorterFieldSpeaksEarlier` | firmware/fretboard/model_infer_stream.c:168-171 | between its receptive field and 85 scans the streaming engine returns its verdict while the recompute engine returns 0 |
| `Equivalence.EnginesAgreeExactly` | firmware/fretboard/model_infer_stream.c:168-171 | from initialisation, for any receptive field up to the window, the engines return the same byte at every step of a run if and only if no output bit is set on any prefix that fills the field but not the window |
| `Equivalence.EnginesDisagree` | firmware/fretboard/model_infer_stream.c:168-171 | a model with a receptive field of 13 for which the thirteenth scan yields 63 against 0 |
| `Equivalence.RawStrumIsWindowed` | tools/edge-ai/edge_ai/quantize.py:220-238 | each raw strum of the stream is the host's strum bit for that 85-scan window |
| `Equivalence.TimersFollowRawStrums` | firmware/fretboard/model_infer_stream.c:185-203 | the streaming timers are those of the one-shot fed the host's raw strums |
| `Equivalence.StreamMatchesHost` | firmware/fretboard/model_infer_stream.c:136-206 | from row 84 on, the streamed byte is the dense verdict on the last 85 scans, its strum bit passed through the list one-shot over all rows so far |
| `HostReference.Flatten3At` | tools/edge-ai/edge_ai/quantize.py:360 | flattening keeps every weight: [o][i][k] is found at (o * cin + i) * K + k |
| `HostReference.EmitMeans` | tools/edge-ai/edge_ai/quantize.py:348-378 | every parameter of every layer is found in the emitted model where the engines read it |
| `HostReference.TapMajorIsChannelSum` | tools/edge-ai/edge_ai/quantize.py:208-214 | summing tap by tap over the padded copy equals the firmware's channel-by-channel sum over the flat array |
| `HostReference.ConvInt` | tools/edge-ai/edge_ai/quantize.py:202-217 | the padded tap-major convolution of a window is the dense causal convolution with the flattened weights |
| `HostReference.IntSimWindow` | tools/edge-ai/edge_ai/quantize.py:220-238 | for windows of any positive length, the host's six bits are those of the emitted model's dense network at the last time step |
| `StrumPulse.TimersInvariant` | firmware/fretboard/model_infer_stream.c:185-203 | after any input list the two deadlines and the previous level say exactly where the last pulse start was |
| `StrumPulse.OneShotMeaning` | firmware/fretboard/model_infer_stream.c:185-203 | the C timers emit exactly the hold-sample windows after each unblocked rising edge, for every list short of the tick wrap |
| `StrumPulse.NoHoldPassesThrough` | firmware/fretboard/model_infer_stream.c:185-203 | with hold 0 the bit passes straight through |
| `StrumPulse.Monostable` | tools/edge-ai/edge_ai/metrics.py:190-211 | the list function emits those same windows |
| `StrumPulse.BlockedByLast` | tools/edge-ai/edge_ai/metrics.py:190-211 | only the last pulse start can block a rising edge |
| `StrumPulse.StartsSpaced` | tools/edge-ai/edge_ai/metrics.py:190-211 | two accepted edges are at least hold + refractory samples apart; by `OneShotMeaning` and `Monostable` these edges are the starts of the emitted pulses |
| `StrumPulse.SustainedFiresOnce` | tools/edge-ai/edge_ai/metrics.py:190-211 | an input held high has at most one accepted edge, so starts at most one of the pulses `OneShotMeaning` and `Monostable` emit |
| `StrumPulse.RunBeginsAtStart` | tools/edge-ai/edge_ai/metrics.py:190-211 | every maximal output run begins at an accepted rising edge |
| `StrumPulse.PulseLength` | tools/edge-ai/edge_ai/metrics.py:190-211 | an untruncated pulse lasts hold samples if and only if no start falls on the sample it ends, which only refractory 0 allows |
| `StrumPulse.PulseExactlyHold` | tools/edge-ai/edge_ai/metrics.py:190-211 | with refractory of at least 1 every untruncated pulse lasts exactly hold samples |
| `StrumPulse.FusedPulses` | tools/edge-ai/edge_ai/metrics.py:190-211 | with refractory 0 two edges a pulse apart fuse into one pulse of exactly twice the length |
| `StrumPulse.RisingEdges` | tools/edge-ai/edge_ai/metrics.py:41-48 | exactly the rising edges, in order |
| `StrumPulse.RunsOfOnes` | tools/edge-ai/edge_ai/metrics.py:119-132 | exactly the maximal runs of ones, left to right |
| `Fletcher.Fletcher16` | tools/marvin-perf/marvin_perf/framing.py:27-39 | the two-sum loop computes the checksum function from any start value |
| `Fletcher.ClosedForm` | tools/marvin-perf/marvin_perf/framing.py:27-39 | the sums are the plain and the position-weighted sum modulo 255 from any start value, for data of any length |
| `Fletcher.ChecksumValue` | tools/marvin-perf/marvin_perf/framing.py:27-39 | the plain sum modulo 255 is the low byte, the position-weighted sum modulo 255 the high byte, and 0xFFFF the value of no data |
| `Fletcher.CheckOfDigits` | tools/marvin-perf/tests/test_framing.py:27 | the digits 1 to 9 check to 0x1EDE |
| `Fletcher.ChecksumInPortions` | tools/marvin-perf/marvin_perf/framing.py:27-39 | given as the start value, the checksum of a first portion yields the checksum of both |
| `Fletcher.OneByteChange` | tools/marvin-perf/marvin_perf/framing.py:27-39 | a one-byte change goes unseen exactly when it turns 0x00 into 0xFF or back |
| `Fletcher.Exchange` | tools/marvin-perf/marvin_perf/framing.py:27-39 | exchanging two bytes goes unseen exactly when 255 divides the product of difference and distance |
| `Framing.FrameReader.Pass` | tools/marvin-perf/marvin_perf/framing.py:103-163 | one pass of the inner loop shortens the buffer or stops, and what draining yields is this pass's frame followed by the rest |
| `Framing.FrameReader.FeedChunk` | tools/marvin-perf/marvin_perf/framing.py:96-163 | one chunk drains to exactly the specified frames, buffer and counters; the loop terminates |
| `FramingTheorems.ChunkingIrrelevant` | tools/marvin-perf/marvin_perf/framing.py:82-163 | any cutting of a stream gives the frames, skip counts, counters and leftover of feeding it whole |
| `FramingTheorems.AnyTwoChunkings` | tools/marvin-perf/marvin_perf/framing.py:82-163 | two ways of cutting the same stream are indistinguishable |
| `FramingTheorems.Conservation` | tools/marvin-perf/marvin_perf/framing.py:96-163 | every byte is inside exactly one yielded frame at its place, counted as skipped, or still buffered |
| `FramingTheorems.BytesConserved` | tools/marvin-perf/marvin_perf/framing.py:96-163 | bytes fed equal bytes yielded plus dropped plus buffered |
| `FramingTheorems.StreamAccounted` | tools/marvin-perf/marvin_perf/framing.py:82-163 | the same over a whole stream in any chunks, with the frame counter |
| `FramingTheorems.FramesReEncode` | tools/marvin-perf/marvin_perf/framing.py:138-163 | every yielded frame is the encoding of its payload, whose length is 16..65028 |
| `FramingTheorems.RoundTrip` | tools/marvin-perf/marvin_perf/framing.py:42-52 | payloads of 16..65028 bytes put through `frame_encode`, with SOF-free junk between, come back exactly, in order, with skips equal to the junk lengths, in any chunks |
| `FramingTheorems.LoneFrame` | tools/marvin-perf/marvin_perf/framing.py:42-52 | what `frame_encode` makes of a payload comes back on its own if and only if the payload's length is 16..65028 |
| `WireFormat.EncodedBytes` | tools/marvin-perf/marvin_perf/framing.py:42-52 | the record is 0x55 0x4D 0x52 0x56, the length low byte first, the payload, and the checksum of length and payload low byte first |
| `WireFormat.JudgedExactly` | tools/marvin-perf/marvin_perf/framing.py:120-148 | after the start bytes a record is accepted exactly when those equations hold with a length of 16..65028, and rejected exactly on a wrong length or a wrong sum |
| `WireFormat.HeadYields` | tools/marvin-perf/marvin_perf/framing.py:96-163 | a frame is yielded from the head of a buffer that begins with the start bytes if and only if a whole valid record begins there, and it is that record |
| `WireFormat.NothingMissed` | tools/marvin-perf/marvin_perf/framing.py:82-163 | in any chunks, no byte is dropped at which a record begins or could begin whatever bytes follow |
| `WireFormat.LeftoverWaits` | tools/marvin-perf/marvin_perf/framing.py:103-137 | what stays buffered is at most three bytes or the beginning of an incomplete record |
| `WireFormat.ErrorsCounted` | tools/marvin-perf/marvin_perf/framing.py:82-163 | the two error counters count exactly the dropped bytes at which a record with a wrong length, or a whole record with a wrong sum, begins |
| `Actuator.Actuator.SetEnabledFlag` | tools/fret-tuner/actuator.py:147-151 | disabling clears queues, frets, strum and output; enabling changes only the flag |
| `Actuator.Actuator.UpdateTick` | tools/fret-tuner/actuator.py:233-292 | one tick takes the whole state to that of the tick function and returns the output mask; `FretHolding` and `ChordTiming` say from the inputs what that is |
| `Actuator.Actuator.CommitChord` | tools/fret-tuner/actuator.py:302-322 | a commit queues the chord's note and strum, pushed back behind the last strum, or drops it on a full FIFO |
| `Actuator.Actuator.RunStrums` | tools/fret-tuner/actuator.py:341-351 | due strums are popped in order, each flipping the direction |
| `StrumSafety.TickKeepsReady` | tools/fret-tuner/actuator.py:273-291 | a tick leaves nothing overdue and both queues holding the same chords, each fretted before its strum, whatever the gap since the last tick |
| `StrumSafety.OwnFretsExactly` | tools/fret-tuner/actuator.py:324-351 | for any gap, the due chords are strummed in order, each on the last fretted chord's frets, so on its own exactly when those agree |
| `StrumSafety.StrumFindsItsFrets` | tools/fret-tuner/actuator.py:302-351 | a tick no more than a strum pulse after the previous one, or with no strum queued, fires at most one strum, on exactly its own frets |
| `StrumSafety.LateTickMisfrets` | tools/fret-tuner/actuator.py:324-351 | a tick that finds the first strum and the second chord's frets both due strums the first chord on the second's frets |
| `StrumSafety.SlowTicksMisfret` | tools/fret-tuner/actuator.py:233-391 | a run from power-up with the default timing (Green pressed, Red pressed 30 ms later, each committed, then no tick for 270 ms) that strums Green on Red's frets |
| `StrumSafety.LostOnlyWhenFull` | tools/fret-tuner/actuator.py:302-322 | a due chord is lost if and only if the strum FIFO is full |
| `StrumSafety.StrumRunsAreSafe` | tools/fret-tuner/actuator.py:233-391 | for every run whose clock jumps no more than a pulse while a strum is queued: every strum on its own frets, every queued chord strummed once in commit order or discarded by a disable or still queued, directions alternating |
| `InputHistory.EdgesAreHistory` | tools/fret-tuner/actuator.py:233-262 | the presses and releases a tick acts on are those of the input list: a counter that moved or a key that went down, a key that came up, against the latest tick while enabled |
| `FretHolding.FretsExactly` | tools/fret-tuner/actuator.py:266-391 | after every tick of a run with visible presses and a window up to the delay, a fret of the chord in place is kept if and only if its key is down, a queued chord needs it, or the delay since its latest release runs |
| `FretHolding.ReleasedGoes` | tools/fret-tuner/actuator.py:353-381 | a tick at least the delay after the latest release that finds the key up and no queued chord in need leaves the fret out and its bit out of the mask |
| `FretHolding.PressedStays` | tools/fret-tuner/actuator.py:353-381 | whatever happened before, a tick keeps every fret of the chord in place whose key is down |
| `FretHolding.TappedStays` | tools/fret-tuner/actuator.py:241-258 | a fret whose key no tick saw down is never released |
| `FretHolding.LongWindowHolds` | tools/fret-tuner/actuator.py:266-391 | for every timing with a window longer than the delay, a run that leaves a fret out though its key is up, its delay over and no chord in need |
| `FretHolding.DisableClears` | tools/fret-tuner/actuator.py:147-151 | a disable empties queues, frets, pulse, open chord and pending releases, and keeps the edge memory |
| `FretHolding.OutputBits` | tools/fret-tuner/actuator.py:28-35 | the mask has exactly the bits of the frets, and bit 5 or 6 for a strum down or up |
| `ChordTiming.ChordIsCollected` | tools/fret-tuner/actuator.py:259-264 | the open chord is exactly the set of channels pressed since the tick that opened it |
| `ChordTiming.CommitsCollected` | tools/fret-tuner/actuator.py:272-273 | a tick queues exactly that set, exactly when its window closes and neither FIFO holds 16 |
| `ChordTiming.CommitPlans` | tools/fret-tuner/actuator.py:302-322 | the strum is planned the delay after the commit, or a pulse and the early time after the last queued strum if that is later, and the frets the early time before it |
| `ChordTiming.PulseFollowsStrums` | tools/fret-tuner/actuator.py:275-291 | the strum output is on exactly from a tick that strums to the first tick a pulse later, or a disable |
| `CommandLink.T1SDetector.SetCommandMask` | firmware/fretboard/t1s_detector.c:511-539 | setting or gating the command follows the step function, which `CommandLink.FollowsLatest` and `CommandLink.CommandMarks` state from the events |
| `CommandLink.T1SDetector.ServiceCommands` | firmware/fretboard/t1s_detector.c:465-488 | a main pass refreshes and flushes both channels as the step function says |
| `CommandLink.T1SDetector.FlushCommand` | firmware/fretboard/t1s_detector.c:288-305 | a flush sends the current command when idle and clears the mark only if accepted |
| `CommandLink.T1SDetector.SendFauxmote` | firmware/fretboard/t1s_detector.c:312-329 | sent exactly when idle, short enough and accepted; the buffer in flight is never overwritten |
| `CommandLink.AlwaysCoherent` | firmware/fretboard/t1s_detector.c:243-348 | over all interleavings: a clean channel last sent the current command, a frame in flight keeps its buffer, a closed gate commands 0 |
| `CommandLink.DisarmedGoesSilent` | firmware/fretboard/t1s_detector.c:511-539 | with the gate closed each channel sends at most its pending release and then nothing |
| `CommandLink.DisarmSendsOneRelease` | firmware/fretboard/t1s_detector.c:511-539 | closing an open gate queues exactly one release on each channel, the last frame until re-arming |
| `CommandLink.PassDelivers` | firmware/fretboard/t1s_detector.c:465-488 | an accepted pass leaves the receiver with the current command, and a refusal on one channel does not touch the other |
| `CommandLink.FollowsLatest` | firmware/fretboard/t1s_detector.c:511-539 | over all event lists the gate is open exactly when the latest command is active, and the current command is then its low seven bits, otherwise 0 |
| `CommandLink.DeliversLatest` | firmware/fretboard/t1s_detector.c:465-488 | an accepted pass on a live bus leaves the idle receivers with [m] and [0x01, m, 0x10, 0] for the latest command m |
| `CommandLink.CommandMarks` | firmware/fretboard/t1s_detector.c:511-539 | a command marks both channels exactly when it opens or closes the gate or changes the mask |
| `CommandLink.PassSendsExactly` | firmware/fretboard/t1s_detector.c:465-488 | a channel sends in a pass exactly when the bus is up, the buffer idle, the frame accepted, and something pending or the last refresh 50 ms old; nothing else changes |
| `CommandLink.GuitarBusyExactly` | firmware/fretboard/t1s_detector.c:243-305 | the guitar channel is busy exactly from an accepted frame to its completion |
| `CommandLink.FauxmoteBusyExactly` | firmware/fretboard/t1s_detector.c:249-329 | so is the fauxmote channel |
| `CommandLink.SilentWithoutPlca` | firmware/fretboard/t1s_detector.c:465-488 | without PLCA nothing is sent on either channel |
| `SampleQueue.AdcQueue.Isr` | firmware/fretboard/main.c:53-63 | the scan lands whole in the slot of the write index, which then advances modulo 2^16 |
| `SampleQueue.WrapInvisible` | firmware/fretboard/main.c:53-63 | the slot of a free-running index is unaffected by its 16-bit wrap |
| `SampleQueue.PushKeepsFifo` | firmware/fretboard/main.c:53-63 | with at most 15 outstanding a push keeps every waiting sample intact in its slot |
| `SampleQueue.QueueDeliversInOrder` | firmware/fretboard/main.c:127-134 | with the interrupt between any two channel copies, if every push finds at most 15 outstanding, exactly the pushed samples are consumed, untorn, in order, across index wrap |
| `SampleQueue.RoundDelivers` | firmware/fretboard/main.c:127-134 | one uninterrupted round of the main loop with a sample waiting consumes exactly the oldest |
| `SampleQueue.CatchesUp` | firmware/fretboard/main.c:127-134 | after any such run the main loop left alone consumes everything the interrupt delivered, in order |
| `SampleQueue.IndicesCount` | firmware/fretboard/main.c:53-63 | the two indices are the numbers of samples pushed and consumed modulo 65536 |
| `SampleQueue.OverrunReplacesOldest` | firmware/fretboard/main.c:53-63 | with 16 outstanding a push leaves the oldest sample intact exactly when it repeats it |
| `SampleQueue.OverrunTearsCopy` | firmware/fretboard/main.c:127-134 | striking when any number k of channels has been copied, it makes the consumer see those k of the old scan and the rest of the new one |
| `NavGraph.ShortestPath` | tools/gameplay/gameplay/navgraph.py:138-174 | terminates on every finite graph; None exactly when the two tables have no walk to the goal, else a walk no other beats in length |
| `NavGraph.WalkStaysSeen` | tools/gameplay/gameplay/navgraph.py:147-174 | a walk within the explored distance never leaves the seen screens |
| `NavGraph.StepsExactly` | tools/gameplay/gameplay/navgraph.py:150-158 | what the search expands is exactly the table edges other than the song choice, and RED to the parent |
| `SimGame.Game.Send` | tools/gameplay/gameplay/simgame.py:83-98 | an input changes the simulated menu as the specification says, inputs during loading being ignored |
| `Navigator.NavController.Run` | tools/gameplay/gameplay/navigator.py:127-147 | the controller's loop against a game computes the outcome of the plan function and leaves the game in its final state |
| `PracticeRun.PracticeRunOutcome` | tools/gameplay/gameplay/navigator.py:80-96 | for every menu, cursor entry, optional screen and single misfire: the run ends in the song with the named choices, or gives up on a screen without parent |
| `PracticeRun.ChoosesAsRequested` | tools/gameplay/gameplay/navigator.py:127-191 | requested song, difficulty, top section and top speed are chosen if and only if the song exists, no cursor travels more than 64 rows, and the misfire skips no choosing screen |
| `PracticeRun.ShortListsAlwaysWork` | tools/gameplay/gameplay/simgame.py:57-138 | with at most 65 songs and sections and a misfire onto an earlier or equal plan screen the run always ends in the song as requested |
| `PracticeRun.Drive` | tools/gameplay/gameplay/navigator.py:127-191 | the controller object run against a fresh game from the main menu chooses as requested under exactly that condition |
| `PracticeRun.PlanRefuses` | tools/gameplay/gameplay/navigator.py:80-96 | a plan is made exactly for a listed difficulty and part |
| `PracticeRun.StuckExactly` | tools/gameplay/gameplay/navigator.py:138-147 | on a screen without step and parent the controller gives up after twelve attempts to back up, unless its iterations run out first |
| `PracticeRun.SelectionRefuses` | tools/gameplay/gameplay/navigator.py:150-162 | selecting an item fails exactly where the screen does not list it |
| `PracticeRun.WaitsExactly` | tools/gameplay/gameplay/navigator.py:186-191 | waiting succeeds exactly for a screen that is there or that loading leads to |
| `GotoPlan.EdgeHolds` | tools/gameplay/gameplay/navgraph.py:72-118 | every edge of the routing tables is true of the simulated game, whatever the cursor and list lengths |
| `GotoPlan.RouteIsShort` | tools/gameplay/gameplay/navgraph.py:138-174 | no shortest route has more than 13 steps, so the iterations always suffice |
| `GotoPlan.Goto` | tools/gameplay/gameplay/navigator.py:99-105 | planning and driving from any screen to any other arrives exactly when the tables have a walk there, the one exception being to stay on the loading screen |
| `Snapshot.SnapshotAssembler.AddStrip` | tools/marvin-perf/marvin_perf/snapshot.py:74-96 | adding a strip gives the specified answer and pending bands, wrong column and width reported as errors, for every strip on which the source's walk must end |
| `Snapshot.SnapshotAssembler.TryFinalize` | tools/marvin-perf/marvin_perf/snapshot.py:98-119 | the walk from the origin finalises exactly when it passes the last band |
| `Snapshot.WalkEnds` | tools/marvin-perf/marvin_perf/snapshot.py:101-106 | over any bands the walk ends if and only if it comes to no band of height 0 |
| `Snapshot.BandArrives` | tools/marvin-perf/marvin_perf/snapshot.py:74-119 | a band completes the region exactly when it is the last one missing, with the pixels top to bottom, and is filed otherwise |
| `Snapshot.AddFiles` | tools/marvin-perf/marvin_perf/snapshot.py:74-96 | another kind is ignored, another column or width rejected with its error, anything else filed under its epoch, and other epochs keep what they have |
| `Snapshot.OthersIgnored` | tools/marvin-perf/marvin_perf/snapshot.py:74-96 | strips of another kind, epoch or column, or of another width than the region's, never touch its bands |
| `Snapshot.CompletesExactlyWhenCovered` | tools/marvin-perf/marvin_perf/snapshot.py:74-119 | in every arrival order, with duplicates, foreign and rejected strips in between, the first answer comes exactly with the last missing band |
| `DigitSegments.Segment` | tools/gameplay/gameplay/score.py:209-223 | the scan returns solid runs in order, parted by more than min_gap empty columns, holding every inked column |
| `DigitSegments.SegmentationUnique` | tools/gameplay/gameplay/score.py:203-223 | no other list of runs meets that description |
| `DigitSegments.InkInOneRun` | tools/gameplay/gameplay/score.py:203-223 | every inked column lies in exactly one run |
| `DigitSegments.SegmentDigits` | tools/gameplay/gameplay/score.py:203-228 | the digits are that segmentation less its specks |
| `DigitSegments.DigitsExactly` | tools/gameplay/gameplay/score.py:224-228 | the digits are exactly the runs of the segmentation with enough width and ink, from left to right |
| `CoverageGrid.GainAndOffsetIrrelevant` | tools/gameplay/gameplay/score.py:198-200 | a positive gain and any offset on luma leave the ink mask unchanged |
| `CoverageGrid.ReadingUnchanged` | tools/gameplay/gameplay/score.py:188-223 | nor do they change the runs found in the columns or any coverage grid of the mask |
| `CoverageGrid.MaskMeans` | tools/gameplay/gameplay/score.py:198-200 | a pixel is inked exactly above the fraction num / den of the way from the least to the greatest value of the band |
| `CoverageGrid.EdgesTile` | tools/gameplay/gameplay/score.py:160-162 | grid edges run from 0 to the extent without turning back, and no two coincide if and only if the box is at least grid-sized |
| `CoverageGrid.CovGrid` | tools/gameplay/gameplay/score.py:165-185 | the loops fill the grid row-major with each cell's rounded coverage, zeros on an empty mask |
| `CoverageGrid.CoverageIsNearest` | tools/gameplay/gameplay/score.py:183-184 | every entry is 0..255 and its cell's share of ink to the nearest 255th |
| `CoverageGrid.EntryMeans` | tools/gameplay/gameplay/score.py:160-184 | an entry is the number of inked pixels of its cell in 255ths of the cell, to the nearest with halves upwards, the cell reaching from its rounded edge to the next and at least one pixel |
| `CoverageGrid.InkPreserved` | tools/gameplay/gameplay/score.py:175-184 | on a box at least grid-sized the ink of the cells adds up to the ink of the box |
| `CoverageGrid.PixelInOneCell` | tools/gameplay/gameplay/score.py:175-184 | and every pixel lies in exactly one cell |
| `MarvinLink.MfCrc8` | firmware/fauxmote/main/mf_proto.h:103-113 | the nested loop computes the CRC function |
| `MarvinLink.OneByteSeen` | firmware/fauxmote/main/mf_proto.h:103-113 | changing any one byte of any message changes its CRC |
| `MarvinLink.DivisibleExactly` | firmware/fauxmote/main/mf_proto.h:103-113 | a check byte fits exactly when the bits of the data followed by it are divisible by x^8 + x^2 + x + 1 |
| `MarvinLink.MfSend` | firmware/fauxmote/main/marvin_link.c:26-41 | the loop builds start byte, header, payload and CRC |
| `MarvinLink.FrameBytes` | firmware/fauxmote/main/marvin_link.c:26-41 | the frame is 0x7E, type, length, payload and a byte that makes all but the start divisible |
| `MarvinLink.LinkParser.Parse` | firmware/fauxmote/main/marvin_link.c:57-89 | one byte takes the parser to the state and delivery of the step function |
| `MarvinLink.RawParsed` | firmware/fauxmote/main/marvin_link.c:57-89 | a whole frame is delivered if and only if its CRC byte fits its contents, and either way the parser is back looking for a start byte |
| `MarvinLink.DeliversUnharmed` | firmware/fauxmote/main/marvin_link.c:57-89 | any sequence of messages with start-byte-free noise between them is delivered in order; a frame with one changed type, payload or CRC byte loses its own message and no other |
| `MarvinLink.DeliversOnlyFrames` | firmware/fauxmote/main/marvin_link.c:57-89 | whatever bytes arrive, a message is delivered only at the end of its own whole frame |
| `Extension.GenTables` | firmware/fauxmote/main/ext_crypto.c:196-238 | the scan finds the first answering row or the last one, and the sixteen entries follow from it |
| `CipherMeaning.RowIsFirst` | firmware/fauxmote/main/ext_crypto.c:196-220 | the row used is the first whose six answers all fit the key, or the last |
| `CipherMeaning.AnswerMeans` | firmware/fauxmote/main/ext_crypto.c:190-217 | an answer is an exclusive-or, a rotation, a subtraction modulo 256 and an exclusive-or, bit by bit |
| `CipherMeaning.EntriesMean` | firmware/fauxmote/main/ext_crypto.c:218-237 | every table entry has the bits in which two box entries differ, at the listed key bytes |
| `Extension.ExtCryptoEncrypt` | firmware/fauxmote/main/ext_crypto.c:240-246 | enciphers the first len bytes in place and no others |
| `CipherMeaning.EncryptMeans` | firmware/fauxmote/main/ext_crypto.c:240-246 | an enciphered byte is the plain one less one table entry modulo 256, exclusive-or the other, chosen by the address modulo 8 |
| `Extension.CipherRoundTrip` | firmware/fauxmote/main/ext_crypto.c:240-246 | the inverse cipher undoes it at any address and length |
| `Extension.ExtensionPort.WriteRegister` | firmware/fauxmote/main/wiimote.c:183-206 | a write stores what fits the bank and runs the key handshake, or is ignored outside the extension space |
| `CipherMeaning.FollowsWrites` | firmware/fauxmote/main/wiimote.c:183-206 | over all writes the cipher is armed and on exactly as the latest control and key writes say, and every bank byte is the latest one written there |
| `CipherMeaning.KeyWriteDerives` | firmware/fauxmote/main/wiimote.c:200-205 | a write that begins in the key area while armed leaves the tables of the key as it then stands |
| `Extension.ExtensionPort.ReadRegister` | firmware/fauxmote/main/wiimote.c:158-181 | the replies joined are the requested bytes up to the bank's end, in address order, 16 bytes each but the last, and zeros outside the extension space |
| `CipherMeaning.ReadMeans` | firmware/fauxmote/main/wiimote.c:158-181 | a read puts the bank from the start index to its end at most on the air, byte by byte, enciphered by address while the cipher is on |
| `CipherMeaning.CutsAreSixteen` | firmware/fauxmote/main/wiimote.c:158-181 | the replies carry 16 bytes each but the last, one after the other |
| `Extension.HostRecovers` | firmware/fauxmote/main/wiimote.c:158-181 | joining and deciphering the replies of any read gives the bank slice |
| `Extension.KeyInAnyOrder` | firmware/fauxmote/main/wiimote.c:194-205 | once armed, a key written in any pieces starting inside the key area, in any order and among other writes, leaves the cipher on the tables of the full key |
| `Extension.StaysSynced` | firmware/fauxmote/main/wiimote.c:194-205 | with injective boxes and an unchanged answering row, a write keeps a running cipher on the bank's key if and only if it starts in the key area, or it neither ends the cipher nor writes a different byte into the key |
| `Extension.HarmlessWrites` | firmware/fauxmote/main/wiimote.c:194-205 | for any boxes and rows, a write that starts in the key area, or that neither ends the cipher nor changes a key byte, keeps it on the bank's key |
| `Extension.RunInGoesStale` | firmware/fauxmote/main/wiimote.c:194-205 | with the source's constants and the cipher running on the all-zero key, the two bytes 0 and 1 written from one byte below the key area leave the tables on the old key |

## Left out

- Kernels.NoAccumulatorOverflow: biases are bounded as in `Layers.LayerOk`; the emitted headers are not checked against that bound.
- Equivalence.StreamRefinesRecompute: runs shorter than 2^32 scans only; the counters' wrap-around is not modelled in the run theorems.
- StreamEngine.StreamEngine.StepScan: a ring slot holds a whole column value, so the byte layout of the static arrays is not modelled.
- StrumPulse.Monostable: samples are booleans; the source tests integers for truth.
- Actuator.Actuator.UpdateTick: masks of frets are sets of channels and become bits on output; serial sending, threads and a change of timing during a run are not modelled.
- StrumSafety.StrumRunsAreSafe: stated where the strum is popped, since releases later in the same tick may clear a short press; timing is fixed over the run.
- CommandLink.T1SDetector.ServiceCommands: data frames, heartbeats, diagnostics, Ethernet headers and the TC6 library are not modelled.
- SampleQueue.AdcQueue.Isr: the interrupt is one atomic step for the main loop it preempts; the other work of the handler is not modelled.
- SimGame.Game.Send: the song-list key among the recorded choices and the trace strings are not kept.
- GotoPlan.Goto: without misfires.
- PracticeRun.ChoosesAsRequested: stated for any iteration budget of at least 28; the source's is 60, which `PracticeRun.Drive` uses.
- Snapshot.SnapshotAssembler.AddStrip: a strip of height 0 of the right kind and column is excluded, since a walk that comes to it never ends (`Snapshot.WalkEnds`).
- DigitSegments.SegmentDigits: takes the column ink sums as its input.
- MarvinLink.DeliversUnharmed: damage to the start or length byte can shift the parser into other frames and is not covered.
- Extension.GenTables: the constant boxes are parameters of the stated sizes; where a theorem needs it, their rows are injective, as each row of `k_sbox` lists all 256 values.
- Extension.StaysSynced: says nothing of a write from below the key area that also reaches the last key byte, which takes more than 16 bytes, nor of one after which another candidate row answers.
- Frame headers other than the ones above, EEPROM reads, report building and streaming of the Wiimote.
- `ancestors` and menu recognition from video.
- Training, calibration, float scales and the literal weights of the network.
- The streak reader and its tracker, template matching, chrome registration and glyph cropping of `score.py`.
- Drivers, GUIs, command-line tools, recording and image output.
