# Verified model of the sonar board and its desktop host

This project models the control software of a sonar board (firmware and one RTL block) together with the
desktop programs that talk to it, and proves what the parts promise each other.

- **PDM decimator** (`Sums`, `Bits`, `FirCascade`, `PdmDecimator`). The production converter, with its
  transposed bits, eight-tap lookup table, padded first stage and folded second stage, is a class over
  arrays; every sample it writes equals the direct-form sum of the two convolved responses over the
  zero-extended +1/-1 stream. The coefficient tables are arbitrary symmetric tables that satisfy the two
  bounds the source asserts at compile time.
- **Waveform upload** (`WavSamples`, `WavFormat`, `WaveformParser`, `TxBram`, `WaveformUpload`, `Crc32`,
  `LittleEndian`). The board's byte-at-a-time RIFF parser, which writes playback memory while it parses,
  accepts exactly the files the host's whole-file check accepts, and the memory history is an invariant.
- **Capture delivery** (`FramePool`, `HostStore`, `CaptureDelivery`, `WireRecord`). The capture task, the
  sender, a connection that can be cut anywhere and the host with its files form one state machine;
  `DeliveryProgress` shows that it never gets stuck.
  `Publication` proves that each iteration of the experiment task below is a sequence of that machine's steps.
- **Scan sequencer** (`Scan360`, `TxControl`, `Microphone`, `ScanSequencer`, `ScanSafety`, `ScanRuns`, `ScanStarts`,
  `ScanHealth`, `ScanProgress`, `ScanExamples`, `ScanCompletes`, `ExperimentTask`). One iteration of the experiment task is a function of the state and of everything the
  hardware, the clock, the console and the sender contribute; `ExperimentTask` is the same iteration on
  fields updated in place. The classes `Transmitter`, `Capture` and `Coordinator` follow their functions call by
  call; what those functions promise is stated by the lemmas.
- **Configuration service** (`AudioLimits`, `ExperimentConfig`, `Identity`, `ControlService`), built on the uploader and
  the transmitter state.
- **Console** (`ConsoleBuffer`, `ConsoleFrames`, `ConsoleLog`, `ConsoleServer`). Ring buffer, packets and
  decoder together against positions in an unbounded log.
- **Chirp, codec and desktop handshake** (`ChirpGenerator`, `CodecBus`, `CodecService`,
  `ExperimentControl`).

Hardware results, clocks, console keys, console lines and the peer's behaviour are inputs of each step. A
few datatype fields and the ghost fields of the classes are history variables; nothing branches on them.
The standards involved are IEEE 754-2019 section 3.4 (binary32) and RFC 1952 section 8 (CRC-32).

## Where the code does less than it says

- *A fault publishes the capture it interrupted.* The comment above the publishing block says that a stop
  discards the capture it interrupts (`firmware/src/sonar_experiment_coordinator.c:456-457`). A fault stops
  the outputs in the same way, but the block looks only at `stopping`, and an aborted transmission counts as
  done; so a capture that was complete when the cycle failed is published in the next iteration although its
  speaker was muted. `FaultPublishesInterruptedCapture` is a sequence of three iterations that does it;
  `PublishedAfterTransmission` says that it happens exactly when the cycle is in FAULT.
- *A scan started right after a stop need not wait for the motor.* The settling time is kept within a scan
  only. A stop succeeds only with the motor read at zero velocity, so no scan begins with a moving motor; but a
  scan stopped in mid-move, or while settling, and started again captures at once.
  `CaptureRightAfterHalt` and `CaptureWithoutSettling` are such runs, a millisecond after the halt and after the
  arrival; `EveryCaptureIsSettledExactly` says exactly when a capture of any scan is settled.
- *After a gap the decoder drops one line too many.* When a gap ends exactly where a line begins, that line
  is discarded as if it were damaged, and the reported number of bytes does not cover it.
  `IntactLineIsDropped` is such a log; `IntactLineIsMissingOnlyAfterAGap` gives the exact condition.
- *Checks that never fail.* The upper sample limit, the step range and the final duration check of the
  chirp calculation reject nothing (`AcceptedExactly`), and the waveform comparison in the start condition
  is implied by the valid flag (`ValidImpliesCurrentWaveform`).

## Model
| member | source | states |
|---|---|---|
| FirCascade.CascadeIsDirect | firmware/src/sonar_pdm_decimator.c:69-130 | two 5-fold decimating stages over any stream give the same value as one direct filter whose response is h1 convolved with h2 upsampled by 5, edges included |
| FirCascade.EffectiveSymmetric | firmware/src/sonar_pdm_decimator.c:213-215 | the combined response is symmetric, so half a table suffices for the reference |
| FirCascade.Stage1PartialBound | firmware/src/sonar_pdm_decimator.c:23-24 | every partial first-stage sum stays within the L1 norm of the first table |
| FirCascade.EffectiveMagnitude | firmware/src/sonar_pdm_decimator.c:25-26 | the combined response has an L1 norm of at most the product of the two norms |
| FirCascade.DirectPartialBound | firmware/src/sonar_pdm_decimator.c:208-219 | every partial sum of the direct form stays within the product of the L1 norms |
| FirCascade.FoldedIsSum | firmware/src/sonar_pdm_decimator.c:113-128 | adding symmetric samples before multiplying gives the full second-stage sum |
| FirCascade.FoldedBound | firmware/src/sonar_pdm_decimator.c:25-26 | every partial folded accumulation is bounded by the largest input times the L1 norm |
| FirCascade.FoldStep | firmware/src/sonar_pdm_decimator.c:117-120 | with the stated head-room a folded pair fits 32 bits and the accumulation with its rounding term fits 64 |
| FirCascade.Pcm16IsNearestSaturated | firmware/src/sonar_pdm_decimator.c:100-111 | the final conversion is the nearest integer, ties away from zero, clamped to 16 bits, for any such integer |
| FirCascade.NearestAwayExists | firmware/src/sonar_pdm_decimator.c:100-111 | such a nearest integer exists for every accumulator value |
| PdmDecimator.InstantBit | firmware/src/sonar_pdm_decimator.c:56-60 | of a word of the recording the code reads, at each instant, the two bytes of that instant: channel c is bit c mod 8 of byte 2 i + c / 8 |
| PdmDecimator.LutPartialBound | firmware/src/sonar_pdm_decimator.c:41-54 | every partial sum while a lookup entry is built stays within the L1 norm |
| PdmDecimator.LutStep | firmware/src/sonar_pdm_decimator.c:46-49 | adding one signed tap keeps the entry within 32 bits and matches the bit that selects the sign |
| PdmDecimator.LutIsTerms | firmware/src/sonar_pdm_decimator.c:69-78 | an entry looked up with eight stream bits equals the eight products of the direct first stage |
| PdmDecimator.Decimator.BuildLut | firmware/src/sonar_pdm_decimator.c:41-54 | every entry of the table is the signed sum of its eight taps |
| PdmDecimator.Decimator.Transpose | firmware/src/sonar_pdm_decimator.c:176-181 | bit i of the channel buffer is the channel's bit of instant i, and zero beyond the samples |
| PdmDecimator.Decimator.Window | firmware/src/sonar_pdm_decimator.c:62-67 | the eight bits read across a word boundary are the eight consecutive channel bits |
| PdmDecimator.Decimator.Stage1Sample | firmware/src/sonar_pdm_decimator.c:69-90 | lookup path and edge path both give the direct first-stage sum over the zero-extended stream |
| PdmDecimator.Decimator.FillIntermediate | firmware/src/sonar_pdm_decimator.c:173-187 | the padded buffer holds the first-stage outputs including the tails outside the capture |
| PdmDecimator.Decimator.Stage2Sample | firmware/src/sonar_pdm_decimator.c:113-130 | both second-stage paths give the direct-form 16-bit sample |
| PdmDecimator.Decimator.ToPcm16Interleaved | firmware/src/sonar_pdm_decimator.c:147-195 | accepted exactly for the lengths and capacity the source allows; then every channel and frame of the output is the direct-form sample |
| PdmDecimator.ReferenceSample | firmware/src/sonar_pdm_decimator.c:201-221 | the reference routine returns the direct-form sample for any table that holds the combined response |
| WavSamples.FloatDecodeIsTruncation | firmware/src/sonar_waveform_upload.c:70-85 | for every binary32 pattern: rejected exactly for NaN and infinity, otherwise x*32768 truncated toward zero and saturated |
| WavSamples.FloatSampleMeaning | firmware/src/sonar_waveform_upload.c:66-85 | four bytes of a float sample are rejected exactly for an infinity or a NaN, and otherwise decode to the real number they denote times 32768, truncated toward zero and saturated |
| WavSamples.OneInteger | firmware/src/sonar_waveform_upload.c:88-92 | a pattern stands for one integer in two's complement |
| WavSamples.PcmSampleMeaning | firmware/src/sonar_waveform_upload.c:86-94 | of the integer an 8-, 16-, 24- or 32-bit sample stands for, 16 bits remain, truncated toward zero |
| WavSamples.SampleRange | firmware/src/sonar_waveform_upload.c:64-96 | every decoded sample fits 16 bits |
| WavSamples.MixIsTheMean | firmware/src/sonar_waveform_upload.c:97-107 | mixing fails exactly when a channel does; otherwise it is the mean truncated toward zero, which fits 16 bits, so the narrowing casts lose nothing |
| WavSamples.MixFramesFailure | gui/host/sonar_wav_format.py:57-60 | converting the frames fails exactly when a float word is NaN or infinite |
| WavFormat.InspectWav | gui/host/sonar_wav_format.py:13-65 | the scanning loop computes the recursive definition of acceptance, with the sample count |
| WavFormat.FrameLimitIsTime | gui/host/sonar_wav_format.py:50-55 | the limit is 49 milliseconds of frames at the file's own rate, and what the memory holds |
| WavFormat.AcceptedRates | gui/host/sonar_wav_format.py:28-46 | formats are accepted at 8 to 192 kHz, at the rate demanded, and with a consistent byte rate |
| WaveformParser.RunInPieces | firmware/src/sonar_waveform_upload.c:225-232 | parsing a block after a block is parsing both at once |
| WaveformParser.FormatsAgree | firmware/src/sonar_waveform_upload.c:37-63 | the board's format check and the host's agree for 96 kHz |
| WaveformParser.AudioAgrees | firmware/src/sonar_waveform_upload.c:153-159 | the board's data check, with frame conversion, and the host's agree |
| WaveformParser.ChunksAgree | gui/host/sonar_wav_format.py:20-60 | from any chunk boundary the byte machine completes exactly when the host's loop accepts the rest |
| WaveformParser.StreamingIsInspection | firmware/src/sonar_waveform_upload.c:122-201 | for every file the byte machine ends complete exactly when the host's check accepts it, with the same frames converted |
| TxBram.ScalingRounds | firmware/src/sonar_tx_bram.c:70-73 | the played sample is the percentage of the original rounded to nearest, ties away from zero, never louder and exact at 100 percent |
| TxBram.Bram.Write | firmware/src/sonar_tx_bram.c:46-59 | writes both halves of one pair when idle, and nothing else |
| TxBram.Bram.SetGain | firmware/src/sonar_tx_bram.c:61-77 | rewrites every lower half from its own upper half and leaves all upper halves |
| WaveformUpload.Uploader.EmitFrame | firmware/src/sonar_waveform_upload.c:97-121 | a frame becomes one more converted sample, counted, summed and stored in pairs, or the upload fails |
| WaveformUpload.Uploader.Feed | firmware/src/sonar_waveform_upload.c:122-201 | the in-place parser step refines the value-level parser and keeps what was converted in memory |
| WaveformUpload.Uploader.Begin | firmware/src/sonar_waveform_upload.c:202-218 | a new upload invalidates the current waveform before anything is overwritten; a refusal changes nothing |
| WaveformUpload.Uploader.Append | firmware/src/sonar_waveform_upload.c:219-234 | succeeds exactly for the next block of a running upload that parses, whatever the playback-idle check answers for each pair of samples; history and ids stay |
| WaveformUpload.Uploader.Commit | firmware/src/sonar_waveform_upload.c:235-255 | succeeds exactly for a complete file with the announced checksum, under an id never used before, with the originals in memory and played at full amplitude |
| WaveformUpload.Uploader.Cancel | firmware/src/sonar_waveform_upload.c:256-260 | keeps the memory invariant of whatever waveform is current |
| WaveformUpload.Uploader.SetGain | firmware/src/sonar_tx_bram.c:61-77 | the waveform stays as committed; every played copy depends only on its original and the gain set last for it, as an invariant of all operations |
| WaveformUpload.Uploader.UploadFile | firmware/src/sonar_waveform_upload.c:202-255 | any split of a file into blocks is committed exactly when the host's check accepts it and the checksum matches, with equal sample counts, and is then played at full amplitude |
| Crc32.UpdateInPieces | firmware/src/sonar_frames.c:57-67 | checksumming in pieces equals checksumming at once |
| Crc32.CrcIsRemainder | firmware/src/sonar_frames.c:57-67 | bit for bit the checksum is the complement of the remainder when the message, its first 32 bits inverted, is divided by the generator polynomial of RFC 1952 |
| Crc32.Compute | firmware/src/sonar_frames.c:57-67 | the loop computes the fold used everywhere else |
| FramePool.Pool.Acquire | firmware/src/sonar_frames.c:3-12 | reserves the lowest free slot or none |
| FramePool.Pool.Publish | firmware/src/sonar_frames.c:13-21 | only a slot being filled becomes ready |
| FramePool.Pool.Take | firmware/src/sonar_frames.c:22-38 | takes the eligible frame with the smallest sequence, the first among equals |
| FramePool.Pool.Finish | firmware/src/sonar_frames.c:39-46 | a slot being sent is freed on acknowledgement and ready again otherwise |
| FramePool.Pool.Latest | firmware/src/sonar_frames.c:47-56 | the largest ready sequence, or zero |
| FramePool.OldestIsUnique | firmware/src/sonar_frames.c:22-38 | a batch has no choice of the next frame |
| HostStore.TestStore.Save | gui/host/sonar_test_store.py:128-163 | stores under the route of the packet's own identity; refuses exactly unsound or unidentified records and conflicting contents under either extension; changes no stored file |
| HostStore.TestStore.BeginTest | gui/host/sonar_test_store.py:71-103 | adds a fresh route and keeps all others |
| HostStore.FilesAreNamed | gui/host/capture_store.py:43-49 | a capture's files carry its sequence number and the second of its trigger, and the extension its flag or signature demands |
| HostStore.RoutesTellApart | gui/host/sonar_test_store.py:136-141 | captures share a route exactly when boot and test are the same, and an identity is four words, not all zero |
| HostStore.ConflictIsDifference | gui/host/capture_store.py:50-57 | a conflict is any file of the same capture, under either extension, that holds something else |
| CaptureDelivery.StepKeepsInvariant | firmware/src/sonar_ethernet.c:101-198 | every step of capture task, sender, connection and host keeps ownership, numbering, the conversation and the disk sound |
| CaptureDelivery.NoCaptureIsLost | firmware/src/sonar_ethernet.c:173-189 | over every run each published capture is in the pool or durably stored |
| CaptureDelivery.FreedOnlyWhenStored | gui/host/receive_ethernet.py:58-65 | a step frees a sent slot only when exactly that frame is stored |
| CaptureDelivery.AcknowledgementMatches | firmware/src/sonar_ethernet.c:122-138 | an acknowledgement in flight carries number and checksum of the frame being sent |
| CaptureDelivery.OnlyItsAcknowledgementFrees | firmware/src/sonar_ethernet.c:122-138 | whatever arrives, only number and checksum of the frame being sent free its slot; anything else keeps the frame |
| CaptureDelivery.NeverConflicts | gui/host/capture_store.py:50-57 | redelivery of a published frame never conflicts with what is on disk |
| CaptureDelivery.DeliveredStaysDelivered | gui/host/sonar_test_store.py:136-158 | once stored, a frame stays under the same route and path over every later run, host restarts included |
| CaptureDelivery.TakesOldestUnacknowledged | firmware/src/sonar_frames.c:22-38 | what is taken is the oldest published frame not yet acknowledged |
| CaptureDelivery.WireNeverGoesBack | firmware/src/sonar_ethernet.c:173-189 | over a boot, sequence numbers on the wire never go back and acknowledgements strictly increase |
| CaptureDelivery.BatchShrinks | firmware/src/sonar_ethernet.c:165-189 | inside a batch the eligible frames only shrink, while captures keep being published |
| CaptureDelivery.BatchIsBounded | firmware/src/sonar_ethernet.c:173-189 | a batch takes at most as many frames as were eligible when it began |
| CaptureDelivery.BatchIsWhatWasReady | firmware/src/sonar_ethernet.c:165-170 | a batch is exactly what was ready when it began |
| CaptureDelivery.OnlyBatchFramesAreSent | firmware/src/sonar_ethernet.c:166-176 | a frame being sent was ready when its batch began |
| CaptureDelivery.NextFrameIsDelivered | firmware/src/sonar_ethernet.c:101-189 | from any point between frames there is a run that delivers and frees the oldest frame |
| DeliveryProgress.EverythingCanBeStored | firmware/src/sonar_ethernet.c:101-198 | from any state, however interrupted, sender, connection and host can go on so that every published capture is durably stored and the pool is empty |
| WireRecord.FrameHeader | firmware/src/sonar_frames.c:74-100 | the header written by the board is accepted by the host exactly for consistent sizes and identities, and decodes to the same fields |
| WireRecord.HeaderRoundTrip | gui/host/receive_ethernet.py:27-55 | every field, signed ones included, comes back as it was encoded |
| WireRecord.AcceptedHeaders | gui/host/receive_ethernet.py:27-51 | which 112 bytes the host accepts, whoever wrote them: magic, version, size, checksum, dimensions, heartbeat rule and both identities |
| WireRecord.AcceptedFields | gui/host/receive_ethernet.py:27-55 | at which bytes the host finds each field, position and steps in two's complement |
| WireRecord.LayoutIsLaidOut | firmware/src/sonar_frames.c:77-99 | the fields tile the header without gap or overlap and fit their widths |
| Scan360.TargetIsNearest | firmware/src/sonar_scan360.c:50-52 | each cumulative target is within half a step of the exact position |
| Scan360.MoveIsFloorOrCeiling | firmware/src/sonar_scan360.c:38-55 | each move is the average move rounded down or up |
| Scan360.MovesReachTarget | firmware/src/sonar_scan360.c:47-54 | the first k moves sum to the k-th target with the scan's sign |
| Scan360.ScanIsOneRevolution | firmware/src/sonar_scan360.c:47-54 | after k moves the position is within half a unit of k*88000/N, and after N exactly one revolution |
| Scan360.MoveIsSmall | firmware/src/sonar_scan360.c:38-55 | no move is empty, exceeds a revolution or has the wrong sign |
| Scan360.Scanner.Configure | firmware/src/sonar_scan360.c:4-16 | accepts exactly 1..1000 positions of either sign and keeps sign and count |
| TxControl.FaultIsLatched | firmware/src/sonar_tx_control.c:27-45 | no sequence of calls, start-up included, clears the fault latch, and with it nothing is reported done |
| TxControl.DoneIsNeverStale | firmware/src/sonar_tx_control.c:33-38 | a triggered transmission ends only after a status word read since then shows the toggle changed, DONE and not ACTIVE |
| TxControl.DoneHasACause | firmware/src/sonar_tx_control.c:150-230 | between one prepare and the next, done needs such a word among those actually read while running, or an abort that succeeded |
| TxControl.TimedOutNeverCompletes | firmware/src/sonar_tx_control.c:39-44 | a transmission past its deadline keeps running, may drain, and is never reported done |
| TxControl.AbortDrains | firmware/src/sonar_tx_control.c:197-229 | a successful abort waited for a running transmission and saw the hardware inactive; a failed one latches the fault |
| TxControl.PollKeeps | firmware/src/sonar_tx_control.c:27-45 | a poll keeps the meaning of all flags, and ends a running transmission only on a word with the toggle changed, DONE and not ACTIVE |
| TxControl.ProgrammingNeedsIdle | firmware/src/sonar_tx_control.c:105-148 | programming touches only an idle transmitter without faults, starts nothing, and forgets what was done before |
| TxControl.PreparedIsFresh | firmware/src/sonar_tx_control.c:150-171 | no status word with the toggle as it stood at the prepare can ever count as completion |
| TxControl.TriggerStartsOnlyPrepared | firmware/src/sonar_tx_control.c:173-183 | a trigger starts exactly a prepared transmission; after any other trigger no sequence of calls ever reports done |
| TxControl.PollDecides | firmware/src/sonar_tx_control.c:25-45 | a poll of a healthy running transmission ends it exactly on a fresh, finished, inactive status word, and faults it exactly when it is late without one |
| TxControl.PrepareDecides | firmware/src/sonar_tx_control.c:150-171 | a transmission is prepared exactly from a programmed, idle, healthy transmitter with its line low and output inactive |
| TxControl.InitDecides | firmware/src/sonar_tx_control.c:47-83 | exactly when start-up succeeds, and when it faults for good |
| TxControl.ProgrammingDecides | firmware/src/sonar_tx_control.c:105-148 | what each end of programming leaves of an idle transmitter |
| TxControl.TransmissionCompletes | firmware/src/sonar_tx_control.c:150-189 | from a programmed transmitter, preparing, triggering and the completion word make a transmission that is done |
| TxControl.Transmitter.AbortTx | firmware/src/sonar_tx_control.c:197-229 | the waiting loop is the specified drain, including its timeout |
| Microphone.ReadyOnlyByCompletion | firmware/src/sonar_mic.c:74-131 | from a start on, over any events, polls and cancellations: ready exactly when the first call with an effect was a timely full-length completion of this capture, and then the engine owns nothing |
| Microphone.StartOwnsTheBuffer | firmware/src/sonar_mic.c:47-72 | a start that fails leaves the buffer with the engine unless the engine was reset |
| Microphone.FaultOnlyByFailure | firmware/src/sonar_mic.c:74-114 | over any calls, a capture is faulty exactly when the first call with an effect was a failing event, a late poll or a cancellation, and keeps the buffer exactly when the engine was not reset |
| Microphone.TimeoutEndsCapture | firmware/src/sonar_mic.c:102-108 | no capture outlives a poll at or past its deadline |
| ScanSafety.BodyKeepsInvariant | firmware/src/sonar_experiment_coordinator.c:347-527 | one iteration keeps plan, buffer ownership, transmitter and publication invariants whatever the environment does |
| ScanSafety.CyclePollKeeps | firmware/src/sonar_measurement_cycle.c:57-140 | a cycle poll from any reachable state keeps them, or has just settled the last move |
| ScanSafety.StopCycleKeeps | firmware/src/sonar_measurement_cycle.c:35-56 | a stop always ends in a stopping cycle or in FAULT |
| ScanSafety.FailKeeps | firmware/src/sonar_measurement_cycle.c:4-10 | entering FAULT keeps the invariant from every intermediate state and adds exactly one call to stop the outputs to the record |
| ScanSafety.CaptureReaches | firmware/src/sonar_experiment_coordinator.c:110-188 | a capture attempt ends triggered, or without effect, or in a state from which failing is safe |
| ScanSafety.DeliverReaches | firmware/src/sonar_experiment_coordinator.c:458-479 | delivering publishes or discards the one slot being filled and never fails to publish |
| ScanRuns.EveryScanFollowsItsPlan | firmware/src/sonar_measurement_cycle.c:57-140 | over every run captures and moves alternate and never exceed N; finished or under way, no move before its exposure is complete and the trigger offset has passed, no later capture before the settling time |
| ScanRuns.EveryCaptureIsSettledExactly | firmware/src/sonar_measurement_cycle.c:21-56 | over every run and all scans: a later capture of a scan is settled; no scan begins with a move under way, and its first capture is settled exactly when the settling time lies between the last arrival or halt and the trigger, surely if it had passed at the start |
| ScanExamples.CaptureRightAfterHalt | firmware/src/sonar_stepper.c:39-51 | a run with a monotone clock, from an initial state, whose second scan captures a millisecond after the stop that halted the motor in mid-move |
| ScanExamples.CaptureWithoutSettling | firmware/src/sonar_measurement_cycle.c:35-56 | a run with a monotone clock, from an initial state, whose second scan captures a millisecond after the last arrival |
| ScanRuns.FinishedScanIsOneRevolution | firmware/src/sonar_experiment_coordinator.c:492-507 | an undisturbed scan that stops has done exactly N captures and N moves, which make exactly one signed revolution, and the motor has settled |
| ScanRuns.NothingMovesAfterStop | firmware/src/sonar_measurement_cycle.c:35-56 | after a stop no capture and no move happens until a new start, over any run |
| ScanRuns.EndedStaysEnded | firmware/src/sonar_experiment_coordinator.c:351-370 | the iteration that handles the stop request itself already captures and moves nothing |
| ScanRuns.FaultIsForEver | firmware/src/sonar_measurement_cycle.c:57-62 | over any run FAULT is never left, no capture or move is added, a call to stop the outputs is on record and stays there, and nothing is prepared for the speaker |
| ScanRuns.FaultIsEnteredByStopping | firmware/src/sonar_measurement_cycle.c:4-10 | every step into FAULT calls for all outputs to be stopped, and no such call is ever dropped from the record |
| ScanRuns.StoppedOnlyWhenAllStopped | firmware/src/sonar_experiment_coordinator.c:80-88 | in STOPPED, and while a stopped capture drains, the last stop muted, stopped the motor and stopped the transmitter |
| ScanStarts.EveryScanHadItsTest | firmware/src/sonar_experiment_coordinator.c:413-427 | over every run each scan was started by a key that found the service ready, with a test armed after the one before, so scans never outnumber tests; positions, direction and deadline are those entered |
| ScanStarts.ScansStartByKeyOnly | firmware/src/sonar_experiment_coordinator.c:413-427 | an iteration starts nothing, or one scan by one of its Start keys, from an idle healthy cycle without a stop and with a test armed |
| ScanStarts.StartKeyStarts | firmware/src/sonar_experiment_coordinator.c:413-427 | a Start key starts a scan exactly when the service is ready, a number stored, the cycle idle and healthy, no stop pending and a test armed |
| ScanStarts.NumberIsStored | firmware/src/sonar_experiment_coordinator.c:383-412 | the number entered is stored exactly in an idle cycle and within 1 to 1000 of either sign, as positions and direction |
| ScanStarts.PromptsOpenWhenIdle | firmware/src/sonar_experiment_coordinator.c:383-412 | the position and divisor prompts open in an idle cycle only, and the answer to the divisor prompt is not stored as positions |
| ScanStarts.StopClosesPrompt | firmware/src/sonar_experiment_coordinator.c:357-363 | a stop, an inhibition included, closes whatever prompt was open |
| ScanHealth.TroubleEndsInFault | firmware/src/sonar_measurement_cycle.c:57-71 | an iteration that sees inhibition, a motor, transmitter or capture fault, or a clock going back ends in FAULT, reported |
| ScanHealth.LateCaptureEndsInFault | firmware/src/sonar_experiment_coordinator.c:444-453 | a capture past its own deadline in ticks ends the cycle in FAULT in the same iteration |
| ScanHealth.QueriesPollTransmitter | firmware/src/sonar_tx_control.c:97-103 | in flight a status query polls the transmitter and changes nothing else |
| ScanHealth.InhibitIsLatched | firmware/src/sonar_experiment_coordinator.c:484-488 | inhibition is never taken back, and comes only from outside or from a speaker that could not be muted when an exposure ended |
| ScanHealth.InhibitedEndsInFault | firmware/src/sonar_experiment_coordinator.c:351-357 | once inhibited the board is in FAULT from the next iteration on, over every run |
| ScanHealth.FaultCancelsCapture | firmware/src/sonar_experiment_coordinator.c:508-524 | the iteration that ends in FAULT reports it and leaves no capture under way |
| ScanProgress.WaitStep | firmware/src/sonar_measurement_cycle.c:73-91 | undisturbed, the wait for a buffer ends in a capture exactly when the attempt succeeds, goes on exactly without a buffer or after a cancelled attempt, and fails otherwise |
| ScanProgress.TriggeredOnlyWhenArmed | firmware/src/sonar_experiment_coordinator.c:131-172 | a transmission is triggered only with the speaker on, buffer and engine ready and no stop |
| ScanProgress.IndexIsPosition | firmware/src/sonar_scan360.c:30-36 | up to its move, the number of the position is one more than the positions finished |
| ScanProgress.AcquireStep | firmware/src/sonar_measurement_cycle.c:92-111 | undisturbed, an exposure ends, with its frame published, exactly when capture and transmission are complete, and fails exactly when one is late |
| ScanProgress.PreMoveStep | firmware/src/sonar_measurement_cycle.c:112-122 | undisturbed, the planned move starts at the first poll two seconds after the trigger, if the motor takes it |
| ScanProgress.MovingStep | firmware/src/sonar_measurement_cycle.c:123-130 | undisturbed, a move ends when the motor is seen to arrive, or fails after five minutes |
| ScanProgress.SettlingStep | firmware/src/sonar_experiment_coordinator.c:492-507 | undisturbed, settling ends after two seconds, in the next wait or in the end of the scan, which is STOPPED if all outputs stopped |
| ScanCompletes.EveryScanCanFinish | firmware/src/sonar_experiment_coordinator.c:347-527 | from any wait for a capture there is a run to the end: every remaining position captured, published and moved from, one revolution in all, and STOPPED |
| ScanRuns.NothingOutlivesItsDeadline | firmware/src/sonar_measurement_cycle.c:92-130 | a poll at or past its deadline leaves no capture, transmission or move waiting |
| ScanRuns.OneBufferIsFilled | firmware/src/sonar_experiment_coordinator.c:110-188 | at most one slot is being filled, the one named, only in ACQUIRE or FAULT, and the engine owns no other buffer |
| Publication.IterationAgrees | firmware/src/sonar_experiment_coordinator.c:110-188 | what an iteration does to pool, cycle count and capture in progress is a sequence of steps the delivery protocol allows at that point, and both publish the same sequence numbers |
| Publication.OutsideAgrees | firmware/src/sonar_ethernet.c:101-198 | what sender, connection and host do to the pool is what an iteration expects of the sender |
| Publication.RoundIsARun | firmware/src/sonar_experiment_coordinator.c:347-527 | after any steps of sender, connection and host, with any other inputs whose clock has not gone back behind the trigger, the iteration has an outcome in the protocol |
| Publication.EveryPublishedCaptureSurvives | firmware/src/sonar_experiment_coordinator.c:458-479 | from start-up on, over every joint run, each capture the experiment task published is the protocol's of the same number and is in the pool or durably stored |
| ScanRuns.PublishedAfterTransmission | firmware/src/sonar_experiment_coordinator.c:454-479 | a capture is published only with its buffer returned and its transmission ended by its own event; it was interrupted exactly when the cycle is in FAULT |
| ScanExamples.FaultPublishesInterruptedCapture | firmware/src/sonar_experiment_coordinator.c:456-479 | three iterations from an initial state after which an interrupted capture is published |
| ExperimentTask.Coordinator.Iterate | firmware/src/sonar_experiment_coordinator.c:347-527 | an iteration on fields equals the specified iteration and keeps the invariant |
| ExperimentConfig.AcceptedExactly | firmware/src/sonar_experiment_config.c:4-49 | the exact set of accepted configurations |
| ExperimentConfig.ValuesAreNearest | firmware/src/sonar_experiment_config.c:17-44 | increments, sample count and amplitude are the nearest integers to what frequencies, duration and percentage ask for, a tie going up, and the reported duration is the least that holds the samples |
| ExperimentConfig.StepTies | firmware/src/sonar_experiment_config.c:26-33 | the step is the nearest integer, a tie going away from zero |
| ExperimentConfig.StepIsNearest | firmware/src/sonar_experiment_config.c:26-29 | the step is the nearest integer, ties away from zero |
| ExperimentConfig.DurationRoundTrip | firmware/src/sonar_experiment_config.c:17-18 | the reported duration gives back the same number of samples |
| ExperimentConfig.RecalculationAgrees | firmware/src/sonar_experiment_config.c:4-50 | calculating again from the reported duration changes nothing |
| ExperimentConfig.EveryIncrementIsAudible | firmware/src/sonar_experiment_config.c:22-33 | every increment of an accepted chirp lies strictly between 0 and 2^31, and the last is within (n-1)/2 of the stop increment |
| ChirpGenerator.NextPhase | hardware/rtl/chirp_generator.v:384-393 | one wrapping update takes the closed-form phase of sample k to that of k+1 |
| ChirpGenerator.RegisterIsTheRamp | hardware/rtl/chirp_generator.v:391-393 | in an accepted chirp the signed increment register never wraps |
| ChirpGenerator.Generator.Clock | hardware/rtl/chirp_generator.v:235-427 | sample k has phase k*start + k(k-1)/2*step mod 2^32; done comes with exactly the configured number of samples |
| Identity.BoardIdentity.SetBoot | firmware/src/sonar_identity.c:13-23 | the boot identity is written once |
| Identity.BoardIdentity.PrepareTest | firmware/src/sonar_identity.c:24-34 | arms exactly a new test of this boot |
| ControlService.Service.Command | firmware/src/sonar_control_service.c:61-214 | while one session owns the service no other changes anything, the bytes of the upload included; while busy only the owner's end does; ids grow, the boot identity stays, and only a successful apply changes the active configuration; each operation is answered, and does, exactly what its own contract says |
| ControlService.Service.ApplyStaged | firmware/src/sonar_control_service.c:174-202 | the exact condition of success, which activates the staged configuration under the next id, disarmed; a hardware failure leaves nothing valid; every other refusal changes nothing |
| ControlService.Service.Program | firmware/src/sonar_tx_control.c:105-148 | success exactly for an idle, inactive transmitter with its source available, and then registers, source and, for a waveform, scaled memory hold exactly the configuration |
| ControlService.Service.SelectSource | firmware/src/sonar_pcm_playback_control.c:43-61 | the selected source holds the configuration's values |
| ControlService.Service.Arm | firmware/src/sonar_control_service.c:94-105 | a test is armed exactly for the valid configuration named by its id |
| ControlService.Service.BeginUpload | firmware/src/sonar_control_service.c:122-137 | the exact answer; an upload that begins expects the length and checksum sent, invalidates a waveform configuration and claims ownership |
| ControlService.Service.AppendUpload | firmware/src/sonar_control_service.c:138-145 | the exact answer: only the owner appends, and exactly the next bytes that parse; no valid configuration depends on the memory being overwritten |
| ControlService.Service.CommitUpload | firmware/src/sonar_control_service.c:146-156 | the exact answer: a complete file with the announced checksum is added as one more waveform, which invalidates a waveform configuration |
| ControlService.Service.StageWaveform | firmware/src/sonar_control_service.c:157-173 | stages exactly the current waveform at a legal amplitude |
| ControlService.GeneratedAsSent | firmware/src/sonar_control_service.c:106-121 | four numbers sent are staged as start, stop, duration and amplitude in this order, exactly when they are in range |
| ControlService.Service.StageGenerated | firmware/src/sonar_control_service.c:106-121 | stages exactly what can be calculated |
| ControlService.Service.StartUp | firmware/src/sonar_tx_control.c:47-83 | start-up with each of its failure exits keeps every promise; success makes transmitter and player available |
| ControlService.Service.End | firmware/src/sonar_control_service.c:66-73 | ending a session releases only what it owns |
| ControlService.Service.SetRunning | firmware/src/sonar_control_service.c:48-52 | uploads are locked exactly while a scan runs |
| ControlService.Service.DisarmTest | firmware/src/sonar_identity.c:39-46 | disarming leaves both identities and every configuration invariant |
| ControlService.Service.StartIsProgrammed | firmware/src/sonar_control_service.c:43-47 | whenever a scan may start, the transmitter holds exactly the active configuration, its registers or its waveform are loaded, and an armed test was armed for it under nonzero identities |
| ControlService.Service.StartsExactly | firmware/src/sonar_control_service.c:43-47 | a scan may start exactly with a valid configuration, nothing staged, no upload and no scan running |
| ControlService.StartableService | firmware/src/sonar_control_service.c:106-202 | from reset, start-up and two commands reach a state from which a scan may start |
| ControlService.Service.ValidImpliesCurrentWaveform | firmware/src/sonar_control_service.c:43-47 | a valid waveform configuration always names the current waveform |
| ControlService.OtherCallsKeepProgramming | firmware/src/sonar_tx_control.c:150-230 | preparing, triggering, polling and aborting leave the programming alone |
| ConsoleBuffer.GapIsWhatWasOverwritten | firmware/src/sonar_console_buffer.c:13-20 | a gap is reported exactly when bytes were overwritten, and is exactly their number |
| ConsoleBuffer.Ring.Put | firmware/src/sonar_console_buffer.c:2-9 | the ring keeps the latest 65536 bytes of the log and the end of its complete lines |
| ConsoleBuffer.Ring.ReadText | firmware/src/sonar_console_buffer.c:10-31 | reads the log from the cursor, complete lines only, or the gap |
| ConsoleFrames.StripStrips | gui/host/sonar_console_transport.py:53-56 | a reported text is the line without the carriage returns at its end |
| ConsoleFrames.BadHeaders | gui/host/sonar_console_transport.py:22-27 | a wrong first byte, an unknown kind or a length over 512 is rejected as soon as four bytes are there; anything else waits for its payload |
| ConsoleFrames.RefusedPackets | gui/host/sonar_console_transport.py:30-47 | which boundaries, gaps and texts are refused whatever came before |
| ConsoleFrames.FragmentsDoNotMatter | gui/host/sonar_console_transport.py:19-29 | however the stream is cut into chunks the decoder ends in the same state with the same events |
| ConsoleFrames.PacketRoundTrip | firmware/src/sonar_tcp_console.c:148-153 | a packet that arrives whole is handled as it was composed |
| ConsoleFrames.PartialPacketWaits | gui/host/sonar_console_transport.py:22-27 | an incomplete packet is neither handled nor rejected |
| ConsoleFrames.GapRoundTrip | firmware/src/sonar_tcp_console.c:135-140 | the gap's number comes through, and is refused only behind the live boundary |
| ConsoleFrames.ConsoleDecoder.Feed | gui/host/sonar_console_transport.py:19-61 | the in-place decoder is the specified one |
| ConsoleLog.HostSeesTheLog | firmware/src/sonar_tcp_console.c:95-167 | for every interleaving of writes and reads: reported lines are, byte for byte up to carriage returns at the end, whole lines of the log in order, exactly those no gap touches; rejected are exactly a gap behind the boundary and a line of which more than 8192 bytes came without a gap |
| ConsoleLog.WithoutGapsNothingIsMissing | firmware/src/sonar_tcp_console.c:95-167 | with no gap every whole line passed is reported, and exactly a line of which more than 8192 bytes were sent is rejected |
| ConsoleLog.SendingCatchesUp | firmware/src/sonar_tcp_console.c:130-155 | with nothing more written, enough passes send everything up to the last complete line, history and boundary first |
| ConsoleLog.IntactLineIsMissingOnlyAfterAGap | gui/host/sonar_console_transport.py:36-52 | a line no byte of which was lost is missing exactly when a gap ends at its first byte |
| ConsoleLog.IntactLineIsDropped | gui/host/sonar_console_transport.py:36-52 | a log in which that happens |
| ConsoleLog.AtBoundary | gui/host/sonar_console_transport.py:30-35 | when history ends the host is between lines or discarding, so the boundary is never rejected |
| ConsoleLog.AnyFragmentation | gui/host/sonar_console_transport.py:19-61 | with k packets, all of them perhaps, and part of the next received in any chunks, exactly k packets are handled |
| ConsoleLog.HostPrefix | firmware/src/sonar_tcp_console.c:95-167 | the same understanding holds after every prefix of what was sent |
| ConsoleServer.Connection.Compose | firmware/src/sonar_tcp_console.c:130-155 | the packet put together in the buffer is the encoding of the packet that is due |
| CodecBus.Bus.Event | firmware/src/sonar_codec_bus.c:56-85 | data and STOP follow exactly a reading with the bus busy and no error; success needs them queued and a reading without error, idle and empty; an error is always a refusal |
| CodecBus.Bus.Abort | firmware/src/sonar_codec_bus.c:86-98 | a controller that does not reset is quarantined for good |
| CodecService.EncodingRoundTrip | firmware/src/sonar_codec_service.c:32-40 | register and value can be read back from the two bytes |
| CodecService.ElapsedIsHonest | firmware/src/sonar_codec_service.c:115-123 | a wrapping tick difference never exceeds the time that really passed |
| CodecService.Speaker.PushedIsPrefix | firmware/src/sonar_codec_service.c:90-153 | the words pushed are a prefix of the ten writes; ready means all ten pushed and acknowledged, each by a reading that proves it; output on implies all ten acknowledged |
| CodecService.Speaker.BoardPoll | firmware/src/sonar_codec_board.c:61-71 | polls and events keep order, acknowledgement before the next start, and both delays; a due write is started, a proved one advances, a late or refused one is a fault |
| CodecService.Speaker.Enable | firmware/src/sonar_codec_service.c:155-170 | the output is switched on only from READY |
| CodecService.Speaker.Cancel | firmware/src/sonar_codec_service.c:172-178 | cancelling pushes nothing more |
| CodecService.ReadySpeaker | firmware/src/sonar_codec_board.c:61-71 | with a bus that behaves, any delays and any volume, configuration ends ready |
| ExperimentControl.RunsDoNotExceedStarts | gui/host/sonar_gui_control.py:92-102 | a history in which every run answers the accepted start right before it has no more runs than starts |
| ExperimentControl.Control.Line | gui/host/sonar_gui_control.py:114-188 | a console line sends a run exactly when it is a status line that confirms idle board, signed positions, audio, receiver and empty queue for the pending start whose number is stored; a status line that does not confirm it, or a rejection, stops |
| ExperimentControl.Control.Start | gui/host/sonar_gui_control.py:92-102 | accepts exactly on fresh matching confirmations, and sends no run itself |
| ExperimentControl.Control.Stop | gui/host/sonar_gui_control.py:104-112 | a stop ends whatever start was pending |
| ExperimentControl.Control.EthernetConnection | gui/host/sonar_gui_control.py:84-90 | losing the data connection cancels a start under way |
| ExperimentControl.Control.ConsoleConnection | gui/host/sonar_gui_control.py:67-82 | a console connection change ends a pending start |
| ExperimentControl.Control.Tick | gui/host/sonar_gui_control.py:190-203 | an unconfirmed start is stopped at its deadline, never run |

## Left out
- PdmDecimator.Decimator.ToPcm16Interleaved: does not model null, misaligned or overlapping pointers; the model's arrays cannot be any of these.
- CaptureDelivery.NextFrameIsDelivered: shows one delivering run, not that a fair environment must take it.
- ScanRuns.FinishedScanIsOneRevolution: says what is true when an undisturbed scan stops, not that the motor must finish.
- ExperimentTask.Coordinator.Iterate: gives the sender its turn between iterations; its steps commute with the coordinator's because they never touch a free slot or one being filled.
- Publication.IterationAgrees: takes the identities and the data of a capture as inputs, the identities nonzero and of this boot; `ControlService.Service.StartIsProgrammed` shows that they are whenever a scan may start with an armed test.
- HostStore.TestStore.Save: takes a file write as atomic and durable and a new folder name as unused, as the host's helper intends.
- WireRecord.FrameHeader: the payload's own conversion to a WAV file and the flag that marks it are not part of the model; a payload is any byte string.
- ConsoleLog.HostSeesTheLog: assumes that fewer than 2^64 bytes are logged; texts are bytes, before UTF-8 decoding.
- ScanSequencer.Launch: a scheduler of one tick a second, whose capture timeout rounds to zero so that no capture can start, is not modelled; any other rate is.
- CodecService.Speaker.BoardPoll: bus interrupt and status bits are inputs; that the controller raises them truthfully is not modelled.
- ExperimentControl.Control.Line: which patterns a console line contains is an input; the regular expressions are not modelled.
- Numeric filter tables, passband and stopband figures and the stored reference table: any symmetric tables within the bounds are allowed instead.
- Strength of CRC error detection: the connection delivers an intact prefix.
- The stepper driver and its position feedback, the number parser of the console prompt and the step divisor: inputs of an iteration.
- Configuration manifests, test summaries and display notifications of the host's store.
- RTOS, sockets, discovery, cache and DMA registers, pin setup: represented by the results they return.
- Sine lookup and amplitude of the chirp output, I2S transmitter, BRAM player and clock crossings.
- Resampling of other WAV rates on the host, plotting and widgets.
