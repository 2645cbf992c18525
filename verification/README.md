# Kukuruku: a verified model of the channel server and its client

Kukuruku is a software radio server. One reader thread fills a ring of packets; one worker thread per channel
shifts, filters and decimates them; one writer thread sends finished packets to TCP clients, and a client keeps
a mirror of the server's channels. This project models those parts in Dafny and proves what they are for.
`dafny verify dfyconfig.toml` checks everything.

## How it is laid out

**Signal path.** `Complex.dfy` (complex numbers over exact reals), `Decimation.dfy` (the grid 0, d, 2d, ...),
`XlateSpec.dfy` (the fast and the simple form of a channel), `XlateLimits.dfy` and `Mixing.dfy` (exactly when
they agree),
`XlateWorker.dfy` (the worker thread's loop in place on its buffers), `Amplitude.dfy` and `Scaling.dfy`
(`maxval`, integer formats).

The worker rotates the taps once, filters and decimates packet by packet, and rotates at the low rate. The
simple form mixes the whole stream at full rate, applies the real low-pass taps and keeps every d-th sample.
`XlateLimits.SimpleExact` says that they are equal on every stream, for every number of packets, packet length,
decimation and tap schedule, exactly if no tap reaches past the lookback. When the rotation changes,
`XlateLimits.ChannelExact` says exactly when every packet is the simple form asked for at its rotation, times a
unit that carries over, and `Mixing.OneMixerExact` exactly when all of it is one mixed stream.
`XlateWorker.Process` proves that the loop's state (overlap buffer, grid offset, rotator phase) and its
output are the fast form of everything that has come in.

**Ring protocol.** `Ring.dfy` is a state machine over reader, workers, writer and requests. A locked region is
one step; an unlocked region is cut into its begin, its accesses and its end, and a slot being overwritten is
Torn. `RingSafety.dfy` says what its invariant means for each party, `RingRequests.dfy` what requests lead to over
whole runs, `RingProgress.dfy` what can always happen next. `Server.dfy` is the reader's loop with the recorder in
it. `EndToEnd.dfy` joins ring and signal path: what a subscriber has been sent, sample for sample, over every
interleaving, with the thread's own ring as the place where those samples are found.

**Control plane and wire.** `ControlPlane.dfy` is a state machine over requests, broadcasts and the streams of
messages to clients; `ControlRequests.dfy`, `ControlLife.dfy`, `ControlMirror.dfy` and `ControlMatch.dfy` are its
properties.
`ClientParser.dfy` has the request handlers as loops over the server's lists, each proved to be a step of
that machine; `Client.dfy` has the client's handlers, proved to do what the machine says a client does.
`Framing.dfy` and `Payload.dfy` are the byte streams, and `Delivery.dfy` goes from a worker's ring to the bytes its
subscribers are sent. `Squelch.dfy` is the squelch replay.

**Scanner.** `Peaks.dfy` (peak finder) and `Tiling.dfy` (frequency tiling).

## Where the code differs from its documentation or its intent

The model follows the code. Each of these is a theorem, with the exact condition where there is one.

- `alldata + MAXTAPS` is an offset in floats (server/xlate_worker.c:141), so the lookback is half = MAXTAPS/2
  samples, although MAXTAPS is announced to clients (server/client_parser.c:100). Taps that reach past it meet
  zeros where samples of the next packet should be. `XlateLimits.SimpleExact` and `StreamingExact` say exactly
  which tap schedules are harmed, `LongestTaps` how long a list may be: half + gcd(SDRPACKETSIZE, decimation).
- A MODIFY without taps, as the command line and the AFC send it (client/cli.py:48, client/libclient.py:469),
  changes the rotator but leaves the taps at the old rotation. `XlateWorkerThread.RequestRotation`: harmless if
  and only if both rotations give the same taps.
- A MODIFY with taps and rotation, as the GUI sends on every edit (client/kukuruku-gui.py:680-685), changes the
  rotation at once but the taps only at the end of the next packet. Handled between two turns it spoils that
  packet (`XlateWorkerThread.RequestBetweenTurns`, `XlateLimits.NoSuchTaps`); handled while a turn computes it
  does not (`RequestDuringTurn`).
- Where the rotation changes, the output is not that of one mixer: a window with samples from both packets
  mixes all of them at its own packet's rotation. `Mixing.PlansMixExactly` says when that makes no difference.
- `maxval` is meant to bound samples from the range [-1, 1] (server/worker.h:53-56). It does for samples of
  modulus at most one; saturated samples, with both components in that range, can come out larger by up to the
  square root of two and leave the integer range. `Amplitude.ClippingExact` is exact for both ranges,
  `SaturatedClips` a run.
- The reader waits for the writer only, so it can lap a worker (`RingProgress.ReaderCanLapWorker`).
  `RingSafety.InputExact` is the bound on the lag, `RingSafety.InputsExact` the same over whole runs.
- A worker disabled while it waits for space never ends and is never reaped (`RingProgress.ReapableExactly`,
  `WorkerCanGetStuck`).
- A recorder that caught up and is then held back by the gate writes an old frame (`RingSafety.RecorderExact`,
  `ReaderThread.InTimeExact`).
- `history` is documented as the frame to start with; processing starts one frame later
  (`XlateWorkerThread.XlateWorker.constructor` and `Process`, `RingRequests.FiltersFromWhereAsked`).
- A frame filtered with the old taps may be sent under the new `maxval`; `Amplitude.ClippingExact` covers that.
- LIST and MODIFY announce disabled workers too, and DESTROY gives up the lock before it broadcasts.
  `ControlMirror.MirrorExact` says exactly when the mirror is right; `GhostRun` and `LostRun` go wrong.
- LIST repeats other clients' reference IDs, and a client takes an unknown worker announced under an ID it is
  waiting for as its own. `ControlMatch.MatchingExact` says exactly when that does not happen;
  `LateListStealsRequest` and `LateAskStealsRequest` are runs in which it does.
- The squelch tests the saved frame with `if`, which raises on arrays of several numbers (I16, I8).
  `Squelch.ReplayExact`: the client never raises if and only if no such frame precedes an opening.
- The peak finder misses runs next to bins that equal the floor, and measures a run that starts at bin 0
  from the wrong place: `Peaks.PeaksExact`.
- The tiling loop does not end when the rounded distance between centres is below one: `Tiling.EndsExact`.

## Preconditions taken from callers

`history >= -1`, decimation at least 1, MAXTAPS even and at most SDRPACKETSIZE, tap lists of at most MAXTAPS + 1
(a longer one makes the dot product read past the buffer; the server does not refuse it), a payload of less
than 2 GiB, `maxval` positive for a worker with I16 or I8 subscriptions. `e^(i*rotate)` is a complex constant;
where its modulus matters it is required to be one. The
amplitude theorems take a range of samples as an argument: modulus at most one, or both components in [-1, 1].

## Model

| member | source | states |
|---|---|---|
| `XlateLimits.SimpleExact` | server/xlate_worker.c:127-162 | for every packet count, packet length, decimation and tap schedule: on every stream the worker's concatenated output is the mixed, low-passed stream at positions 0, d, 2d, ..., if and only if no tap but zeros meets, at a grid position, a sample of a later packet |
| `XlateLimits.StreamingExact` | server/xlate_worker.c:127-172 | the same, with the same condition, for schedules in which taps and rotation change together between packets: in each packet the simple form at its taps and rotation, times a carried unit |
| `XlateLimits.ChannelExact` | server/xlate_worker.c:127-172 | for any taps and rotations packet by packet, rotated alike or not: the output is as planned on every stream if and only if at every grid position the taps act on the samples that are there as the planned taps act on all |
| `XlateLimits.FastIsSimple` | server/xlate_worker.c:127-162 | with taps that fit, the worker's output is the textbook form of the stream (no bound on the modulus of w needed) |
| `XlateLimits.FastIsPiecewise` | server/xlate_worker.c:127-172 | the same, packet by packet, for every schedule in which taps and rotation change together |
| `XlateLimits.ShortTapsFit` | server/xlate_worker.c:140-151 | lists of up to half + gcd(S, d) taps fit: half + 1 at least, half + d when d divides the packet length |
| `XlateLimits.LongestTaps` | server/xlate_worker.c:140-151 | all lists of up to len taps can be used for any number of packets if and only if len <= half + gcd(S, d) |
| `XlateLimits.GcdOfMultiple` | server/xlate_worker.c:147 | when the decimation divides the packet length, the gcd is the decimation |
| `XlateLimits.GridGap` | server/xlate_worker.c:147-160 | no grid position lies closer than gcd(S, d) to the end of its packet |
| `XlateSpec.OutputAt` | server/xlate_worker.c:138-162 | output q of any schedule of settings is the dot product over the stream up to its packet, times the rotator |
| `XlateSpec.RotatingTapsIsMixing` | server/xlate_worker.c:46-56 | filtering with rotated taps and rotating the result is low-passing the mixed stream, at every position |
| `XlateSpec.PhaseIsRotator` | server/xlate_worker.c:127-157 | the phase carried across packets is the rotator at the next grid position, for every schedule of rotations |
| `XlateSpec.RotatorIsPower` | server/xlate_worker.c:127-157 | with one rotation that is w to the position |
| `XlateLimits.CarriedPhase` | server/xlate_worker.c:127-157 | inside a packet the rotator is a fixed unit times the mixer that has run at that packet's rotation from the start |
| `XlateLimits.PiecewiseIsCarried` | server/xlate_worker.c:127-162 | what "packet by packet" means: the textbook form at the packet's taps and rotation, times that unit |
| `XlateSpec.PiecewiseIsSimple` | server/xlate_worker.c:138-162 | with one rotation the packet-by-packet form is the textbook form |
| `Mixing.OneMixerExact` | server/xlate_worker.c:127-172 | for any taps and rotations packet by packet: on every stream the output is the stream mixed by one full-rate oscillator, low-passed and decimated, if and only if at every grid position taps and rotator together do to the samples there what that mixer does to all |
| `Mixing.PlansMixExactly` | server/xlate_worker.c:127-172 | with taps rotated by the rotation in force: if and only if the taps fit and every tap but zeros that meets a sample mixes it, from where the rotator stands, as the oscillator does |
| `Mixing.OneMixerIsSimple` | server/xlate_worker.c:138-162 | with one rotation the one mixed stream is the textbook form |
| `XlateWorkerThread.GetComplexTaps` | server/xlate_worker.c:46-56 | the loop computes the rotated taps |
| `XlateWorkerThread.CalcMaxAmplitude` | server/xlate_worker.c:34-44 | the loop computes the sum of the taps' absolute values |
| `XlateWorkerThread.DotProduct` | server/xlate_worker.c:149-151 | on a buffer that is a window of the stream, the dot product at i is the FIR of the uninterrupted stream |
| `XlateWorkerThread.Rotate` | server/xlate_worker.c:155-157 | sample k is multiplied by phase * inc^k, and the phase moves on by inc^n |
| `XlateWorkerThread.XlateWorker.constructor` | server/xlate_worker.c:59-127 | a new worker: rotated taps, maxval, zeroed buffers, phase one, offset zero; the invariant holds of the empty stream |
| `XlateWorkerThread.XlateWorker.Load` | server/xlate_worker.c:140-141 | after both copies the buffer is the window of the stream extended by the packet: every cell, in place |
| `XlateWorkerThread.XlateWorker.Filter` | server/xlate_worker.c:143-160 | firout holds the FIR at exactly the grid positions of this packet and never overruns; the loop ends at the next packet's offset |
| `XlateWorkerThread.XlateWorker.Compute` | server/xlate_worker.c:138-162 | the unlocked part of a turn appends the new packet's outputs and keeps the invariant |
| `XlateWorkerThread.XlateWorker.SwapTaps` | server/xlate_worker.c:165-172 | a pending tap list is taken over, rotated by the rotation now in force, with its maxval; stream, grid, phase and output are untouched |
| `XlateWorkerThread.XlateWorker.Work` | server/xlate_worker.c:138-162 | the unlocked part of a turn: packet and setting are recorded, only slot mypos of the ring changes and it holds the packet the specification adds to the output |
| `XlateWorkerThread.XlateWorker.Publish` | server/xlate_worker.c:164-179 | the locked end of a turn: pending taps are taken over, last_written moves unless disabled |
| `XlateWorkerThread.XlateWorker.Process` | server/xlate_worker.c:129-183 | both, when no request is handled meanwhile |
| `XlateWorkerThread.XlateWorker.Thread` | server/xlate_worker.c:109-183 | the thread from its start, taps left alone: its whole output is the simple form of the packets end to end |
| `XlateWorkerThread.RunChannel` | server/xlate_worker.c:58-183 | a channel from its creation: whatever the packets, its whole output is the simple form of them end to end |
| `XlateWorkerThread.XlateWorker.Modify` | server/client_parser.c:234-246 | the rotation changes at once, with or without taps; the taps in force stay; a list of taps is noted, an empty one leaves what is noted alone |
| `XlateWorkerThread.XlateWorker.ModifyAll` | server/client_parser.c:234-246 | of several requests in a row the last rotation counts and the last list of taps that is not empty, also from different requests |
| `XlateWorkerThread.LastRequestWins` | server/client_parser.c:234-246 | the same of the specification the thread is proved against |
| `XlateWorkerThread.SettingsFollowRequests` | server/xlate_worker.c:138-172 | for every schedule of requests around the turns, with and without taps: a turn works with the last rotation asked for before it reads it, and with the last taps asked for in an earlier turn, rotated by the rotation in force when that turn ended |
| `XlateWorkerThread.RotationOnly` | server/client_parser.c:236-243 | which settings a MODIFY without taps leads to, between two turns or during one: from then on the new rotation, with the taps still rotated by the old one |
| `XlateWorkerThread.RequestRotation` | server/client_parser.c:236-243 | what follows such a request is as asked for on every stream if and only if both rotations make the same taps |
| `XlateWorkerThread.BetweenTurns` | server/xlate_worker.c:129-172 | which settings a MODIFY with taps handled between two turns leads to: one packet with the old taps, rotated by the old rotation, under the new rotator, then the new taps |
| `XlateWorkerThread.RequestBetweenTurns` | client/kukuruku-gui.py:680-685 | then, on every stream, that packet is the simple form at the new rotation for some taps g if and only if the old taps at the old rotation are g at the new one, and all others are as asked for |
| `XlateLimits.NoSuchTaps` | client/kukuruku-gui.py:680-685 | with a nonzero second tap there are no such g unless the rotation stays or turns by half a circle |
| `XlateWorkerThread.DuringTurn` | server/xlate_worker.c:138-172 | a MODIFY handled while a turn computes changes taps and rotation together |
| `XlateWorkerThread.RequestDuringTurn` | server/xlate_worker.c:138-172 | and then, with taps that fit, every packet is as asked for |
| `XlateWorkerThread.AppendPacket` | server/xlate_worker.c:155-160 | the specification grows packet by packet just as the loop's state does |
| `XlateWorkerThread.FlattenAt` | server/xlate_worker.c:140-141 | every sample of every packet has its place in the stream |
| `XlateLimits.DotProductsExact` | server/xlate_worker.c:140-151 | two lists of taps, one on the first m samples and one on all, give the same dot product on every stream if and only if they agree on every sample, the missing ones counting as zero taps |
| `XlateLimits.DetunedExact` | server/xlate_worker.c:138-172 | for any taps left from another plan, of any length: the output is as planned on every stream if and only if the planned taps fit and at every grid position every tap that meets a sample is the planned one |
| `XlateLimits.RetuneExact` | server/client_parser.c:236-243 | the case of one packet with the old taps under the new rotator |
| `XlateLimits.RotateOnlyExact` | server/client_parser.c:236-243 | the case of a new rotation without taps after m packets, for lists of up to half + gcd(S, d): as asked for on every stream if and only if both rotations make the same taps |
| `XlateLimits.SameTapsSameRotation` | server/client_parser.c:236-243 | with a nonzero second tap that means the rotation did not change |
| `XlateLimits.ReadTap` | server/xlate_worker.c:149-151 | an impulse under a tap reads off exactly that tap |
| `Decimation.Count` | server/xlate_worker.c:84-85 | the number of grid positions below n: ceil(n / d) |
| `Decimation.Offset` | server/xlate_worker.c:159-160 | the carried offset leads from the consumed length to the next grid position, less than d away |
| `Decimation.CountUnique` | server/xlate_worker.c:147-153 | the count is the only number whose multiple of d first reaches n |
| `Decimation.PacketOutputs` | server/xlate_worker.c:143-162 | n packets yield ceil(n*S/d) outputs, and none more than S/d + 1 |
| `Decimation.ChunkOutputs` | server/xlate_worker.c:84-85 | a chunk of any length at any place in the stream fits the room allocated for it |
| `Decimation.CutsInvisible` | scanner/xlater.c:55-65 | for every sequence of chunk lengths the loop visits exactly the global positions 0, d, 2d, ... |
| `Decimation.ChunkOnGrid` | scanner/xlater.c:55-65 | one chunk that starts at the carried offset stays on the grid and carries the right offset on |
| `Decimation.Walk` | scanner/xlater.c:55-65 | the loop over one buffer visits what the specification says and leaves the next offset |
| `Decimation.Decimator.Dump` | scanner/xlater.c:55-65 | over calls: the positions visited so far are the grid up to what has been consumed |
| `Decimation.Decimator.constructor` | scanner/xlater.c:55 | a fresh decimator starts at position 0 |
| `Amplitude.OutputsBounded` | server/worker.h:53-56 | for samples of modulus at most 1, and for samples with both components in [-1, 1]: no component of any output of a run exceeds its peak, the sum over the taps that meet a sample of what each can add, whatever the rotations and even while taps follow an earlier one |
| `Amplitude.PeakOnSomeStream` | server/worker.h:53-56 | some stream in that range reaches the peak, at each output of each run |
| `Amplitude.PeakInDisc` | server/worker.h:53-56 | for modulus at most 1 the peak is at most the sum of the taps' absolute values, and equal to it where all nonzero taps meet samples |
| `Amplitude.PeakInBox` | server/worker.h:53-56 | for components in [-1, 1] it is at most the square root of two times that |
| `Amplitude.PeakBound` | server/xlate_worker.c:34-44 | the turned dot product of any stream in range stays within the peak |
| `XlateSpec.RotatorUnit` | server/xlate_worker.c:155-157 | the phase keeps modulus 1 over any sequence of rotations |
| `Amplitude.PeakReached` | server/worker.h:53-56 | the stream whose samples are the best for their taps attains the peak |
| `Amplitude.ClippingExact` | server/server.c:261-277 | output q of a run stays in the integer range under `maxval` on every stream in range if and only if L * peak < (L + 1) * maxval |
| `Amplitude.OwnMaxvalNeverClips` | server/server.c:261-277 | for samples of modulus at most 1 it always does under the taps' own maxval |
| `Amplitude.SaturatedClips` | server/worker.h:53-56 | a run fed with a sample of 1 + i in which it does not: 1.4 where maxval is 1, sent as 45873 |
| `Scaling.RoundTrip` | client/libclient.py:404-427 | scaling, truncating and dividing again gives sample/maxval to within 1/L |
| `Scaling.QuantiseFits` | server/server.c:261-276 | a sample is sent as a number within -L .. L if and only if its size is below maxval * (L + 1) / L |
| `Ring.InitInv` | server/server.c:95-202 | the invariant holds at the start |
| `Ring.StepKeepsInv` | server/server.c:95-384 | every step of reader, workers, writer and requests keeps the invariant |
| `Ring.RunKeepsInv` | server/server.c:95-384 | so does every run |
| `Ring.ReaderStep` | server/server.c:161-200 | the gate, the fill and the publication keep every other frame of the last B in place |
| `Ring.WorkerStep` | server/xlate_worker.c:129-183 | so do the worker's wait, copy, unlocked write and publication in its own ring |
| `Ring.SendStep` | server/server.c:227-284 | sending one frame from the snapshot: the subscriber gets the intact next frame |
| `Ring.SnapshotStep` | server/server.c:222-225 | the snapshot and the commit (lines 286-289) keep the invariant |
| `Ring.PassStep` | server/server.c:291-374 | skipping, reaping and the spectrum half of a pass keep the invariant |
| `Ring.CreateStep` | server/xlate_worker.c:73-105 | a new worker keeps the invariant |
| `Ring.RequestStep` | server/client_parser.c:188-291 | so do enabling, disabling and destroying |
| `Slots.Distinct` | server/server.c:183 | frames less than a ring apart live in different slots |
| `RingSafety.SpectrumLinesInOrder` | server/server.c:312-372 | over every interleaving send_cptr <= sdr_cptr <= send_cptr + B, live frames are in their slots, and the spectrum lines sent are frames 0, 1, 2, ... intact and once each |
| `RingSafety.SubscriberInOrder` | server/server.c:222-289 | over every interleaving 0 <= last_written - send_cptr <= B - 1, and a subscriber has exactly the frames from its first to the writer's position: no gap, no duplicate, nothing torn |
| `RingSafety.ReaderNeverRacesWriter` | server/server.c:174-200 | while spectra are sent from a snapshot, the reader's slot is none the writer still reads |
| `RingSafety.WorkerNeverRacesWriter` | server/xlate_worker.c:131-177 | while a worker's frames are sent from a snapshot, the slot it writes unlocked is none the writer still reads |
| `RingSafety.RecorderExact` | server/server.c:131-153 | the frame the recorder writes is the one it means if and only if sdr_cptr - B < rec_cptr <= sdr_cptr |
| `RingSafety.InputExact` | server/xlate_worker.c:131-141 | the slot a worker copies holds its own frame if and only if its lag is below B, or below B - 1 while the reader fills a slot |
| `RingSafety.InputsExact` | server/xlate_worker.c:129-141 | over every run: a worker filtered exactly the consecutive frames from its start if and only if each of its copies was in time |
| `RingSafety.InputStep` | server/xlate_worker.c:129-141 | only a late copy spoils the input, and one late copy does |
| `RingRequests.CreatedAsAsked` | server/xlate_worker.c:73-82 | in every run that ends in a CREATE the new worker has done and sent everything up to the reader's frame for -1, up to `history` if that is at most a ring back, and up to sdr_cptr - BUFSIZE if it is further back |
| `RingRequests.FiltersFromWhereAsked` | server/xlate_worker.c:73-141 | over every run, for a worker that copies in time: the frames it filters are the ones after that, from the first on without a gap |
| `RingRequests.SubscribedExact` | server/client_parser.c:184-224 | over every run: a worker has a subscriber if and only if the last request about it was an ENABLE, and then from the frame after those sent by that time |
| `RingRequests.EnabledExact` | server/client_parser.c:275-288 | over every run: a worker is enabled if and only if nobody has destroyed it |
| `RingRequests.ListedExact` | server/server.c:284-300 | over every run: the workers in the list are those created and not reaped since |
| `RingRequests.SubscriptionPays` | server/server.c:222-289 | whoever enables a worker and is not disabled since has been sent its frames from the first one unsent at that time on, intact and in order |
| `RingProgress.BlockedReader` | server/server.c:174-179 | a blocked reader means a full ring of frames to send |
| `RingProgress.BlockedWorker` | server/xlate_worker.c:131-135 | no space means B - 1 frames to send; no data means at most the newest frame is left |
| `RingProgress.WriterStepWorks` | server/server.c:227-284 | every step of the writer strictly shrinks what its pass has left to do, and moves nobody else |
| `RingProgress.FinishPass` | server/server.c:219-374 | from any state the writer alone finishes its pass; a pass with fresh snapshots leaves nothing unsent |
| `RingProgress.Drain` | server/server.c:205-384 | the writer alone reaches a state with everything ready sent and every finished worker reaped |
| `RingProgress.WriterUnblocksAll` | server/server.c:369-372 | no deadlock: the writer alone opens the reader's gate and gives every enabled worker space |
| `RingProgress.OneMoreFrame` | server/server.c:174-200 | from every state one more frame can be published, without any worker moving |
| `RingProgress.MoreFrames` | server/server.c:174-200 | and any number of frames |
| `RingProgress.ReaderCanLapWorker` | server/server.c:174 | for every ring size there is a run in which an enabled worker filters a frame that is not its own |
| `RingProgress.WorkerCanGetStuck` | server/xlate_worker.c:131-135 | for every ring size there is a run in which a worker fills its ring while the writer is away and is then destroyed, and can never be reaped |
| `RingProgress.StuckForEver` | server/server.c:220-289 | a worker disabled while waiting for space stays so over every run |
| `RingProgress.ReapableExactly` | server/server.c:291-300 | a disabled worker can still be reaped if and only if it is not waiting for space |
| `EndToEnd.SubscriberHearsTheWorker` | server/xlate_worker.c:129-183 | over every interleaving: what a client subscribed to a timely worker has received is, sample for sample, the worker's output on the captured stream since its start, for whatever settings it went through, from its subscription to the writer's position |
| `EndToEnd.SubscriberHearsThePlan` | server/xlate_worker.c:129-183 | if those settings act as planned, that is packet by packet the simple form of the captured stream |
| `EndToEnd.RunThread` | server/xlate_worker.c:109-183 | the thread itself, fed with what its slots hold, with MODIFY requests between its turns and while they compute: its settings are a function of those requests, and the ring slot of each of its last frames has exactly the samples that frame number stands for above |
| `EndToEnd.Turn` | server/xlate_worker.c:129-183 | one turn of it, without touching the other slots |
| `EndToEnd.PacketsEndToEnd` | server/server.c:227-284 | gap-free packets continue the worker's earlier output to its whole output |
| `EndToEnd.InputIsFrames` | server/xlate_worker.c:141 | a worker whose copies are the consecutive frames filters the captured stream |
| `EndToEnd.FramesAt` | server/server.c:186-196 | every sample of every captured frame has its place in the stream |
| `ReaderThread.SdrReader.constructor` | server/server.c:83-92 | nothing captured, nothing recorded, the ring empty |
| `ReaderThread.SdrReader.RecordStart` | server/client_parser.c:301-333 | recording starts at the first frame from the one asked for on that exists and that the ring may still hold, goes on exactly if that is at most the last one asked for, and the file is empty |
| `ReaderThread.SdrReader.WriteFrames` | server/server.c:131-154 | a burst writes what the slots of the next two frames hold, or of one if that catches up; started in range, that is the captured frames |
| `ReaderThread.SdrReader.Turn` | server/server.c:99-201 | one turn: the burst, then, exactly if the gate is open, one captured frame in its slot; the last ring of frames stays intact |
| `ReaderThread.SdrReader.Loop` | server/server.c:99-201 | whatever the writer does, gate open or closed: what is captured and where the recorder ends; if it worked in time, the file is the gap-free run of captured frames from rec_cptr |
| `ReaderThread.InTimeExact` | server/server.c:108-179 | a recorder started in range works in time if and only if no turn but the last leaves it caught up before a closed gate with more to record; it never falls behind, and writes at most one frame past rec_stop |
| `ReaderThread.OpenGate` | server/server.c:108-179 | with the gate open throughout it works in time, and its lag falls by one a turn to zero |
| `ReaderThread.SdrReader.Sent` | server/server.c:369-370 | the writer's acknowledgement keeps the reader's invariant |
| `ControlLife.ChannelLife` | server/client_parser.c:166-295 | over every run, for every client: RUNNING(wid) precedes each PAYLOAD(wid) of a worker created after it connected, and no PAYLOAD(wid) follows a DESTROYED(wid) for an existing worker |
| `ControlLife.FreshIds` | server/xlate_worker.c:65-103 | the next worker ID is in no list, and no RUNNING or PAYLOAD in any stream has carried it |
| `ControlLife.CreateKeepsLife` | server/client_parser.c:174-180 | CREATE keeps the order of messages in every stream |
| `ControlLife.BroadcastKeepsLife` | server/client_parser.c:127-152 | so does the DESTROYED broadcast |
| `ControlLife.AnnounceKeepsLife` | server/client_parser.c:250-265 | so do the RUNNING messages of LIST and MODIFY |
| `ControlLife.SendKeepsLife` | server/server.c:228-282 | so does a packet sent to all its subscriptions |
| `ControlRequests.SubscriptionsExact` | server/client_parser.c:184-224 | over every run: how often a client is subscribed to a worker is the number of ENABLE requests it has sent since it connected and since a DISABLE or DESTROY, whoever sent it, last found the worker in the list |
| `ControlRequests.PacketsPaid` | server/server.c:228-282 | in every run that ends in a packet each client's stream grows by one payload for each of these requests, and by nothing else |
| `ControlRequests.OnlyPacketsPay` | server/server.c:228-282 | no other step adds a payload to any stream, and no step takes anything back |
| `ControlRequests.PresentExact` | server/socket.c:120-200 | over every run: a client is connected if and only if it has not left since it last connected |
| `ControlRequests.ListedExact` | server/client_parser.c:275-288 | over every run: the workers in the list are those created and not taken out since, and one is enabled if and only if no DESTROY has found it there |
| `ControlRequests.CreatedInOrder` | server/client_parser.c:166-182 | over every run: a client's CREATE requests become workers in the order in which it made them |
| `ControlMirror.MirrorExact` | server/client_parser.c:38-152 | over every run, for every client, early or late: the messages sent to it fold to the set of enabled workers if and only if each enabled worker has an announcement since the client connected that no DESTROYED broadcast follows and every such announcement of any other worker is followed by one |
| `ControlMirror.MirrorFollows` | server/client_parser.c:38-152 | the mirror of every client holds exactly the workers it was last told to be running |
| `ControlMirror.LastUpMeans` | server/client_parser.c:250-295 | the last word about a worker, in terms of the steps of the run |
| `ControlMirror.GhostRun` | server/client_parser.c:256-265 | a run in which LIST leaves a destroyed worker in the mirror with no broadcast to come |
| `ControlMirror.LostRun` | server/client_parser.c:291-293 | a run in which a DESTROY for an ID not given out yet makes the client forget the worker that gets it |
| `ControlMirror.StepTells` | server/client_parser.c:166-295 | what each step adds to and takes from the mirror of every client |
| `ControlMirror.ListTells` | server/client_parser.c:256-265 | LIST adds exactly the workers in the list to the mirror of every client, early or late, whoever asked |
| `ControlMirror.ListExact` | server/client_parser.c:256-265 | after LIST the mirror of a client is right if and only if every worker in the list is enabled and the client knew of no other |
| `ControlMirror.MirrorAgrees` | server/client_parser.c:166-295 | with handlers run in one go that announce only enabled workers, the mirror is the set of enabled workers |
| `ControlMirror.FoldKeys` | client/libclient.py:318-367 | the keys of `xlaters` follow from the messages alone |
| `ControlMatch.InFlightMirrorExact` | client/libclient.py:318-367 | the exact mirror, said of the client's own `xlaters` and the messages in flight |
| `ControlMatch.MatchingExact` | client/libclient.py:207-239 | over every run and for every client, early or late: its requests and workers match in every state if and only if no step announces to it an unknown worker of another client under an ID it is waiting for, or a worker of its own that it will have forgotten, and it never gives out an ID that an unknown worker's announcement in flight carries |
| `ControlMatch.StepMatched` | client/libclient.py:318-348 | one step spoils the matching if and only if it is one of those |
| `ControlMatch.EveryRequestAnsweredOnce` | client/libclient.py:207-239 | in such a run each reference ID is queued or belongs to exactly one worker, its own, and the mirror carries exactly that ID |
| `ControlMatch.KnownIsHarmless` | server/client_parser.c:250-265 | runs that announce to a client only workers it will know never spoil its matching, in particular (`WithoutAnnouncements`) runs without LIST and MODIFY |
| `ControlMatch.WithoutAnnouncements` | server/client_parser.c:250-265 | runs without LIST and MODIFY announce nothing unknown to anybody |
| `ControlMatch.TameIsKnown` | server/client_parser.c:250-265 | nor do, to a client, runs whose LIST and MODIFY announce only workers it was last told to be running |
| `ControlMatch.RunKeepsBooks` | server/client_parser.c:166-182 | over every run, whatever is announced: each reference ID of a client is in one request or belongs to exactly one worker |
| `ControlMatch.FoldQueue` | client/libclient.py:224-237 | queueing a new request commutes with the messages in flight unless one of them waits for its ID, and then the ID is taken |
| `ControlMatch.LateListStealsRequest` | server/client_parser.c:256-265 | a run in which LIST makes a client take another client's worker for its own |
| `ControlMatch.LateAskStealsRequest` | client/libclient.py:224-237 | a run in which a request made while the answer to LIST is on its way does |
| `ClientParser.Server.constructor` | server/socket.c:183 | empty lists are the initial state |
| `ClientParser.Server.Accept` | server/socket.c:185-199 | a new connection is the Connect step |
| `ClientParser.Server.MsgRunning` | server/client_parser.c:35-80 | every client gets one RUNNING at the end of its stream, the remote ID going to one client only |
| `ClientParser.Server.MsgDestroyed` | server/client_parser.c:127-152 | every client gets one DESTROYED at the end of its stream |
| `ClientParser.Server.Create` | server/client_parser.c:166-182 | the handler is the Create step |
| `ClientParser.Server.Unsubscribe` | server/client_parser.c:210-218 | the nested loops take out every subscription to the worker and no other |
| `ClientParser.Server.Enable` | server/client_parser.c:184-198 | the handler is the Enable step: one more subscription at the head of the client's list |
| `ClientParser.Server.Disable` | server/client_parser.c:200-224 | the handler is the Disable step: the worker is taken out of every client's list if it is in the list of workers |
| `ClientParser.Server.Mark` | server/client_parser.c:271-291 | the locked half of DESTROY is the Mark step |
| `ClientParser.Server.Broadcast` | server/client_parser.c:293 | its second half is the Broadcast step |
| `ClientParser.Server.Announce` | server/client_parser.c:250-265 | one announcement is the Announce step |
| `ClientParser.Server.List` | server/client_parser.c:256-265 | the loop announces every worker, in list order |
| `ClientParser.Server.ReplyToModify` | server/client_parser.c:228-252 | the worker is announced if it is in the list, and otherwise nobody hears anything |
| `ClientParser.Server.SendPacket` | server/server.c:228-282 | the writer's loops over clients and subscriptions are the Send step |
| `ClientParser.Server.Reap` | server/server.c:291-300 | taking a finished worker out of the list is the Reap step |
| `ClientParser.WithoutIsRemoval` | server/client_parser.c:212-217 | removing matching links one by one removes the worker from the multiset of subscriptions |
| `ClientParser.WithoutKeepsOrder` | server/client_parser.c:212-217 | and leaves the others in order |
| `ClientParser.FramesCount` | server/server.c:230-281 | a client is sent one frame for each of its subscriptions |
| `ClientObject.Client.constructor` | client/libclient.py:64-90 | a new client knows nothing and has asked for nothing |
| `ClientObject.Client.CreateXlater` | client/libclient.py:207-239 | the request carries the returned reference ID; under that ID the xlater waits in the queue with its rotation, decimation and a live, empty feeder; IDs are handed out in order |
| `ClientObject.Client.RunningXlater` | client/libclient.py:318-348 | the view changes as the control plane says; a known channel keeps its feeder, squelch and saved frame, a queued one comes with them and is enabled if asked for, any other has none; nothing else changes |
| `ClientObject.Client.DestroyedXlater` | client/libclient.py:350-369 | the view changes as the control plane says; the feeder is told to end |
| `ClientObject.Client.ProcessPayload` | client/libclient.py:388-442 | each of the four outcomes exactly in its case (a channel without a feeder raises); a delivered frame goes through the squelch rule and touches one channel only |
| `ClientObject.ProcessAll` | client/libclient.py:431-442 | frame after frame with the squelch on: the queue grows by exactly the replay, or it raises exactly when some opening is not playable |
| `Squelch.ReplayExact` | client/libclient.py:431-442 | over every run: it never raises if and only if no opening follows a frame of several numbers, and then the data queued are exactly the open frames, each opening preceded by the closed frame before it unless that is blank (no bytes, no number, a single zero) |
| `Squelch.BytesReplayed` | client/libclient.py:402-440 | F32 frames never raise, and unless empty they are queued exactly if they are open or the next one is, in the order in which they came |
| `Squelch.NumbersRaise` | client/libclient.py:404-440 | an opening after a closed frame of two or more numbers raises |
| `Squelch.SamplesRaise` | client/libclient.py:404-440 | for I16 and I8 frames with at least one sample, as parsed from messages: it raises if and only if the squelch ever opens after it was closed |
| `Framing.RoundTripExact` | server/socket.c:142-164 | a stream of encoded messages yields exactly those messages if and only if every length is in the accepted range |
| `Framing.TruncatedStream` | server/socket.c:142-164 | a stream cut off anywhere yields exactly the messages complete by then |
| `Framing.ReadOn` | server/socket.c:142-164 | what follows well-formed messages is read after them |
| `Framing.ReadingStops` | server/socket.c:142-164 | reading stops for good at a length out of range and at a message that is cut off, and nowhere else |
| `Framing.Le32RoundTrip` | server/socket.c:143-144 | the length field is read as it was written |
| `Framing.Le32Value` | server/socket.c:143-144 | its bytes are the number, least significant first |
| `Framing.Incoming.Read` | server/util.c:10 | a read returns some nonempty beginning of what is to come, or nothing at the end |
| `Framing.ReadN` | server/util.c:6-17 | under any fragmentation: exactly the next n bytes, or 0 if there are fewer |
| `Framing.ReadRequests` | server/socket.c:142-164 | under any fragmentation: exactly the messages in the stream, up to the first bad length or incomplete message |
| `Framing.GetData` | client/libclient.py:603-614 | exactly the bytes asked for, or none if there are fewer |
| `Framing.ReadReplies` | client/libclient.py:616-627 | under any fragmentation: exactly the messages in the stream of at least four bytes |
| `Framing.WriteN` | server/util.c:19-30 | all bytes in order, or a proper prefix exactly when the connection fails |
| `Framing.SendAll` | client/libclient.py:594-601 | the stream is the encoding of the queued messages |
| `PayloadFormat.DeclaredIsWritten` | server/server.c:235-278 | the announced length is the number of bytes that follow, for all three formats |
| `PayloadFormat.SendMessage` | server/server.c:233-278 | the bytes written are the encoded message |
| `PayloadFormat.SendPacket` | server/server.c:228-282 | one packet to one client: one message for each subscription to the worker, in list order, in the format of that subscription and scaled by the maxval read for it, and no other; willwait stays set exactly if there is no such subscription |
| `PayloadFormat.DrainWorker` | server/server.c:222-284 | from a snapshot, with frames send_cptr + 1 .. last_written in their slots: exactly their messages, frame after frame, with maxval read anew for each; the counter ends at last_written |
| `PayloadFormat.PacketHeard` | client/libclient.py:371-427 | the message for a subscription parses to the worker's ID and carries the packet in that subscription's format |
| `PayloadFormat.DrainHeard` | client/libclient.py:616-627 | a client that reads what the writer has written gets exactly these messages |
| `Delivery.ServeThread` | server/server.c:222-284 | from the ring of a thread that has been through RunThread each client is sent, in order and in each subscription's format, what the thread computed for every frame not sent before |
| `PayloadFormat.FrameRoundTrip` | client/libclient.py:371-427 | the client gets every sample of an I16 or I8 frame that fits back in its place, as sample/maxval to within 1/32767 or 1/127, and of an F32 frame the four bytes of each float in their place |
| `PayloadFormat.SampleAt` | server/server.c:262-277 | sample i of a frame is at its place in the message |
| `PayloadFormat.HeaderParts` | server/client_parser.h:45-51 | the type 256, the worker, the time, the frame number and the sample type 1, 2 or 3 are at bytes 0, 4, 8, 12 and 16 of the header |
| `PayloadFormat.Signed16RoundTrip` | client/libclient.py:418 | the two bytes of a 16-bit sample are read as they were written, least significant first |
| `PayloadFormat.Signed8RoundTrip` | client/libclient.py:424 | so is the byte of an 8-bit sample |
| `PayloadFormat.EncodeAppend` | server/server.c:244-246 | messages sent one after the other are the encoding of them all |
| `Peaks.FindPeaks` | scanner/KukurukuScanner.py:363-385 | frequency and width of exactly the kept spans, in order, with the integer division of Python 2; fails exactly where that divides by zero |
| `Peaks.WantedWidths` | scanner/KukurukuScanner.py:370-379 | which spans are wanted, in hertz: between the two widths, ends included, but an int as the lower width also lets spans through that are too narrow by less than a bin |
| `Peaks.KeptInOrder` | scanner/KukurukuScanner.py:375-382 | spans are in order, and exactly the falling edges at a wanted distance from the last rising edge are kept |
| `Peaks.PeaksAreRuns` | scanner/KukurukuScanner.py:375-382 | on a clean spectrum that holds whatever widths are wanted |
| `Peaks.PeaksExact` | scanner/KukurukuScanner.py:375-382 | for every spectrum and every pair of widths: the result is exactly the maximal runs above the floor that end before the last bin and have a wanted width, if and only if of every unclean run neither its width nor the distance to the last rising edge is wanted |
| `Peaks.StrictIsClean` | scanner/KukurukuScanner.py:376-378 | no bin on the floor and bin 0 below it make a spectrum clean |
| `Tiling.Tile` | scanner/util.py:92-119 | the loop lists the centres k * floor(delta) from the start, all up to the limit and no more |
| `Tiling.EndsExact` | scanner/util.py:97-119 | the loop ends if and only if some centre passes the limit |
| `Tiling.TilingCovers` | scanner/util.py:92-119 | for a range a step and a bit wide: the loop ends, neighbours are 1 .. step apart, exactly the range up to half a step past the last centre is covered, and that centre falls short by less than one hertz a step and less than one distance |
| `Tiling.NarrowRange` | scanner/util.py:97-119 | for a range at most a step wide: the loop ends if and only if its start lies past the limit or its upper end is at least 1, and lists at most its start |
| `Tiling.DeltaBounds` | scanner/util.py:97-103 | the distance before rounding divides the range evenly and lies between 1 and step |

## Left out

- Floating-point rounding and VOLK's renormalisation of the phase: numbers are exact reals, and the dot product and the rotator are taken by their definitions.
- Integer width: frame counters and IDs are unbounded; lengths on the wire and integer samples have their exact width.
- `PayloadFormat.FrameRoundTrip`: the bytes of a float are any four bytes a float is written as, so F32 frames come back as bytes, not as numbers; spectrum and histogram payloads (negative IDs) are not parsed.
- `PayloadFormat.SendMessage`: the time and frame number of a channel's header are never assigned by the server (server/server.c:237-241); the model sends zero. A fourth sample type, for which the server sends nothing, is not modelled, nor is an integer format with a `maxval` of zero, for which C leaves the conversion undefined.
- `XlateWorkerThread.XlateWorker.Modify`: one step, between two turns or between the reading of the rotation and the lock under which taps are taken over. The code sets taps, their length and the rotation one after the other, under another lock than the one the worker holds; a worker that reads them in between is not modelled. A new tap list that arrives before an earlier one was taken over replaces it.
- `Ring`: slots hold frame numbers in place of samples; `EndToEnd` says which samples a frame number stands for. A worker has one subscriber, who stands for any client; how many there are is said by `ControlRequests`. Waiting on the condition variable is the wait condition becoming false, so progress is what can happen, not when a scheduler lets it. Fields read without a lock (`enabled`, `sdr_cptr` inside the recorder's burst) are read in one step. The copy of an input packet is one step, to be read as its end: a frame that is still in its slot then has been there all the time, but a copy torn halfway is not a state of its own.
- `EndToEnd.SubscriberHearsTheWorker`: for workers whose copies are timely; `RingSafety.InputsExact` says when they are.
- `ReaderThread.SdrReader.Loop`: one recording, without another RECORD request; the metadata file is not part of this model. What a recording clamped to sdr_cptr - BUFSIZE writes first is said by `RingSafety.RecorderExact` only.
- `ControlPlane`: each handler's locked region is one step (DESTROY has two). MODIFY sends its RUNNING message without the lock, so its bytes could interleave with others'; here messages are whole. Parameters a RUNNING message carries besides the two IDs are in `Client.dfy` only.
- `ControlMirror.MirrorAgrees`: for clients connected before the first worker; a later one knows only what LIST has told it (`MirrorExact`). Connections have names of their own, which are not used again.
- `ClientParser.Server`: a client that leaves is a step of `ControlPlane` only; freeing a link of a list while the loop stands on it, and the order in which two threads wait for a lock, are not modelled.
- `Framing.ReadRequests`: a request of one to three bytes is handed on like any other; the parser then reads its type past the end. Requests are byte strings: protobuf is not part of this model.
- `Peaks.FindPeaks`: the scanner is a Python 2 program (scanner/scanner.py:1); its rate and bin count are ints. Logging is left out.
- `ClientObject.Client.ProcessPayload`: where it raises, the client's lock stays taken; locks are not modelled.
- `Squelch.Step`: what the squelch callback answers is an input; a frame of one number counts as false if it is zero.
- AFC, FFT, windowing, spectrum and histogram values, SET_GAIN, RETUNE, SET_PPM and GET_INFO.
- The scanner's `xdump` beyond its decimation grid, its interval lists, schedules and file handling.
- Sockets, pipes, files, processes, memory reclamation, configuration readers, the GTK interface, the flow graphs, packaging.
