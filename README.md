# Packet relay bookkeeping of webrtc-pion, in Dafny

This project models the relay logic inside the WebRTC callbacks and goroutines of
webrtc-pion. An inbound media track is announced to `OnTrack`, which gives it the
next ordinal from `TrackHandler.TrackCount`. Its read loop rewrites each RTP
timestamp into a delta against the previous raw timestamp of that source. A
`lastTimeStamp` of 0 means "no previous packet", so the first packet, and any packet
read right after a raw timestamp of 0, gets delta 0. It then
passes packets through an edge-triggered gate (`CurrTrack == trackNum` plus the
`isCurrTrack` flag) into buffered channels of capacity 60. A writer goroutine per
output channel turns the deltas back into a running `uint32` timestamp and stamps
a `uint16` sequence counter. A connection state of Failed or Closed cancels the
session context.

The source has two variants of this logic, and the model keeps both as they are
written:

- `webrtc/webrtc.go` (module `WebrtcRelay`) has two outputs, video and screen. It
  routes by stream id, keeps a `screenInUse` flag and has a correct delta
  encoder. Its rotation code is commented out, so `CurrTrack` stays 0.
- `main.go` (module `MainRelay`) has one shared channel and emits a PLI (picture
  loss indication) when a video track becomes current. It rotates `CurrTrack`.
  Its encoder saves `lastTimeStamp` and then restores it, so every timestamp
  becomes 0. Its writer panics after the first write.

As written, neither variant relays more than one packet per session. In
`webrtc/webrtc.go`, `CurrTrack` stays 0, so only reader 0 is ever admitted
(`OnlyTrackZeroAdmitted`), and since it stays current only its first packet passes
the gate (`PinnedForwardsOnlyFirst`; `WebrtcRelay.TrackReader.OnPacket` ensures that
after any read the reader's next packet goes nowhere). In `main.go` the writer
writes at most one packet before the panic. The lemmas about multi-packet streams
(`RebasesToStart`, `SwitchScenario`, `RewriteAllAppend` and the like) compose the
encoder and the writer as if the gate let every packet through. They describe what
those two loops compute, not an output the program as written produces.

Shared pieces are defined once:

- `Rtp`: `uint32`/`uint16` wrap-around arithmetic and the packet and track records.
- `Lifecycle`: the context and the connection-state callback.
- `Gate`: the edge-triggered admission.
- `Rebaser`: the writer's timeline.

Each callback iteration is one atomic method on a class that holds the source's
fields:

- `Handler` holds the `TrackHandler` fields.
- `TrackReader` holds the locals of one read loop (`lastTimeStamp`, `isCurrTrack`).
- `Writer` holds the locals of one writer loop (`currTimestamp`, `i`).

A channel is its buffered contents, a `seq<Packet>` that the methods append to and
take from. A blocking send or receive is a precondition: the channel has room, or
it holds a packet. Each method's `ensures` ties the new state to pure step
functions: `EncodeDelta`/`FrozenEncode`, `Admit`, `RouteOf`, `Rewrite`,
`NextTrack`. The properties over whole packet streams are lemmas about folds of
those same functions.

The model follows the code in these points:

- A full channel blocks the sender; nothing is dropped.
- A track is admitted by its ordinal, not by a role label.
- Only the first packet of each run of being current is forwarded, not every
  packet of the active source.
- Sequence numbers and timestamps wrap modulo 2^16 and 2^32, so output
  timestamps are not claimed to be monotonic.

## Model

| member | source | states |
|---|---|---|
| `Rtp.AddSubCancel` | webrtc/webrtc.go:190-191 | Adding the encoder's wrapped difference back onto `lastTimeStamp` gives the raw timestamp, modulo 2^32. |
| `WebrtcRelay.EncodeDelta` | webrtc/webrtc.go:186-192 | The new `lastTimeStamp` is always the raw timestamp just read. With `lastTimeStamp == 0` the packet's timestamp becomes 0. Otherwise the old `lastTimeStamp` plus the delta is the raw timestamp (mod 2^32). |
| `WebrtcRelay.EncodeAll` | webrtc/webrtc.go:174-192 | Encoding a run of packets, as if every one were admitted, yields one packet per packet read, and only the timestamp differs from what was read. |
| `WebrtcRelay.RawZeroRestarts` | webrtc/webrtc.go:186-188 | After a packet with raw timestamp 0, the next packet is also sent with delta 0: the encoder treats it as the first packet. |
| `WebrtcRelay.RebaseAfterFirst` | webrtc/webrtc.go:189-192 | Assuming every packet is admitted: once a reader has a nonzero `lastTimeStamp` L and raw timestamps stay nonzero, encoding and then accumulating yields acc + (raw_k − L) mod 2^32 for every k. |
| `WebrtcRelay.RebasesToStart` | webrtc/webrtc.go:186-192 | Assuming every packet is admitted: a fresh reader whose source has nonzero raw timestamps r0, r1, … yields writer outputs acc + (rk − r0) mod 2^32. From a fresh writer these are rk − r0: the source is rebased to start at 0. |
| `WebrtcRelay.SwitchScenario` | webrtc/webrtc.go:270-277 | Assuming every packet is admitted: source A [1000, 1090, 1180] followed by source B [5000, 5100] into one writer gives timestamps [0, 90, 180, 180, 280] and sequence numbers 0..4. |
| `WebrtcRelay.RouteOf` | webrtc/webrtc.go:201-207 | An admitted packet goes to the video channel iff the track is video-kind with stream id "video". It goes to the screen channel iff the track is video-kind with stream id "screen". |
| `WebrtcRelay.Handler.constructor` | webrtc/webrtc.go:16-22 | `CurrTrack` 0, `TrackCount` 0, both channels empty, `screenInUse` false. |
| `WebrtcRelay.Handler.OnTrack` | webrtc/webrtc.go:165-172 | The new reader's `trackNum` is `TrackCount` before the increment, and `TrackCount` goes up by one. The reader starts with `lastTimeStamp` 0 and a clear flag. The ordinals issued stay 0, 1, 2, … |
| `WebrtcRelay.Handler.RotationTick` | webrtc/webrtc.go:305-329 | The loop exits iff the context is done. It changes nothing, so `CurrTrack` stays 0 (the rotation is commented out). |
| `WebrtcRelay.OrdinalsDistinct` | webrtc/webrtc.go:165-166 | Ordinals issued by a valid handler are pairwise distinct and below `TrackCount`. |
| `WebrtcRelay.TrackReader.constructor` | webrtc/webrtc.go:168-172 | A read loop starts with `lastTimeStamp` 0 and `isCurrTrack` false. |
| `WebrtcRelay.TrackReader.OnPacket` | webrtc/webrtc.go:174-214 | `lastTimeStamp` becomes the raw timestamp. The flag becomes `CurrTrack == trackNum`. The delta-stamped packet is appended to the video or screen channel exactly when the gate admits it and `RouteOf` picks that channel; a screen send also sets `screenInUse`. Nothing else changes, and `CurrTrack` stays 0. Afterwards the reader's next packet goes nowhere, so a reader sends at most once per session. |
| `WebrtcRelay.TrackReader.OnReadError` | webrtc/webrtc.go:176-183 | The loop ends. `screenInUse` is cleared iff the stream id is "screen". No other field changes. |
| `WebrtcRelay.OnlyTrackZeroAdmitted` | webrtc/webrtc.go:196-198 | With `CurrTrack` pinned at 0, a packet can be sent only by the reader with ordinal 0, and only while its flag is clear. |
| `WebrtcRelay.Writer.constructor` | webrtc/webrtc.go:270-271 | A writer starts with accumulator 0, counter 0 and nothing written. |
| `WebrtcRelay.Writer.WriteNext` | webrtc/webrtc.go:268-301 | The oldest packet leaves this writer's channel (FIFO). The packet written is stamped with old accumulator + delta and with sequence number `i`. What is written is always the rebasing of what was received. The other channel is untouched. |
| `WebrtcRelay.EmittedNumbering` | webrtc/webrtc.go:289-295 | For whatever a writer has received (as written, at most one packet), the k-th packet it writes has sequence number k mod 2^16, and its timestamp is the sum of the first k+1 deltas mod 2^32. |
| `Gate.Admit` | webrtc/webrtc.go:196-213 | A packet is forwarded iff the track is current and the flag was clear. Afterwards the flag equals "is current". |
| `Gate.Forwards` | webrtc/webrtc.go:196-213 | The gate's verdicts over a read loop, one per read. |
| `Gate.ForwardsOnRisingEdge` | main.go:166-180 | In a read loop, packet k is forwarded iff it is read while current and the previous read was not (for k = 0: the flag started clear). |
| `Gate.AtMostOncePerRun` | webrtc/webrtc.go:196-213 | Between any two forwarded packets of one reader there is a read made while not current. So at most one packet is forwarded per run of being current. |
| `Gate.PinnedForwardsOnlyFirst` | webrtc/webrtc.go:196-198 | If the track is current at every read, only the first packet is forwarded. |
| `Rebaser.Rewrite` | webrtc/webrtc.go:272-277 | The written packet carries the accumulator after adding its delta and the current counter `i`. SSRC and payload pass through. |
| `Rebaser.Advance` | webrtc/webrtc.go:271-274 | The writer's state after one packet. The delta can be read back as the wrapped change of the accumulator, and the counter always changes. |
| `Rebaser.RewriteAll` | webrtc/webrtc.go:271-282 | The writer loop's output over a run of received packets has one packet per packet received. |
| `Rebaser.AdvanceAll` | webrtc/webrtc.go:271-282 | After n packets the counter has advanced by n mod 2^16. |
| `Rebaser.AdvanceAllValue` | webrtc/webrtc.go:288-292 | After n packets the accumulator is the sum of their deltas mod 2^32. |
| `Rebaser.SequenceNumbers` | webrtc/webrtc.go:271-277 | The k-th rewritten packet has sequence number i0 + k mod 2^16, whatever the source's own number was. |
| `Rebaser.Timestamps` | webrtc/webrtc.go:270-275 | The k-th rewritten packet has timestamp acc + (deltas 0..k) mod 2^32. SSRC and payload pass through unchanged. |
| `Rebaser.RewriteAllAppend` | webrtc/webrtc.go:270-277 | Assuming every packet is admitted: feeding two packet runs to one writer gives the first run's output followed by the second's output, continued from where the first left the timeline. There is no reset at a switch of source. |
| `Lifecycle.OnConnectionStateChange` | webrtc/webrtc.go:222-238 | `done` is set on Failed and on Closed; any other state leaves it unchanged. main.go:189-202 is the same code. |
| `Lifecycle.Context.constructor` | webrtc/webrtc.go:217 | A fresh context from `context.WithCancel` is not done. main.go:184 is the same. |
| `Lifecycle.DoneAfter` | webrtc/webrtc.go:222-238 | Whether the context is done after a sequence of reported states. Once done, it stays done. |
| `Lifecycle.DoneIffTerminalSeen` | main.go:189-202 | After a sequence of states the context is done iff it was done already or some state was Failed or Closed. |
| `MainRelay.FrozenEncode` | main.go:156-162 | `lastTimeStamp` is restored to its old value. With it at 0 the timestamp becomes 0. Otherwise old + delta is the raw timestamp (mod 2^32). |
| `MainRelay.FrozenEncodeAll` | main.go:147-162 | Encoding a run of packets, as if every one were admitted, yields one packet per packet read. |
| `MainRelay.FrozenEncoderZeroes` | main.go:142-162 | A reader starting at `lastTimeStamp` 0 rewrites every packet's timestamp to 0 and changes nothing else. |
| `MainRelay.AccumulatorStaysZero` | main.go:228-232 | A writer fed only zero deltas keeps `currTimestamp` at 0. |
| `MainRelay.WrittenTimestampsZero` | main.go:232-233 | A writer whose accumulator is 0 and that is fed only zero deltas stamps every packet with 0. |
| `MainRelay.FrozenScenario` | main.go:156-162 | A source [1000, 1090, 1180] comes out as [0, 0, 0] instead of [0, 90, 180]. |
| `MainRelay.NextTrack` | main.go:262-266 | A rotation step stays in [0, `TrackCount`) and equals (`CurrTrack` + 1) mod `TrackCount`. |
| `MainRelay.Rotate` | main.go:262-266 | Any number of rotations with a fixed `TrackCount` keeps `CurrTrack` a known ordinal. |
| `MainRelay.RotateCompose` | main.go:247-267 | a rotations followed by b rotations equal a + b rotations. |
| `MainRelay.RotateUpward` | main.go:265 | Below the last ordinal each rotation adds one. |
| `MainRelay.RotateWraps` | main.go:262-263 | From ordinal c, `TrackCount` − c rotations reach ordinal 0. |
| `MainRelay.RotationVisitsAll` | main.go:262-266 | From any ordinal, every ordinal becomes current within `TrackCount` rotations. |
| `MainRelay.RotationPeriodic` | main.go:262-266 | Exactly `TrackCount` rotations bring `CurrTrack` back to where it started. |
| `MainRelay.Handler.constructor` | main.go:17-21 | `CurrTrack` 0, `TrackCount` 0, empty channel, process alive (not crashed, not exited). |
| `MainRelay.Handler.OnTrack` | main.go:138-145 | `trackNum` is `TrackCount` before the increment, and `TrackCount` goes up by one. `CurrTrack` stays a known ordinal as `TrackCount` grows. |
| `MainRelay.Handler.RotationTick` | main.go:247-268 | The loop exits iff the context is done, and then `main` has returned (`exited`), so no later step of `MainRelay` can run. Nothing changes while `TrackCount` is 0. Otherwise `CurrTrack` becomes `NextTrack(CurrTrack, TrackCount)`, and the range invariant is kept. |
| `MainRelay.OrdinalsDistinct` | main.go:138-139 | Ordinals issued by a valid handler are pairwise distinct and below `TrackCount`. |
| `MainRelay.TrackReader.constructor` | main.go:141-145 | A read loop starts with `lastTimeStamp` 0 and a clear flag. |
| `MainRelay.TrackReader.OnPacket` | main.go:147-181 | `lastTimeStamp` is what `FrozenEncode` leaves, and stays 0. The flag becomes "is current". When the gate admits the packet, a video track returns a PLI for its SSRC, and the packet, with its timestamp set to 0, is appended to the shared channel whatever its kind; that packet is the one `FrozenEncode` stamps, with delta 0. Otherwise neither happens. |
| `MainRelay.TrackReader.OnReadError` | main.go:149-153 | Only while the process is alive: the loop ends; nothing else changes. |
| `MainRelay.TrackReader.ReadWhileCurrent` | main.go:147-181 | Over a run of reads while the track stays current, the shared channel gains exactly the first packet of the run (timestamp 0) when the flag was clear at the start, and nothing otherwise; at most one PLI, for a video track, goes out. Room in the channel is needed only when that first packet is sent. |
| `MainRelay.Writer.constructor` | main.go:228-229 | The writer starts with accumulator 0, counter 0 and nothing written. |
| `MainRelay.Writer.WriteNext` | main.go:227-243 | The oldest packet is written to the video track with timestamp 0 and sequence number 0, and then the process has crashed. At most one packet is ever written. |

## Left out

- Peer connection setup is left out because it is transport-library work: the ICE server configuration, `NewPeerConnection`, `NewTrackLocalStaticRTP`, `AddTrack`, `CreateAnswer`, `SetLocalDescription`, `GatheringCompletePromise` and the deferred `Close` (webrtc/webrtc.go:26-115, 240-264; main.go:24-106, 204-222).
- The RTCP drain goroutines (webrtc/webrtc.go:122-143, main.go:113-122) are left out because they only read and discard.
- `ReadRTP`, `WriteRTP` and `WriteRTCP` are abstract events: a packet given to `OnPacket`, a packet appended to `emitted`, a PLI returned from `OnPacket`. Their errors are only logged by the source, except a read error, which is `OnReadError`.
- webrtc/helper.go is not part of this model: its `readUntilNewLine` reads stdin, and its `encode`/`decode` only wrap JSON and base64 library calls.
- Goroutine scheduling is left out. Each callback iteration is one atomic method, so the unsynchronised sharing of `TrackHandler` fields, and any interleaving inside one iteration, are not represented. The busy-spin `select` loop is one `RotationTick` per pass.
- `WebrtcRelay.TrackReader.OnPacket` does not model a blocked send on a full channel: the source blocks there, and the model requires room instead. The same holds for `MainRelay.TrackReader.OnPacket` and `MainRelay.TrackReader.ReadWhileCurrent`.
- `WebrtcRelay.Writer.WriteNext` does not model a blocked receive on an empty channel: the source blocks there, and the model requires a packet instead. The same holds for `MainRelay.Writer.WriteNext`.
- The `videoPackets != nil` test (webrtc/webrtc.go:200) is not modelled, because the handler always makes the channel (line 19), so the test is always true.
- The `panic` in main.go's writer and the return from `main` on a done context both end the whole process. The model records them as `Handler.crashed` and `Handler.exited`. `OnTrack`, `RotationTick`, `OnPacket`, `ReadWhileCurrent`, `OnReadError` and `WriteNext` require `Handler.Alive()`. `Lifecycle.OnConnectionStateChange` is shared with webrtc/webrtc.go and is not guarded, so the model still lets it set `done` after the process has ended. It touches nothing but the context.
- When webrtc/webrtc.go's rotation loop sees a done context, `StartPeerConnecion` returns and its deferred `Close` runs. No caller of that function is part of this model, so what happens to its goroutines afterwards is not modelled; `WebrtcRelay.Handler.RotationTick` only reports the exit.
- `time.Sleep`, the `%+v`/`Printf` logging, and any RTP header field other than timestamp, sequence number and SSRC are left out; the rest of the packet is opaque payload.
- main.go creates a screen output track (main.go:89-104) but starts no writer for it, so it is not modelled.
- The HTTP `/offer` and `/track-status` endpoints, answer timeouts, drop-on-full queues and session re-arming are not modelled because the code does not implement them.
