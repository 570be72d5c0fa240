# Verification of remote-au

A Dafny model of the parts of remote-au that carry state and arithmetic, with proofs of what they are for.
`dafny verify dfyconfig.toml` checks everything.

The program sends audio from several senders to one mixing receiver over lossy datagrams. The model has five parts.

1. **Codec** (`Adpcm`, `Codec`). One channel of IMA ADPCM, the stereo and the 24 kHz mono packet formats, and the
   dispatch over codecs. The encoder quantises greedily; a distance lies in exactly one *cell*, and the point that the
   decoder reconstructs lies in the same cell, on the same side, even after clamping. Hence re-encoding decoded audio
   is exact.
2. **Jitter buffer** (`Playout`, `PlayoutPush`, `PlayoutRetarget`, `PlayoutPull`, `PlayoutCounts`, `PlayoutRuns`,
   `PlayoutPriming`, `PlayoutRestart`, `PlayoutLedger`, `PlayoutFollow`, `JitterBuffer`). The class updates its fields in place, against operations on a value. A pull refines an infinite
   timeline of frames with holes; packets are conserved.
3. **Session protocol** (`Replay`, `Wire`, `Utf8`, `Secure`, `PeerStats`, `SenderModel`, `ReceiverModel`, `SenderEngine`,
   `MixerEngine`, `ReceiverEngine`, `Reception`, `ReceiverTable`, `ActivePeers`, and the `World` modules). The replay bitmap represents a set;
   packets parse back to what was assembled; the engines update their fields against value-level senders and receivers.
   `World` puts any number of senders, the receiver and its listeners on a network that drops, repeats, reorders,
   alters and invents datagrams, with an ideal cipher: a box opens only under the key, counter and header it was sealed
   with, and the network cannot make boxes. A run's hypotheses are stated in `World.Enabled`: an epoch is not bound
   again after another one, the receiver's new epochs are new, and no counter reaches the end of 64 bits. Its logs of
   what was captured, pushed, counted and played only record; no step depends on them.
4. **Loss accounting and adaptation** (`LossMeter`, `JitterMeter`, `Adapt`). The counters summarise the arrival history;
   jitter, probe floor, profile and pacing.
5. **Go buffers and gap tracker** (`Ring`, `PcmRing`, `FrameQueue`, `Chunker`, `GapTracker`, `CaptureTimeline`).
   Wrap-around byte arrays refine drop-oldest queues; the chunker and the tracker together rebuild the capture timeline.

Integers are unbounded in Dafny; saturation, wrap-around and truncation are written out where the code has them
(`PlusSat`, `MinusSat`, `WrapMul`, `TruncDiv`, the `UInt64` and `Sample` types). Time, fresh epochs, source addresses and the outcome
of a `TryLock` are arguments.

Where code and documentation or names disagree, the model follows the code:

- The audio encoder accepts payloads up to the whole datagram limit, 19 bytes more than the decoder takes; the round
  trip holds exactly when prefix and payload fit (`Wire.AudioRoundTrip`; `Wire.LongPayloadIsLost` is an input where it
  does not).
- `MAX_STREAMS` bounds the mixer's streams, not the active peers: the exact condition is
  `ActivePeers.ActiveStayBoundedIff`, over runs `ActivePeers.RunStaysBoundedIff`, and `ActivePeers.NineBecomeActive` is a
  run that breaks the bound.
- Binding to an earlier epoch again restarts the counters; the exact condition for a repeated counter is
  `WorldTheorems.RebindingRepeatsIff`.
- A late packet counts as discarded although it never entered the buffer, and a jump drops packets without counting
  them: the exact condition is `PlayoutLedger.DiscardsAgreeIff`, what is conserved all the same is
  `PlayoutLedger.PacketsAreConserved`, and `PlayoutLedger.LateAndJumpDisagree` shows both cases.

## Model

| member | source | states |
|---|---|---|
| `Adpcm.EncodeNibble` | `src/protocol/codec.rs:67-98` | the greedy bit loop with its table, clamps and sign computes the nibble of the cell that the distance to the prediction lies in, and moves the predictor as the decoder will |
| `Adpcm.DecodeNibble` | `src/protocol/codec.rs:100-121` | the bit tests move the predictor by the lower end of the nibble's cell plus an eighth of the step, clamped; predictor and index stay in range for any nibble |
| `Adpcm.GreedyCode` | `src/protocol/codec.rs:75-89` | the magnitude bits chosen greedily are those of the only cell that holds the distance, and `vpdiff` is that cell's reconstruction distance |
| `Adpcm.GreedyFindsTheCell` | `src/protocol/codec.rs:75-89` | subtracting step, half and quarter whenever they fit finds the cell for every step and distance |
| `Adpcm.CellIsUnique` | `src/protocol/codec.rs:67-98` | cells of one step do not overlap: a distance has one magnitude code |
| `Adpcm.ReconstructionKeepsItsNibble` | `src/protocol/codec.rs:67-121` | quantising a reconstructed sample under the same predictor gives back its nibble, sign included, also when the predictor is clamped at either end of 16 bits |
| `Adpcm.EncodeDecodeEncode` | `src/protocol/codec.rs:67-121` | for every predictor and sample sequence, encode(decode(encode(x))) = encode(x), nibble for nibble |
| `Adpcm.ErrorIsBounded` | `src/protocol/codec.rs:67-98` | outside overload (gap below two steps) the decoded sample is within step/8 + 2 of the original |
| `Adpcm.OverloadClosesTheGap` | `src/protocol/codec.rs:67-98` | in overload the gap shrinks by exactly step + step/2 + step/4 + step/8, unclamped, and the index rises by 8 |
| `Adpcm.OverloadNeverReturns` | `src/protocol/codec.rs:67-98` | out of overload, coding the same sample again does not bring it back, though the step may shrink |
| `Adpcm.HeldInputLeavesOverload` | `src/protocol/codec.rs:67-98` | from any predictor a held input is out of overload from the eleventh sample on, for good |
| `Adpcm.ConstantIsExact` | `src/protocol/codec.rs:67-98` | a constant signal that starts on its own prediction is coded without error |
| `Adpcm.StepFollowsTheGap` | `src/protocol/codec.rs:67-98` | the index rises exactly if the gap to the prediction is at least one step, by 2 and by 2 more for each quarter step beyond, and falls by 1 otherwise, within 0 and 88 |
| `Adpcm.StepsGrowByATenth` | `src/protocol/codec.rs:19-29` | each step is eleven tenths of the one before, but for rounding, and the last one is the largest 16-bit value |
| `Codec.EncodeStereo` | `src/protocol/codec.rs:123-139` | the interleaved loop writes the two headers and one byte of two nibbles per frame, low nibble left: the payload defined channel by channel |
| `Codec.DecodeStereo` | `src/protocol/codec.rs:141-160` | the loop decodes any 246-byte payload to the interleaving of what the two predictors produce, and refuses any other length |
| `Codec.EncodeMono24` | `src/protocol/codec.rs:181-202` | the mono encoder packs the nibbles of the downsampled signal two to a byte, the last one alone; the signal is the mean of both channels (`Codec.DownsampledIsTheMean`), and the payload is laid out as `Codec.MonoLayout` says |
| `Codec.DecodeMono24` | `src/protocol/codec.rs:204-226` | the mono decoder unpacks, decodes and doubles; any other length is refused |
| `Codec.Downsample24kMono` | `src/protocol/codec.rs:162-170` | each mono sample is a quarter of the sum of two samples of the left channel and two of the right, cut towards zero |
| `Codec.Upsample24kMono` | `src/protocol/codec.rs:172-179` | each mono sample becomes two stereo frames, equal on both channels |
| `Codec.DownsampledIsTheMean` | `src/protocol/codec.rs:162-170` | downsampling two channels: four times the result is their sum but for less than four, and never beyond it |
| `Codec.StereoLayout` | `src/protocol/codec.rs:123-139` | where each first sample, index and nibble is in a stereo payload: left before right, left nibble low |
| `Codec.MonoLayout` | `src/protocol/codec.rs:181-202` | where they are in a mono payload: a zero byte after the index, and the earlier nibble low |
| `Codec.StereoDecodes` | `src/protocol/codec.rs:141-160` | for any 246 bytes, either channel starts from its own header, an index beyond the table taken as its end, and follows its own nibbles |
| `Codec.MonoDecodes` | `src/protocol/codec.rs:204-226` | for any 64 bytes, both channels play each decoded sample twice |
| `Codec.PayloadIff` | `src/protocol/codec.rs:27-37` | exactly 960 bytes under one of three codecs are encoded, to 960, 246 or 64 bytes; PCM is left as it is |
| `Codec.PcmIff` | `src/protocol/codec.rs:39-46` | exactly those lengths are decoded, to 960 bytes |
| `Codec.DownsampleUndoesUpsample` | `src/protocol/codec.rs:162-179` | downsample(upsample(m)) = m for every 120-sample signal |
| `Codec.EncodeCanonical` | `src/protocol/codec.rs:27-37` | dispatch by codec; refuses unknown codecs and chunks that are not 960 bytes |
| `Codec.DecodeCanonical` | `src/protocol/codec.rs:39-46` | dispatch by codec and exact payload length; whatever it accepts becomes 960 bytes |
| `Codec.StereoDecodesInLockstep` | `src/protocol/codec.rs:123-160` | decoding an encoded stereo packet gives, per channel, the samples the encoder's own predictor went through |
| `Codec.StereoIsAProjection` | `src/protocol/codec.rs:123-160` | stereo ADPCM: encode(decode(encode(pcm))) = encode(pcm), byte for byte, for every 960-byte packet |
| `Codec.MonoIsAProjection` | `src/protocol/codec.rs:162-226` | the same for 24 kHz mono ADPCM |
| `Codec.EveryCodecIsAProjection` | `src/protocol/codec.rs:27-46` | decoding an encoder's output never fails, for any codec, and re-encodes to the same payload |
| `Codec.ConstantStereoIsExact` | `src/protocol/codec.rs:123-160` | packets constant on each channel survive stereo ADPCM exactly |
| `Codec.ConstantMonoIsExact` | `src/protocol/codec.rs:162-226` | packets constant and equal on both channels survive mono ADPCM exactly |
| `JitterBuffer.JitterBuffer.Push` | `src/mixer/jitter.rs:100-154` | the whole new state and the verdict are those of the value-level push, which `Playout.PushMeaning`, `Playout.PushRefuses`, `PlayoutPush.PushCursor` and `PlayoutPush.PushPrimesIff` pin down; keeps the invariant |
| `JitterBuffer.JitterBuffer.Pull` | `src/mixer/jitter.rs:155-203` | writes exactly the frames of the timeline from the cursor on, leaves the rest of the destination alone, and the new state is the value-level pull, which `PlayoutPull.PlayedPosition` and `PlayoutCounts.PullCounts` pin down |
| `JitterBuffer.JitterBuffer.SetTargetPackets` | `src/mixer/jitter.rs:52-65` | clamps, un-primes when the queue is too short for a larger target, and trims, as `PlayoutRetarget.RetargetExactly` says |
| `JitterBuffer.JitterBuffer.SetTargetMs` | `src/mixer/jitter.rs:66-68` | milliseconds are clamped to 20..150 and rounded up to whole packets, between 4 and 30 |
| `JitterBuffer.JitterBuffer.TrimLatency` | `src/mixer/jitter.rs:86-99` | if the newest packet is more than target + 2 ahead of the cursor, keeps the last `target` numbers and counts what it drops |
| `JitterBuffer.JitterBuffer.EvictDownToSize` | `src/mixer/jitter.rs:135-144` | the eviction loop leaves at most 32 packets, dropping the first ones and moving a cursor that pointed at them |
| `Playout.PushMeaning` | `src/mixer/jitter.rs:100-154` | a push that takes its packet: into an emptied buffer exactly if the number jumps (`PlayoutLedger.BaseIs`), the packet joins, everything at or past the new cursor stays, the rest is counted as discarded, the cursor of a started buffer only moves forward |
| `Playout.PushRefuses` | `src/mixer/jitter.rs:100-127` | a refused push changes nothing but the pending restart, and the discard counter exactly for a late packet |
| `PlayoutPush.PushPrimesIff` | `src/mixer/jitter.rs:100-154` | a push that takes its packet leaves the buffer primed if and only if it was and no jump empties it, or the frames from the cursor to the end of the newest packet reach the target; says which cursor: where it was if playout goes on, else the first packet kept |
| `PlayoutPush.PushCursor` | `src/mixer/jitter.rs:86-154` | the cursor that a push leaves: at the start of the last `target` numbers if the newest packet is more than target + 2 ahead of where it would be, else where playout is or, if it has not begun, at the first packet |
| `PlayoutRetarget.RetargetExactly` | `src/mixer/jitter.rs:52-65` | a new target in full: the clamped value, the cursor, what is dropped and counted, and when the buffer must fill up again |
| `PlayoutRetarget.LargerTargetUnprimesIff` | `src/mixer/jitter.rs:52-84` | a larger target stops playout if and only if the way from the cursor to the end of the newest packet is shorter than it |
| `PlayoutRestart.NothingIsLateAfterStarvation` | `src/mixer/jitter.rs:100-127` | from a starvation until playout goes on, a well-formed packet whose number is not there is taken, in whatever order they come |
| `PlayoutRestart.SecondIsTaken` | `src/mixer/jitter.rs:100-127` | after a starvation the second packet is taken even if its number is smaller than the first one's |
| `PlayoutRestart.EmptyBufferRefills` | `src/mixer/jitter.rs:100-154` | an empty buffer at rest that is given consecutive packets up to its target holds just these, plays from the first, and is primed exactly once it has been given all |
| `PlayoutRestart.FirstPacketSounds` | `src/mixer/jitter.rs:155-203` | then the first pull of a packet's length gives the first packet, as it came |
| `PlayoutCounts.PullCounts` | `src/mixer/jitter.rs:155-203` | a pull counts as underrun each frame it does not play, as lost each packet it passes and does not have, and as starved exactly that it ran dry, which stops playout and schedules the restart; an unprimed buffer is left alone |
| `PlayoutLedger.DiscardsAgreeIff` | `src/mixer/jitter.rs:100-154` | the discard counter moves by what leaves the buffer if and only if the packet is not late and is not so far ahead of the cursor that it empties a buffer that holds something |
| `PlayoutLedger.PushBalances` | `src/mixer/jitter.rs:100-154` | one push: buffered + entered + counted as late = buffered + discarded + jumped over |
| `PlayoutLedger.PacketsAreConserved` | `src/mixer/jitter.rs:52-203` | over every run: what was there and arrived = what is queued, taken out by pulls, discarded after entering, or dropped by a jump |
| `PlayoutLedger.TakenIsPlayed` | `src/mixer/jitter.rs:155-203` | what pulls take out has been played: of a packet that a pull removes, the pull plays every frame at or past the cursor, also when it runs dry |
| `PlayoutLedger.LateAndJumpDisagree` | `src/mixer/jitter.rs:100-127` | a buffer that plays packet 5 on which number 4 is counted as discarded though nothing left, and number 70 empties the buffer uncounted |
| `Playout.PullKeepsValid` | `src/mixer/jitter.rs:155-203` | pulling keeps the invariant: packets at or past the cursor, offset inside a packet, at most 32 packets, newest at most target + 2 ahead, no cursor means no packets and not primed, starved means nothing buffered (so the restart drops nothing) |
| `Playout.RetargetKeepsValid` | `src/mixer/jitter.rs:52-65` | so does a new target |
| `PlayoutRuns.StepKeepsValid` | `src/mixer/jitter.rs:52-203` | so does every operation, hence every run |
| `PlayoutPull.PlayedPosition` | `src/mixer/jitter.rs:155-203` | a pull of n frames that does not run dry ends n frames on, with exactly the packets before the new cursor removed |
| `PlayoutPull.ChunkingIsInvisible` | `src/mixer/jitter.rs:155-203` | pull(a) then pull(b) emits the bytes of pull(a + b) and leaves the same state; only the underrun counter can differ, by b, and only if the first part ran dry |
| `PlayoutPull.AfterTheEnd` | `src/mixer/jitter.rs:155-203` | everything after the last buffered packet is concealed silence |
| `PlayoutRuns.PlayoutNeverGoesBack` | `src/mixer/jitter.rs:86-203` | between two starvations the cursor never decreases and the frames played come out in strictly increasing order, under any pushes, evictions, jumps, trims, retargets and pulls |
| `PlayoutRuns.NoFrameIsPlayedTwice` | `src/mixer/jitter.rs:100-203` | over any run that pushes no number twice, no frame is played twice, across starvation restarts and jumps |
| `PlayoutFollow.WaitingIsPlayedOrWaits` | `src/mixer/jitter.rs:86-203` | the dual: over any run whose pushes and retargets do not drop its packet, a buffered frame at or past the cursor is played, or still waits there |
| `PlayoutFollow.PushResets` | `src/mixer/jitter.rs:86-154` | a push that moves the cursor leaves it at the start of a packet |
| `PlayoutPriming.QueueIsBounded` | `src/mixer/jitter.rs:75-99` | at most target + 3 packets are queued after every operation |
| `PlayoutPriming.FeedingPrimes` | `src/mixer/jitter.rs:100-161` | re-priming never gets stuck: target + 1 pushes of consecutive new numbers prime any unprimed buffer, whatever pulls are interleaved |
| `Replay.ReplayWindow.Commit` | `src/crypto/replay.rs:21-38` | accepts exactly the fresh numbers (positive, unused, less than a window below the largest) and adds them to the accepted set; the bitmap represents that set's part of the window and the base follows the largest number |
| `Replay.ReplayWindow.Mark` | `src/crypto/replay.rs:40-52` | tests and sets one flag, and no other |
| `Replay.ReplayWindow.Slide` | `src/crypto/replay.rs:60-84` | moving the base keeps the flags of the numbers that stay in the window, across word boundaries and for windows that are not multiples of 64 |
| `Replay.ReplayWindow.ShiftedDown` | `src/crypto/replay.rs:70-82` | the copying loop shifts the whole bitmap down |
| `Replay.ReplayWindow.constructor` | `src/crypto/replay.rs:11-19` | the window is clamped to 64..4096 and starts with nothing accepted |
| `Replay.VerdictFromHistory` | `src/crypto/replay.rs:21-84` | over any run the verdict depends on the history of offers alone: first offer, and less than a window below the largest number offered |
| `Replay.TestBit` | `src/crypto/replay.rs:40-52` | the masked test reads one bit of the word |
| `Replay.SetBit` | `src/crypto/replay.rs:40-52` | the union with a mask changes one bit and no other |
| `LossMeter.Meter.Observe` | `src/transport/receiver.rs:358-386` | keeps the counters a summary of the whole arrival history: `lost` is the number of sequence numbers below the horizon that did not arrive before any number more than 32 ahead; the counters in place follow the tally that the session table holds |
| `LossMeter.Meter.AdvanceInBulk` | `src/transport/receiver.rs:370-379` | the bulk path meets the same specification as the loop: same loss, same cursor, same remembered numbers from the cursor on |
| `LossMeter.Meter.AdvanceOneByOne` | `src/transport/receiver.rs:380-386` | the one-by-one loop meets it too |
| `LossMeter.SummaryStep` | `src/transport/receiver.rs:358-386` | one arrival moves the summary: old verdicts stand, and the new losses are exactly the gaps the cursor passes |
| `LossMeter.TallySumsHistory` | `src/transport/receiver.rs:358-386` | whatever number arrives, the tally of a peer goes on summarising its whole history, on the bulk path and on the loop |
| `LossMeter.PassedIsForgotten` | `src/transport/receiver.rs:358-386` | what the cursor passes is forgotten, by the loop one number at a time and by the bulk path with all stragglers |
| `LossMeter.VerdictIsFinal` | `src/transport/receiver.rs:358-386` | a later arrival never changes the verdict on a number behind the horizon |
| `LossMeter.SmallReorderingIsNotLoss` | `src/transport/receiver.rs:358-386` | if all of 1..n arrive and none more than 16 places from its turn, none is counted as lost |
| `LossMeter.FewNumbersAboveTheCursor` | `src/transport/receiver.rs:358-386` | at most 33 remembered numbers lie at or above the cursor |
| `JitterMeter.EstimateIsSmoothed` | `src/transport/receiver.rs:282-296` | over any arrivals the jitter estimate is the smoothed sequence of differences between successive transit times; the first packet only sets the transit |
| `JitterMeter.JitterIsBounded` | `src/transport/receiver.rs:282-296` | the jitter reported is no more than the largest such difference; with equal transit times it is zero |
| `JitterMeter.StartFades` | `src/transport/receiver.rs:282-296` | where the estimate started fades by a sixteenth with each packet, whatever arrives |
| `JitterMeter.OffsetDoesNotMatter` | `src/transport/receiver.rs:282-296` | the clocks of sender and receiver need not agree: a fixed offset leaves the estimate as it is, as long as neither clock is past 63 bits |
| `PeerStats.AudioIsFollowed` | `src/transport/receiver.rs:282-298` | over any audio of a new peer its jitter is that of the packets, and its send time, arrival and suggested buffer are the last packet's |
| `PeerStats.BlankReport` | `src/transport/receiver.rs:400-425` | the first report of a peer that has sent nothing is blank |
| `PeerStats.ProbesAddUp` | `src/transport/receiver.rs:310-330` | a new generation of probes starts from nothing and adds up: for each step the bytes that arrived and the first and last arrival |
| `PeerStats.SpanIsReported` | `src/transport/receiver.rs:338-355` | a step's span is the time between those arrivals, the longest there is if they were not apart, and none if nothing came |
| `PeerStats.TargetIsTheLarger` | `src/transport/receiver.rs:205-209` | a report's buffer target is the larger of the receiver's own and the one the sender suggests, 150 ms at most |
| `PeerStats.StarvationsCountOnce` | `src/transport/receiver.rs:197-206` | each starvation counts in one report |
| `Wire.AssembledParses` | `src/protocol/wire.rs:56-104` | every well-formed header and ciphertext parses back to itself |
| `Wire.ParsedIsAssembled` | `src/protocol/wire.rs:56-104` | whatever parses is what assembling its parts produces |
| `Wire.PacketLayout` | `src/protocol/wire.rs:85-104` | where magic, version, kind, epoch, session, counter and ciphertext are in a packet |
| `Wire.AudioRoundTrip` | `src/protocol/wire.rs:126-151` | an encoded audio body decodes to itself if and only if prefix and payload fit the datagram limit; the encoder alone lets 19 bytes more through |
| `Wire.LongPayloadIsLost` | `src/protocol/wire.rs:126-151` | a payload of 1182 bytes is one that the encoder takes and the decoder does not |
| `Wire.AudioDecodedEncodes` | `src/protocol/wire.rs:126-151` | whatever the audio decoder accepts encodes back to the same bytes |
| `Wire.AudioLayout` | `src/protocol/wire.rs:126-138` | where each field of an audio body is, most significant byte first |
| `Wire.AudioEncodesIff` | `src/protocol/wire.rs:126-129` | the encoder takes payloads up to 1200 bytes |
| `Wire.ProbeRoundTrip` | `src/protocol/wire.rs:204-230` | probe bodies decode to what was encoded |
| `Wire.ProbeDecodedEncodes` | `src/protocol/wire.rs:204-230` | and whatever the probe decoder accepts encodes back |
| `Wire.ProbeLayout` | `src/protocol/wire.rs:204-215` | where each field of a probe is |
| `Wire.FeedbackRoundTrip` | `src/protocol/wire.rs:155-202` | feedback bodies decode to what was encoded |
| `Wire.FeedbackDecodedEncodes` | `src/protocol/wire.rs:155-202` | and every 82-byte string is the encoding of its decoding: a bijection |
| `Wire.FeedbackLayout` | `src/protocol/wire.rs:155-175` | where each field of a feedback body is |
| `Wire.HelloRoundTrip` | `src/protocol/wire.rs:106-124` | a hello carries the longest prefix of the name, in whole characters, that fits 64 bytes |
| `Wire.HelloLayout` | `src/protocol/wire.rs:106-115` | a hello is the length of the clipped name in one byte, and the name |
| `Wire.Clip` | `src/protocol/wire.rs:232-241` | the clipping loop returns that prefix |
| `Utf8.DecodeEncoded` | `src/protocol/wire.rs:117-124` | decoding the UTF-8 form of a name gives the name |
| `Utf8.OneOfEachLength` | `src/protocol/wire.rs:117-124` | one character of each length, spelled out |
| `Wire.SealedOpens` | `src/transport/packet.rs:12-44` | with any correct authenticated cipher, sealing succeeds exactly for positive counters and bodies that fit, and opening gives back kind, epoch, session, counter and body |
| `Wire.OpensIffSealed` | `src/transport/packet.rs:12-44` | with a cipher that opens only what it seals, a byte string opens to something if and only if it is the packet that sealing makes of that, under a known kind: nothing else gets in, byte for byte |
| `WorldBytes.OpensAlike` | `src/transport/packet.rs:34-44` | given what has been sealed, bytes open under any key to exactly what the box they stand for holds, unless somebody forged a ciphertext for that key |
| `WorldBytes.SealsAlike` | `src/transport/packet.rs:12-32` | sealing makes bytes exactly when it makes a box, and the bytes stand for the datagram that carries the box |
| `WorldBytes.HeaderDecides` | `src/protocol/wire.rs:85-104` | a header is that of one kind, epoch, session and counter |
| `Wire.Seal` | `src/transport/packet.rs:12-32` | the header filled in place and authenticated is the one that the assembled packet carries |
| `Wire.AssembleInto` | `src/protocol/wire.rs:85-104` | the buffer filled in place is the assembled packet, and too long a ciphertext is refused |
| `Adapt.PlanProbe` | `src/transport/adapt.rs:53-81` | the train is the longest prefix of the full one that fits the byte budget |
| `Adapt.TrainRunsAtItsRates` | `src/transport/adapt.rs:53-81` | each packet is spaced so that its bits go out at exactly the rate of its step |
| `Adapt.NothingOverflows` | `src/transport/adapt.rs:83-98` | the floor computation stays below 2^64 for all 32-bit measurements |
| `Adapt.HighestSustainableStep` | `src/transport/adapt.rs:103-125` | the floor is the largest rate that a step proves, and there is none exactly if no step proves any; what a step proves is pinned down by `Adapt.ProvenIff` |
| `Adapt.ProvenIff` | `src/transport/adapt.rs:103-125` | a rate is proved if and only if at least nine tenths arrived, it is neither beyond the step's own nor beyond 8 Mbps and, if both spans were measured, it fits what went out and what came in |
| `Adapt.FullTrainProvesItsRate` | `src/transport/adapt.rs:53-125` | a train that arrives in full over no more than the gaps it was sent with proves its rate |
| `Adapt.TrainStepsInOrder` | `src/transport/adapt.rs:53-81` | the steps come in order, 20 packets of 875 bytes each |
| `Adapt.WireBytesAreWholePieces` | `src/transport/adapt.rs:83-90` | a part of an 800-byte piece counts as a whole one of 875 bytes on the wire |
| `Adapt.GoodputFitsTheTime` | `src/transport/adapt.rs:92-97` | the goodput is the largest whole rate at which the bits fit into the time |
| `Adapt.ProfileFitsTheStep` | `src/transport/adapt.rs:134-140` | at the rate of a probe step the profile chosen is the best one whose packets fit that rate on the wire |
| `Adapt.ProfileFollowsTheSteps` | `src/transport/adapt.rs:134-140` | between the steps the lower one decides |
| `Adapt.NoFloorNoQuality` | `src/transport/adapt.rs:134-140` | below the lowest step, or without a floor, the worst profile is chosen |
| `Adapt.FloorIsMonotone` | `src/transport/adapt.rs:103-140` | more received bytes or shorter positive spans never lower the floor and never worsen the profile |
| `Adapt.AdaptState.ApplyFloor` | `src/transport/adapt.rs:167-180` | a worse floor applies at once, a better one at once or one step at a time; the profile is never better than the floor supports |
| `Adapt.AdaptState.Observe` | `src/transport/adapt.rs:182-213` | heavy loss, or moderate loss twice in a row, costs one step; the target moves by at most 10 ms towards what is wanted |
| `Adapt.DegradesIff` | `src/transport/adapt.rs:182-213` | quality falls by one step for heavy loss at once and for moderate loss the second time in a row, and only then |
| `Adapt.IsolatedLossCostsNothing` | `src/transport/adapt.rs:182-213` | over any run, single reports of moderate loss between good ones cost nothing |
| `Adapt.PersistentLossDegrades` | `src/transport/adapt.rs:182-213` | over any run, persistent loss ends at the worst profile after four reports at most |
| `Adapt.WantedCovers` | `src/transport/adapt.rs:182-200` | the buffer wanted covers the profile's own 20, 40 or 80 ms, the jitter and half the round trip, and 20 ms if there were underruns, within 20 and 150 ms |
| `Adapt.TowardsIsCloser` | `src/transport/adapt.rs:182-200` | each report moves the target 10 ms closer to that, or onto it |
| `Adapt.BurstIsBounded` | `src/transport/adapt.rs:272-278` | if no wake-up precedes its time, any n consecutive ones span at least 5000(n - 4) microseconds |
| `Adapt.GridIffPunctual` | `src/transport/adapt.rs:272-278` | the schedule keeps its 5 ms grid exactly if no wake-up is more than 15 ms late |
| `Adapt.PaceRule` | `src/transport/adapt.rs:272-278` | a wake-up no more than 15 ms late keeps the schedule; after a later one the next is 5 ms from then |
| `Adapt.TargetStaysInRange` | `src/transport/adapt.rs:255-269` | over any run of reports the receiver's own target stays between 20 and 150 ms, and the last `stable` reports had no underruns |
| `Adapt.TargetMovesSlowly` | `src/transport/adapt.rs:255-269` | one report moves it by at most 15 ms up, 5 without an underrun, or 5 down, and down only as the third calm report in a row |
| `Adapt.TargetRises` | `src/transport/adapt.rs:255-269` | an underrun raises the target by 15 ms, jitter that it does not cover with 20 ms to spare by 5, never beyond 150 |
| `Adapt.JitterIsCovered` | `src/transport/adapt.rs:255-269` | over any run persistent jitter is covered, 5 ms a report at least, with 15 ms to spare |
| `Adapt.CalmRecoversIff` | `src/transport/adapt.rs:255-269` | from any target, reports without underruns and with jitter below a millisecond bring it back to 20 ms if and only if as many have come as were left: three for each 5 ms above, less those already counted, 78 at most |
| `SenderEngine.SenderEngine.BindPeer` | `src/transport/sender.rs:131-157` | takes over the address, the name and the instance; a new epoch starts counters, window and measurements afresh but keeps round trip, jitter, goodput and adaptation; the same epoch changes nothing else; says which |
| `SenderEngine.SenderEngine.BeginProbe` | `src/transport/sender.rs:159-165` | a new probe generation, never 0, forgets what the one before measured, and nothing else |
| `SenderEngine.SenderEngine.Hello` | `src/transport/sender.rs:167-170` | seals the clipped name under the next counter |
| `SenderEngine.SenderEngine.Audio` | `src/transport/sender.rs:172-183` | seals the encoded chunk with the next audio number under the next counter; a chunk the codec refuses changes nothing |
| `SenderEngine.SenderEngine.Probe` | `src/transport/sender.rs:185-200` | notes the step's first and last sending times and seals one probe |
| `SenderEngine.SenderEngine.HandleFeedback` | `src/transport/sender.rs:202-249` | obeys feedback exactly if it opens under the bound epoch, its counter is new and it decodes; states the path taken over (`SenderEngine.RoundTripIsMeasured`, `SenderEngine.LossIsTheShare`), and exactly what becomes of profile, streak and buffer target at every loss |
| `SenderEngine.RoundTripIsMeasured` | `src/transport/sender.rs:220-223` | the round trip is the way there and the way back, without the time the receiver held the packet |
| `SenderEngine.LossIsTheShare` | `src/transport/sender.rs:225-234` | the loss is the share of the packets newly lost among those newly counted |
| `SenderEngine.OldProbesAreIgnored` | `src/transport/sender.rs:237-240` | what a report of an older generation says of probes is not taken over |
| `SenderEngine.ForgottenCountsAfresh` | `src/transport/sender.rs:131-157` | after a new epoch the receiver's counters are taken to start from nothing |
| `SenderModel.FeedbackIsObeyedIff` | `src/transport/sender.rs:202-216` | feedback uses up its counter if and only if it opens under the bound epoch, is feedback, and the counter is fresh |
| `SenderModel.BindingStartsAfresh` | `src/transport/sender.rs:131-157` | a new epoch begins with no counter used, no audio sent and an empty window; the same epoch changes nothing |
| `SenderEngine.SenderEngine.NoteProbe` | `src/transport/sender.rs:251-269` | the goodput is the floor of the measured steps; profile and buffer target are exactly those that the floor gives, at once or one step at a time |
| `SenderEngine.SenderEngine.Seal` | `src/transport/sender.rs:297-314` | one counter per packet, none without an epoch |
| `SenderModel.AudioCarries` | `src/transport/sender.rs:172-183` | below the end of 64 bits an audio packet carries the next number, the next counter and a body that decodes to exactly what was put in |
| `SenderModel.HelloCarries` | `src/transport/sender.rs:167-170` | hellos always fit and are sealed |
| `SenderModel.ProbeCarries` | `src/transport/sender.rs:185-200` | a probe is sealed exactly if its payload and step are allowed, and otherwise uses no counter |
| `MixerEngine.Mixer.constructor` | `src/mixer/mod.rs:49-64` | starts without streams, with a target of 4 packets, or 1 if a packet has fewer than 240 frames |
| `MixerEngine.Mixer.EnsureStream` | `src/mixer/mod.rs:80-111` | an existing stream is renamed and touched, a new one gets a fresh buffer with the default target, and only a ninth stream is refused |
| `MixerEngine.Mixer.PushPacket` | `src/mixer/mod.rs:171-180` | the packet goes to the buffer of its stream and to no other |
| `MixerEngine.Mixer.ExpireIdle` | `src/mixer/mod.rs:182-195` | removes exactly the streams idle for the limit or longer, and reports exactly those |
| `MixerEngine.Mixer.SetStreamTargetMs` | `src/mixer/mod.rs:150-160` | one stream's buffer takes the target, milliseconds turned into packets, and the others are left alone |
| `MixerEngine.Mixer.SetTargetPackets` | `src/mixer/mod.rs:162-169` | every stream's buffer takes the target and the default is clamped to 1..32 |
| `MixerEngine.Mixer.Touch` | `src/mixer/mod.rs:119-125` | only the time of one stream changes |
| `ReceiverEngine.ReceiverEngine.HandleDatagram` | `src/transport/receiver.rs:93-175` | for every datagram the new table, mixer, epoch and counters are those of the value-level receiver, which `Reception` pins down kind by kind; each session keeps a replay window of its own |
| `ReceiverEngine.ReceiverEngine.AdmitNamed` | `src/transport/receiver.rs:122-141` | a full history turns the epoch, a full mixer turns the newcomer away, anyone else enters with a window that has seen the first counter |
| `ReceiverEngine.ReceiverEngine.UseUp` | `src/transport/receiver.rs:142-154` | a known session's counter is used up exactly if it is new and not too old; otherwise nothing changes |
| `ReceiverEngine.ReceiverEngine.Dispatch` | `src/transport/receiver.rs:155-175` | a hello resumes the session and opens its stream (`Reception.HelloResumes`), audio and probes count only for active sessions, other kinds are rejected |
| `ReceiverEngine.ReceiverEngine.ApplyAudio` | `src/transport/receiver.rs:273-303` | what decodes enters the peer's loss accounting and jitter estimate, sets its last transit, send and arrival times and suggested buffer, touches the stream and is pushed to its buffer; what does not is rejected and changes nothing else |
| `ReceiverEngine.ReceiverEngine.ApplyProbe` | `src/transport/receiver.rs:305-336` | a probe is added up under its generation and step, with first and last arrival, and sets the latest send and arrival times; a new generation forgets the one before |
| `ReceiverEngine.ReceiverEngine.RotateEpoch` | `src/transport/receiver.rs:389-396` | a new epoch forgets every peer and stream |
| `ReceiverEngine.ReceiverEngine.FeedbackDue` | `src/transport/receiver.rs:177-246` | each session is considered once; a due peer gets one report, computed from its statistics, its stream and the clock, under its next counter, and its stream the new target |
| `ReceiverEngine.ReceiverEngine.Feedback` | `src/transport/receiver.rs:177-246` | one peer's feedback: due after 400 ms; counts, jitter, age of the latest packet, spans and buffer target computed from the peer, its stream and the clock; sealed under the next counter; only a sealed packet is remembered |
| `ReceiverEngine.ReceiverEngine.Expire` | `src/transport/receiver.rs:248-256` | exactly the peers whose streams were removed turn inactive; all stay in the table |
| `Reception.HelloResumes` | `src/transport/receiver.rs:156-163` | a fresh hello from a known session makes it active under its new name and opens its stream: the buffer it had, or an empty one with the default target, unless eight others are open |
| `Reception.NewcomerEnters` | `src/transport/receiver.rs:107-141` | a newcomer that the history and the mixer have room for enters, active, with its counter used up, nothing measured, and a stream |
| `Reception.FullMixerRefuses` | `src/transport/receiver.rs:127-131` | a full mixer turns it away |
| `Reception.FullHistoryTurns` | `src/transport/receiver.rs:122-126` | a full history is given up for it: a new epoch, no peers and no streams |
| `Reception.OtherStrangersAreRefused` | `src/transport/receiver.rs:93-121` | whatever else comes from an unknown session is refused without trace |
| `Reception.AudioIsTaken` | `src/transport/receiver.rs:164-166` | audio from an active session that decodes is counted, noted in the peer's statistics, and pushed to its stream, which has heard it; no other stream or peer changes |
| `Reception.ProbeIsTaken` | `src/transport/receiver.rs:167-169` | a probe from an active session is noted, and its stream has heard it |
| `Reception.UselessIsRejected` | `src/transport/receiver.rs:170-175` | what does not decode, or has no use, uses up its counter and is rejected |
| `Reception.InactiveIsIgnored` | `src/transport/receiver.rs:164-171` | audio and probes of an inactive session use up their counters and are counted neither way |
| `Reception.EveryDatagramIsCounted` | `src/transport/receiver.rs:93-175` | every datagram is counted once, as received or rejected, if and only if it is not such a one |
| `Reception.ReportGoesOutIff` | `src/transport/receiver.rs:177-190` | a report goes out if and only if the peer is active and had none, or none for 400 ms |
| `Reception.ReportIsSealed` | `src/transport/receiver.rs:205-246` | it is sealed under the next counter, remembered, and the stream takes its target; nothing else changes |
| `Reception.PacketsCoverTheTarget` | `src/mixer/jitter.rs:66-68` | a target in milliseconds becomes just enough packets of 5 ms, between 4 and 30 |
| `Reception.ExpiryTakesTheIdle` | `src/transport/receiver.rs:248-256` | exactly the streams not heard for the limit go, and exactly their peers turn inactive |
| `ReceiverTable.HandleKeepsTable` | `src/transport/receiver.rs:93-175` | no datagram breaks the table: history within its cap, at most eight streams, every stream with a known active peer |
| `ReceiverTable.ExpireKeepsTable` | `src/transport/receiver.rs:248-256` | nor does expiry |
| `WorldNoise.UnopenedIsRefused` | `src/transport/receiver.rs:93-121` | a datagram that does not open changes nothing but the count of refusals |
| `WorldNoise.UsedIsRefused` | `src/transport/receiver.rs:142-154` | nor does one whose counter is used up, however much later it comes |
| `WorldNoise.RepeatIsRefused` | `src/transport/receiver.rs:93-175` | nor does any datagram that comes a second time, from wherever, unless the epoch was chosen again |
| `WorldNoise.NoiseIsInvisible` | `src/transport/receiver.rs:93-175` | over every run, leaving out the datagrams that are refused without trace leaves senders, peers, buffers, logs and sound the same, and the receiver exactly that many refusals fewer |
| `ReceiverTable.ActivePeersOutgrowStreams` | `src/transport/receiver.rs:156-163` | with eight streams taken, a peer that resumes becomes active without a stream, a ninth or later one |
| `ActivePeers.ActiveStayBoundedIff` | `src/transport/receiver.rs:93-175` | a datagram leaves at most eight peers active if and only if there are not already eight when a known inactive session resumes: a hello that opens and decodes, with a fresh counter |
| `ActivePeers.OtherEventsActivateNone` | `src/transport/receiver.rs:177-256` | feedback, expiry, settings and listeners never activate a peer |
| `ActivePeers.RunStaysBoundedIff` | `src/transport/receiver.rs:93-256` | over every run there are never more than eight active peers if and only if no session ever resumes while eight are active |
| `ActivePeers.NineBecomeActive` | `src/transport/receiver.rs:107-163` | a run from any world with nine unused senders that ends with nine active peers: eight join, one expires, a ninth joins, the expired one resumes |
| `WorldSafety.StepKeepsInv` | `src/transport/receiver.rs:93-256` | every step of senders, receiver, mixer and network keeps the invariant that ties counters, windows, buffers and logs together |
| `WorldSafety.OneBoxPerNumber` | `src/transport/sender.rs:172-183` | each audio number of an epoch and a session was sealed once |
| `WorldSafety.ReachingIsNew` | `src/transport/receiver.rs:145-175` | a packet that reaches a jitter buffer has a number that never reached one before under its epoch and session |
| `WorldReceiver.RotationKeepsInv` | `src/transport/receiver.rs:389-396` | a fresh epoch cannot let an old packet, counter or frame count again |
| `WorldReceiver.BufferStepKeepsInv` | `src/mixer/jitter.rs:100-203` | a buffer that takes a step keeps every session's log of played frames free of repetition |
| `WorldTheorems.EachNumberArrivesOnce` | `src/transport/receiver.rs:93-175` | over every run each (epoch, session, audio number) is handed to a jitter buffer at most once, and only if that session sealed it while bound to that epoch |
| `WorldTheorems.NoFrameIsEmittedTwice` | `src/transport/receiver.rs:93-303` | over every run no frame of an epoch and a session is played twice, and each frame played belongs to a packet that arrived: across starvation, expiry, resumption and epoch changes |
| `WorldTheorems.NoCounterIsSealedTwice` | `src/transport/sender.rs:131-314` | over every run no (key, counter) pair is sealed twice, in either direction; counters and audio numbers only go up |
| `WorldTheorems.TableStaysBounded` | `src/transport/receiver.rs:93-256` | over every run the history stays within its cap, the mixer within eight streams, and every stream belongs to an active known peer |
| `WorldTheorems.FeedbackIsObeyedOnce` | `src/transport/sender.rs:202-249` | over every run a sender obeys each feedback counter of an epoch at most once, and only feedback sealed for it |
| `WorldIntegrity.BufferedWasCaptured` | `src/transport/receiver.rs:273-303` | after any run, whatever the network did, every packet waiting to be played is what the codec makes of the very chunk that its session captured under that number and the present epoch |
| `WorldIntegrity.StepSlots` | `src/mixer/jitter.rs:86-203` | a buffer's step keeps packets as they are, drops some, and adds at most the one pushed |
| `WorldTheorems.CapturedIsHeard` | `src/transport/sender.rs:172-183` | an untouched audio packet opens, and the receiver makes of it what the codec makes of the captured chunk; with PCM, the chunk itself |
| `WorldFrames.SoundedWasPlayed` | `src/transport/receiver.rs:93-303` | after any run the log of sounds has an entry for each frame played, in order, and each is one whole frame of bytes |
| `WorldSound.WhatIsHeardWasCaptured` | `src/transport/receiver.rs:93-303` | after any run, whatever the network did, every frame that was ever played is whole and is, byte for byte, that frame of what the codec makes of the chunk its session captured under its number and epoch |
| `WorldLiveness.PushedIffFresh` | `src/transport/receiver.rs:142-175` | an untouched audio packet of an active session with a stream reaches the buffer if and only if its counter is fresh |
| `WorldLiveness.NextAudioGetsThrough` | `src/transport/receiver.rs:93-303` | after any run the next audio packet of a session bound to the receiver's epoch, active and with a stream reaches its buffer if it is delivered untouched |
| `WorldResume.GreetingConnects` | `src/transport/receiver.rs:107-163` | whoever is bound to the receiver's epoch and says hello is connected once the hello arrives, if there is room for its stream and, for a newcomer, in the history |
| `WorldResume.HelloThenAudioGetsThrough` | `src/transport/receiver.rs:93-303` | after any run, expiry included, such a session's next audio packet reaches its buffer |
| `WorldResume.ExpiredIsWelcome` | `src/transport/receiver.rs:248-256` | an expired session always finds room for its stream at once |
| `WorldLoss.StatisticsAreExact` | `src/transport/receiver.rs:358-386` | after any run each peer's counters are exact: what was counted are distinct audio numbers that its session sealed under the present epoch, `received` is how many, `lost` how many below the horizon did not arrive in time |
| `WorldLoss.ReportSaysSo` | `src/transport/receiver.rs:177-246` | a report that goes out carries those counters, the jitter estimate, the age of the latest packet, its send time, the stream's starvations and a buffer target between 15 and 150 ms |
| `WorldTargets.ReportsStayInRange` | `src/transport/receiver.rs:177-246` | after any run a report asks for a buffer between 20 and 150 ms; the 15 ms that the receiver would allow never come |
| `WorldSuggested.ReportsHeedTheSender` | `src/transport/receiver.rs:177-246` | after any run a report asks for the larger of the receiver's own target and what the audio packet counted last suggests, 150 ms at most, and the stream is set to it |
| `WorldReports.ReportsAreSpaced` | `src/transport/receiver.rs:177-246` | over every run at least 400 ms lie between two reports under one key, through expiry, resumption and whatever the network does |
| `WorldTheorems.RebindingRepeatsIff` | `src/transport/sender.rs:131-157` | after any run, binding and sealing repeats a counter under its key if and only if the epoch is another one that the session has sealed under before, or is the bound one with the counter at its last value |
| `WorldTheorems.ThereAndBackRepeats` | `src/transport/sender.rs:131-157` | the shortest such run: away from an epoch and back |
| `WorldTheorems.RunKeepsGapless` | `src/transport/sender.rs:297-314` | senders use their counters without gaps, from 1 on |
| `Ring.Append` | `internal/audio/ring.go:105-111` | writing in one piece or two appends to the queue that the read index and fill count stand for |
| `Ring.CopyOut` | `internal/audio/ring.go:123-129` | reading in one piece or two copies the front of the queue |
| `Ring.WritesKeepTheLast` | `internal/audio/ring.go:77-112` | over any run of writes a drop-oldest queue holds the last bytes of everything written, however it was cut |
| `PcmRing.PcmRing.TryWrite` | `internal/audio/ring.go:35-45` | keeps the newest bytes of queue and input in whole quanta and counts everything dropped; a busy lock drops the input's whole quanta; bytes offered = served + queued + dropped |
| `PcmRing.PcmRing.WriteLocked` | `internal/audio/ring.go:77-112` | the same with the lock held |
| `PcmRing.PcmRing.TryRead` | `internal/audio/ring.go:56-65` | takes a prefix of whole quanta and leaves the rest of the destination alone |
| `PcmRing.PcmRing.ReadLocked` | `internal/audio/ring.go:114-132` | the same with the lock held |
| `PcmRing.PcmRing.constructor` | `internal/audio/ring.go:17-33` | the size is whole quanta, at least one, and starts empty |
| `PcmRing.AlignUpIs` | `internal/audio/ring.go:138-147` | rounding up gives the next multiple of the quantum |
| `FrameQueue.NewFrameQueue` | `internal/mixer/jitterbuffer.go:43-75` | no format means the default one, watermarks that are not positive take their defaults, and exactly an invalid format or a target above the high watermark is an error; the new buffer is empty and unprimed |
| `FrameQueue.MillisInFrames` | `internal/mixer/jitterbuffer.go:226-232` | milliseconds become whole frames, rounded down, one at least |
| `FrameQueue.FrameQueue.Write` | `internal/mixer/jitterbuffer.go:77-104` | the content becomes the longest suffix of queue and whole input frames that fits; frames offered = served + queued + discarded; primes at the target |
| `FrameQueue.FrameQueue.Read` | `internal/mixer/jitterbuffer.go:106-149` | all or nothing: either the first frames asked for move to the reader, or only silence is written, the underrun counted and the queue left alone; states exactly when, and what becomes of priming |
| `FrameQueue.WantedIs` | `internal/mixer/jitterbuffer.go:106-120` | a read is for as many whole frames as were asked for, or as fit |
| `GapTracker.FrameTracker.Accept` | `internal/transport/receiver.go:517-550` | the verdict and the new expectations in unbounded arithmetic: stale below the expected number, gap by the capture clock or else by packets, capped |
| `GapTracker.FrameTracker.CapMissingPacketFrames` | `internal/transport/receiver.go:552-561` | the guarded product never overflows and is the capped product |
| `GapTracker.JudgedByClockOrPackets` | `internal/transport/receiver.go:517-550` | a frame is stale if and only if its number or a larger one was accepted; the gap is what the capture clock moved on, or the missing packets where it did not, capped |
| `GapTracker.FirstIsAccepted` | `internal/transport/receiver.go:517-530` | the first frame is accepted whatever its number |
| `GapTracker.UdpSource.HandleAudio` | `internal/transport/receiver.go:420-444` | hands the stream the gap's silence and then the payload; stale frames and payloads that are not frame-aligned leave it alone |
| `GapTracker.HandledIsHeard` | `internal/transport/receiver.go:420-444` | an accepted frame adds its gap in silence and then itself; any other leaves stream and tracker alone |
| `GapTracker.UdpSource.WriteSilence` | `internal/transport/receiver.go:457-472` | pieces of silence add up to the gap |
| `Chunker.Chunker.Poll` | `internal/transport/sender.go:248-274` | what is read, whole frames or not, becomes full packets numbered without gaps, each the last bytes captured; while all reads have been whole frames, each is cut from the capture where its capture frame says, without overlap |
| `Chunker.Chunker.Reconnect` | `internal/transport/sender.go:225-230` | a new connection drops a partial packet but keeps numbering and clock |
| `CaptureTimeline.SourceTracks` | `internal/transport/receiver.go:420-550` | whatever arrivals the network makes of the chunker's frames, the source tracks exactly those newest on arrival; each other one is counted as stale and changes nothing else; packets missing are counted |
| `CaptureTimeline.HandedSpansTheClock` | `internal/transport/receiver.go:420-583` | frames handed over = expected capture frame minus the first one, less exactly what the cap cut off the gaps |
| `CaptureTimeline.NothingTruncated` | `internal/transport/receiver.go:563-572` | nothing is cut off if and only if every gap between frames heard is within the cap |
| `CaptureTimeline.TimelineIsRebuilt` | `internal/transport/receiver.go:420-583` | then the stream gets the capture itself, byte for byte, with silence exactly where no heard frame covers it |

## Left out

- Daemon loop, sockets, discovery, command line, configuration, control channel, logging and install scripts: plumbing.
- Audio backends and device selection: foreign calls.
- ChaCha20-Poly1305, BLAKE2 and random ids: the cipher is ideal in `Secure`, any correct one in `Wire`; keys of distinct directions, epochs and sessions are distinct; fresh ids are hypotheses.
- Mixing gains, resampling and the synthesised tone: floating point. A loss ratio and the jitter estimate are `real` numbers, without rounding; the differences of transit times wrap as in a release build.
- `residence_us` and packet arrival times in the jitter buffer: wall-clock statistics with no effect on playout.
- `Mixer::pull`: the sum over streams is floating point; each stream's pull is a separate step of `World`, in any order.
- The clock is read once per call of the receiver here; the code reads it again for arrival times, ages and the mixer's idle times.
- The peer reports and the views of stream statistics: they only copy fields.
- `MixerEngine.Mixer.PushPacket`: the registry holds each jitter buffer by value; `JitterBuffer.JitterBuffer` shows the same operations in place.
- `MixerEngine.Mixer.SetTargetPackets`: in `World` the change of the default and of each stream are separate steps.
- The branch that removes a stream when a new session's first commit fails: it cannot be taken, since the counter is positive and the window new.
- The branch of the pull loop that stops when no frame is left in a packet, and length checks inside the decoders' loops: they cannot be taken.
- `JitterBuffer.JitterBuffer.QueuedFrames`: products of machine words wrap as in a release build; `PlayoutPriming.QueueIsBounded` assumes a packet size that does not wrap.
- Statistics counters that are u64 in the code (`packets_received`, `discarded`, `underruns`): unbounded here. `received` and `lost` saturate as in the code.
- Words of the replay bitmap are numbers with bitwise operations defined on them, not machine bit-vectors.
- `Wire.HelloRoundTrip`: the standard library's UTF-8 validation is modelled by decoding of shortest forms only.
- The Go tree's handshake, TCP framing, stream registration, idle cleanup and display: they would add only easy members.
- `Chunker.Chunker.Poll`: sequence number and capture clock stay below 2^64; where in the capture a frame lies is stated while all reads have been whole frames, as the capture ring's quantum makes them, since the clock counts whole frames only.
- `WorldBytes.OpensAlike`: that nobody forges a ciphertext, and that no two sealed packets have the same one, are hypotheses; computational security is not modelled.
- The network's byte encoding of the Go datagrams: frames are values here.
