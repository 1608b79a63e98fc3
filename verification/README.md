# Muxshed: a verified model of the live path

Muxshed switches live video sources into one program stream and sends it to destinations. This project models the
parts of the API server that carry state or bytes by hand, and proves what they keep over every input and every run.

| file | what it models |
|---|---|
| `Flv.dfy`, `FlvBytes.dfy` | FLV tags as bytes (Annex E of the Adobe Flash Video File Format Specification 10.1): printing, timestamp reading and rewriting, tag classes |
| `TagReader.dfy` | the loop that cuts an encoder's output into tags and caches codec headers and the last keyframe |
| `ProgramRouter.dfy` | the live switcher: its two nested loops as a class, and the transition function it follows |
| `RouterSplices.dfy`, `RouterSwitching.dfy`, `RouterClock.dfy`, `RouterCompleteness.dfy`, `RouterHeaders.dfy` | what every run of the switcher keeps: splices, codec headers in front, invisible pending switches, which source takes over and when the old one is cut, one continuous clock, nothing swallowed |
| `Failover.dfy`, `FailoverTiming.dfy` | the failover supervisor as a class over timed events, and its time bounds in both directions |
| `FailoverProgram.dfy` | the supervisor and the router together: from a dark source to the fallback's first keyframe in the program |
| `Egress.dfy` | a destination's writer on a lossy subscription and a pipe that may break, and the path from router to destination |
| `SceneCompositor.dfy`, `GraphText.dfy`, `GraphMeaning.dfy`, `CompositorArguments.dfy`, `CompositorText.dfy` | the compiler from scene layers to an ffmpeg filter graph, its meaning, and its text letter by letter |
| `Decimal.dfy`, `Splitting.dfy` | decimal text, joining and splitting |
| `TimeText.dfy`, `TimeReading.dfy`, `ScheduleQueries.dfy` | instants compared as text, what their text denotes, and the two queries that rely on it |
| `Scheduler.dfy`, `SchedulerTiming.dfy`, `SchedulerEdits.dfy`, `SchedulerRows.dfy`, `SchedulerLoop.dfy` | the scheduler over a table that requests edit meanwhile: its transition function, its lateness, which edits survive it, what becomes of each row, and the loop itself as a class |
| `IngestLocks.dfy` | the lock protocol between the lazy start and the teardown of WebRTC ingest, interleaved step by step |
| `Wrappers.dfy` | Option |

The environment is adversarial throughout. The switcher's events carry any tag, and the header cache may differ at every
step. A receiver may skip tags or close. Requests edit the schedule table between any two statements of the scheduler.
Starts and teardowns of ingest interleave at every lock operation. Time, randomness, the database and child processes
enter as values of events or as opaque tokens.

The classes `RouterTask`, `SupervisorTask`, `Relay`, `HeaderCache`, `ByteStream`, `Pipe`, `Receiver` and
`SchedulerTask` update their fields as the tasks do. Their methods are proved equal to (or, for the scheduler, to follow)
a transition function, and the theorems are about every run of that function.

Statements that sound right and are false of the code, each with the condition under which it does hold:

- A dark source is replaced within threshold plus one tick: if and only if the offline grace covers the darkness at which a
  restore can happen, the smaller of 750 ms and recovery grace plus one tick (`FailoverTiming.PromptExactly`, for every
  tick period, with the late run built in `FailoverTiming.LateReplacement`). At the program's own tick this means an
  offline grace of at least 750 ms, or of at least the recovery grace plus 250 ms (`FailoverTiming.PromptAtOwnTick`).
- The output clock never runs back: in the segment that a selection begins, if and only if it subscribes to no separate
  audio relay (`RouterClock.RunsBackExactly`).
- The old source is kept until the new one has a keyframe: a source that is being shown has its next inter frame
  published if and only if no event has left its segment, that is, no routing change, no end of its relay and no closed
  watch (`RouterSwitching.KeptExactly`). Muting is a routing change too. What follows is decided by the latest selection
  and its relay: the same source again, another source, or nothing, each without frames until a keyframe
  (`RouterSwitching.CutExactly`, `RouterSwitching.SilentUntilKeyframe`); from nothing only a further selection leads on,
  even when the relay appears (`RouterSwitching.OnlySelectionHelps`, `RouterSwitching.SelectionHelps`).
- The source spliced in is the one selected last: the one whose selection was read last, if and only if that selection is
  of another source; selecting the current source again, or nothing, withdraws nothing
  (`RouterSwitching.SplicedIsSelectedExactly`), and neither does a selection that has not been read yet
  (`RouterSwitching.UnreadSelectionSplices`).
- A stream is read back tag by tag: if and only if every payload fits in 24 bits
  (`TagReader.StreamReadsBackExactly`). The printer does not check; its callers pass RTMP payloads, whose length field has
  24 bits, so the failing input concerns the printer alone.
- A request that edits a schedule stands until the scheduler comes to the schedule as edited: if and only if, when it is
  written, the row is neither listed for the backfill nor in hand for a handling that changes it
  (`SchedulerEdits.EditSurvivesExactly`). A stale backfill can switch a new recurring schedule off
  (`SchedulerEdits.StaleBackfillDisables`).
- A registered child belongs to the peer now registered: if and only if its starter's check found its own peer and none
  has been inserted since, or its own was the last one inserted (`IngestLocks.BelongsExactly`). After a teardown, the old
  peer's starter can register its child for the new one (`IngestLocks.ForeignChild`).

Where the code and its own words differ, the model follows the code:

- `crates/api/src/program.rs:139` logs that a switch to a source without relay waits for one; the dummy channel is closed
  from the start, so the switch is aborted (`RouterSwitching.SwitchWithoutRelayIsAborted`).
- `crates/api/src/program.rs:57-58` guarantees that the old source runs until the new one has a keyframe; the conditions
  are above. A stale request puts one keyframe of the abandoned source into the program, after which the router returns
  to the latest selection (`RouterSwitching.StalePendingSwitch`, `RouterSwitching.HandsOverExactly`).
- `crates/api/src/failover.rs:8-11` names the configured grace periods; both are raised to at least 250 ms, and a source
  that has never been live is given at least five seconds.
- `crates/api/src/webrtc_ingest.rs:560-563` speaks of the peer; the check under the lock asks for any peer of the source.

## Model

| member | source | states |
|---|---|---|
| Flv.FlvHeader | crates/api/src/rtmp/flv.rs:8-16 | the 13 bytes written are the FLV file header followed by a zero size trailer |
| Flv.FlvTag | crates/api/src/rtmp/flv.rs:48-76 | the bytes put one by one are the encoding of the packet; DecodeEncode, SizeField, TimestampField and EncodeFramesExactly say what that encoding means |
| Flv.RewriteTagTimestamp | crates/api/src/rtmp/flv.rs:37-46 | the in-place update of four bytes is Rewritten, tags under 8 bytes included |
| Flv.RewriteSetsTimestampOnly | crates/api/src/rtmp/flv.rs:26-46 | a rewritten timestamp is read back, the last rewrite wins, length and all other bytes stay |
| Flv.RewriteToSameTimestamp | crates/api/src/rtmp/flv.rs:26-46 | rewriting a tag to the timestamp it has changes nothing |
| Flv.SizeField | crates/api/src/rtmp/flv.rs:55-58 | the size field announces the payload length modulo 2^24 |
| Flv.TimestampField | crates/api/src/rtmp/flv.rs:27-63 | the reader of timestamps recovers all 32 bits the printer split |
| Flv.EncodeFramesExactly | crates/api/src/rtmp/flv.rs:48-76 | a printed tag announces its own length if and only if its payload is under 2^24 bytes |
| Flv.DecodeEncode | crates/api/src/rtmp/flv.rs:48-76 | round trip: type, payload and timestamp are all recovered from the tag |
| Flv.RewriteKeepsFraming | crates/api/src/rtmp/flv.rs:37-46 | rewriting changes the timestamp of the decoded packet and neither creates nor destroys framing |
| Flv.HighNibbleBits | crates/api/src/program.rs:24-26 | the router's mask and the reader's shift ask for the same high nibble |
| Flv.RewriteKeepsClass | crates/api/src/program.rs:13-41 | video, audio, keyframe and header classification survive rewriting |
| FlvBytes.FileHeaderBytes | crates/api/src/rtmp/flv.rs:8-16 | the file header in numbers |
| FlvBytes.TagBytes | crates/api/src/rtmp/flv.rs:48-76 | where every field of a printed tag stands, most significant byte first: size, timestamp with its high byte last, zero stream number, payload, trailer |
| FlvBytes.BytesRead | crates/api/src/source_normalizer.rs:162-177 | readers take the size, the length and the timestamp from the same places |
| FlvBytes.BytesRewritten | crates/api/src/rtmp/flv.rs:37-46 | rewriting puts the new timestamp's bytes there and touches no other |
| FlvBytes.RouterBits | crates/api/src/program.rs:10-41 | the router's tests in the bits of the whole tag, short tags included |
| FlvBytes.ReaderBits | crates/api/src/source_normalizer.rs:184-205 | the readers' tests in the bits of the payload, payloads of none or one byte included |
| TagReader.ReadTag | crates/api/src/source_normalizer.rs:157-182 | three exact reads deliver the first whole tag of the stream, or nothing if it is cut anywhere |
| TagReader.ReadNormalizedOutput | crates/api/src/source_normalizer.rs:142-213 | the loop publishes exactly the whole tags in order, counts them, and leaves the cache entry equal to its fold, other sources untouched |
| TagReader.ByteStream.ReadExact | crates/api/src/source_normalizer.rs:149-174 | an exact read yields the next n bytes, or fails and drains the stream |
| TagReader.HeaderCache.Update | crates/api/src/source_normalizer.rs:184-205 | one tag changes its source's entry as the fold says, and no other entry |
| TagReader.TagsOfConcat | crates/api/src/source_normalizer.rs:156-182 | framed tags laid end to end are read back as those tags, whatever follows |
| TagReader.TruncatedStreamReadsBack | crates/api/src/source_normalizer.rs:148-213 | cut anywhere after the file header, a printed stream yields exactly its complete tags |
| TagReader.ReadBackIsPrefix | crates/api/src/source_normalizer.rs:148-213 | on arbitrary bytes the published tags are framed, concatenate to a prefix after byte 13, and no further whole tag remains |
| TagReader.StreamReadsBackExactly | crates/api/src/rtmp/flv.rs:48-76 | the reader undoes the printer on a list if and only if every payload is under 2^24 bytes |
| TagReader.PacketsSurvive | crates/api/src/source_normalizer.rs:148-213 | printing packets, reading the bytes and decoding gives the packets back |
| TagReader.ClassificationsAgree | crates/api/src/program.rs:20-41 | reader and router classify alike every framed tag with two payload bytes, before and after rewriting |
| TagReader.ClassificationsAgreeExactly | crates/api/src/source_normalizer.rs:184-205 | on printed tags they disagree exactly on audio and video tags with payloads under two bytes |
| TagReader.CacheIsItsFold | crates/api/src/source_normalizer.rs:184-205 | after any tags the cache holds the last header of each kind, and the last keyframe after the first header |
| TagReader.CacheStaysWellFormed | crates/api/src/source_normalizer.rs:184-205 | whatever is read, the cached tags are framed and of the kind their field names |
| TagReader.CachedHeadersAreRecognised | crates/api/src/program.rs:29-41 | cached headers are headers to the router as well |
| ProgramRouter.RouterTask.RemapTag | crates/api/src/program.rs:44-54 | the out-parameters and the clock field are what Remap says; WrappingIsModular and OneContinuousClock say what it means |
| ProgramRouter.RouterTask.SendSequenceHeaders | crates/api/src/program.rs:266-288 | publishes the cached video header and the chosen audio header, both at the given time, nothing else |
| ProgramRouter.RouterTask.OnSelect | crates/api/src/program.rs:64-115 | the outer loop up to the subscription, with and without a relay |
| ProgramRouter.RouterTask.OnPendingTag | crates/api/src/program.rs:156-192 | a pending tag is dropped unless it is a keyframe, which splices and leaves the inner loop |
| ProgramRouter.RouterTask.OnCurrentTag | crates/api/src/program.rs:201-224 | the keyframe gate, the audio filter and the remapping of the current relay |
| ProgramRouter.RouterTask.OnAudioTag | crates/api/src/program.rs:230-243 | the separate audio relay forwards audio tags only, on its own base |
| ProgramRouter.RouterTask.BorrowAndUpdate | crates/api/src/program.rs:66 | reading the selection yields the watch's latest value and marks it as seen |
| ProgramRouter.RouterTask.OnControl | crates/api/src/program.rs:117-154 | source changes, routing changes, lags and closes leave the program untouched; a changed selection is read from the watch and becomes the pending switch |
| ProgramRouter.RouterTask.RunProgramRouter | crates/api/src/program.rs:59-257 | driven by any events, the nested loops end in the state of the transition function's run |
| RouterSplices.SpliceSafety | crates/api/src/program.rs:97-257 | on every run each published inter frame follows a published keyframe of its source in its segment, with only that source's video in between |
| RouterSplices.CodecHeaderFirst | crates/api/src/program.rs:266-288 | if the header was cached when the segment or splice began, a video header of the source precedes each of its frames with no other source's video in between |
| RouterSplices.RunKeepsInv | crates/api/src/program.rs:97-257 | the invariant behind both, kept by every event from any state that has it |
| RouterSplices.RemapKeepsClass | crates/api/src/program.rs:44-54 | remapping keeps a tag's class and framing |
| RouterSplices.ProgramReadsBack | crates/api/src/program.rs:59-257 | framed relays and caches give a program whose bytes read back as its tags |
| RouterSwitching.GaplessSwitching | crates/api/src/program.rs:117-228 | over any run within a segment, deleting every selection and everything on the pending relays leaves the program, the clock and the rest of the segment unchanged |
| RouterSwitching.SplicePublishes | crates/api/src/program.rs:170-188 | a splice publishes the new source's cached headers and its keyframe at the current output time and moves the clock nowhere |
| RouterSwitching.SwitchWithoutRelayIsAborted | crates/api/src/program.rs:138-145 | a switch to a source without relay ends at the close of its dummy channel and leaves no trace |
| RouterSwitching.CanSpliceExactly | crates/api/src/program.rs:127-145 | some continuation splices a request in if and only if its source had a relay when the request was made |
| RouterSwitching.SplicedIsSelectedExactly | crates/api/src/program.rs:122-145 | in a segment entered without a pending switch, the source spliced in is the last selection read if and only if that selection is of another source; with nothing left to read, that selection is the latest one |
| RouterSwitching.UnreadSelectionSplices | crates/api/src/program.rs:120-145 | a later selection that has not been read yet does not withdraw the request before it |
| RouterSwitching.StalePendingSwitch | crates/api/src/program.rs:122-126 | after a request, selecting the current source again or nothing leaves it pending, and its keyframe is published |
| RouterSwitching.NextSegmentFollowsSelection | crates/api/src/program.rs:64-102 | however a segment ends, the next one forwards the latest selection if that has a relay; without a relay the router waits for a selection, and without a selection too |
| RouterSwitching.KeptExactly | crates/api/src/program.rs:117-228 | until a pending keyframe, the next inter frame of a source being shown is published if and only if no routing change, relay end or closed watch has left its segment; after one it is dropped |
| RouterSwitching.CutExactly | crates/api/src/program.rs:64-154 | what leaving a segment comes to, each exactly when: the same source again, another one, waiting for a selection; in every case unkeyed. The old source is cut for another one if and only if that is selected, has a relay, and the segment is left without a splice |
| RouterSwitching.OnlySelectionHelps | crates/api/src/program.rs:65-102 | without a relay, or without a selection, no event but a further selection changes anything, even when the relay appears |
| RouterSwitching.SelectionHelps | crates/api/src/program.rs:98-102 | a further selection is forwarded if and only if it has a relay by then |
| RouterSwitching.HandsOverExactly | crates/api/src/program.rs:64-189 | a splice hands over to the spliced source if and only if that is still the latest selection and has a relay |
| RouterSwitching.SilentUntilKeyframe | crates/api/src/program.rs:206-213 | a new segment publishes no frame before its keyframe |
| RouterHeaders.SelectionAnnounces | crates/api/src/program.rs:75-111 | what a selection publishes before any relay tag: the source's cached video header, then the audio header of the audio source's entry or, without an entry, of the video source's, at the current output time; and the segment it begins, with the audio source told from the routing |
| RouterHeaders.SpliceAnnounces | crates/api/src/program.rs:170-189 | a splice publishes the same in front of the new source, then its keyframe, all at the current output time |
| RouterHeaders.NothingSelected | crates/api/src/program.rs:65-73 | without a selection nothing is published, and what was read counts as read |
| RouterHeaders.SegmentStamps | crates/api/src/program.rs:107-249 | everything a segment publishes is counted once and bears the segment's number and header mark |
| RouterHeaders.ClosedWatchEnds | crates/api/src/program.rs:70-150 | a closed watch ends the router, and nothing is published after |
| RouterCompleteness.SegmentPublishesArrivals | crates/api/src/program.rs:117-249 | while a segment lasts, the program grows by exactly the tags that pass the keyframe gate and the audio filter, each once, in order of arrival, only the timestamp changed |
| RouterCompleteness.SegmentFromItsStart | crates/api/src/program.rs:75-249 | from its selection on, a segment publishes the cached headers and then exactly those arrivals |
| RouterCompleteness.CurrentArrives | crates/api/src/program.rs:201-224 | one tag of the current relay is published if and only if the gate lets it through, and opens the gate if it is a keyframe |
| RouterClock.WrappingIsModular | crates/api/src/program.rs:46-49 | the wrapping subtraction and addition are integer arithmetic modulo 2^32 |
| RouterClock.OutputIsTheClock | crates/api/src/program.rs:44-249 | on every run with steady relays, separate audio or not, the output timestamp and that of every published tag are an integer clock modulo 2^32, across wraps, headers and splices |
| RouterClock.OneContinuousClock | crates/api/src/program.rs:44-111 | on every such run on which no selection subscribes to a separate audio relay, that clock moreover never decreases from one published tag to the next |
| RouterClock.ClockNeverRunsBack | crates/api/src/program.rs:44-111 | nor between any two moments of the run |
| RouterClock.RunsBackExactly | crates/api/src/program.rs:75-111 | for every selection in every state, some steady continuation of the segment turns the clock back if and only if the selection subscribes to a separate audio relay |
| RouterClock.TimedRunIsRun | crates/api/src/program.rs:59-257 | adding the integer clock does not change the router's run |
| RouterClock.LogGrows | crates/api/src/program.rs:59-257 | no step retracts a published tag |
| RouterClock.SeparateAudioRestartsClock | crates/api/src/program.rs:236-243 | the first tag of a separate audio relay puts the clock back to the start of the segment |
| RouterClock.SeparateAudioRunsBack | crates/api/src/program.rs:219-243 | after every such selection, two keyframes 100 ms apart and one audio tag turn the clock back |
| Failover.SupervisorTask.ObserveIntent | crates/api/src/failover.rs:42-93 | from any state, the routed source, notices and fresh monitor are those of the specification, passthrough included |
| Failover.SupervisorTask.OnReceived | crates/api/src/failover.rs:106-121 | a frame updates exactly the monitor variables the specification names |
| Failover.SupervisorTask.OnTick | crates/api/src/failover.rs:126-163 | a tick resubscribes, fails over, restores or waits as the specification says; SubscribedExactly, NeverTooSoon, ReplacedWithin and RestoredInTime say when |
| Failover.SupervisorTask.RunFailoverSupervisor | crates/api/src/failover.rs:42-166 | driven by any events, the supervisor ends in the state of the specification's run |
| Failover.RoutedConsistently | crates/api/src/failover.rs:42-178 | whenever it waits, the observed selection is routed unless failover is active, and then an enabled, different fallback is; notices strictly alternate |
| Failover.GoesByLastIntent | crates/api/src/failover.rs:42-67 | the supervisor goes by the selection last made and the configuration loaded with it, and monitors exactly when that enables failover to another source |
| Failover.ClosedSelectionEnds | crates/api/src/failover.rs:51-66 | a closed selection ends a supervisor that mirrors, for good; one that monitors takes up its selection anew |
| FailoverTiming.MonitorTracksVideo | crates/api/src/failover.rs:80-121 | the monitor's variables are those of the event history: last frame, ever live, constants |
| FailoverTiming.SubscribedExactly | crates/api/src/failover.rs:80-133 | the monitor is subscribed exactly when a relay was there at the start, or at a tick, and has not closed since |
| FailoverTiming.GracesInMilliseconds | crates/api/src/failover.rs:77-96 | graces of at least 250 ms, five seconds before the first frame, 750 ms for recovery, in nanoseconds |
| FailoverTiming.NeverTooSoon | crates/api/src/failover.rs:134-147 | the fallback is cut in only on a tick at which the source has been dark for longer than the threshold of its phase |
| FailoverTiming.ReplacedWithin | crates/api/src/failover.rs:134-161 | while the source is shown it has not been dark for longer than its threshold, or than the smaller of 750 ms and recovery plus one tick, plus one tick |
| FailoverTiming.PromptExactly | crates/api/src/failover.rs:77-161 | for every tick period, replacement within threshold plus one tick holds on every run, with regular ticks or merely timely ones, if and only if the offline grace is at least the smaller of 750 ms and recovery plus one tick |
| FailoverTiming.PromptAtOwnTick | crates/api/src/failover.rs:77-96 | the same at 250 ms: an offline grace of at least 750 ms, or of the effective recovery grace plus 250 ms |
| FailoverTiming.LateReplacement | crates/api/src/failover.rs:148-162 | for every other configuration and every tick period, a run with exactly regular ticks that breaks the bound |
| FailoverTiming.RecoveryConfirmed | crates/api/src/failover.rs:98-163 | at any restore the frames since recovery began were at most 750 ms plus one tick apart, the last is at most 750 ms old and the window exceeds the recovery grace |
| FailoverTiming.RestoredInTime | crates/api/src/failover.rs:128-161 | on the fallback, frames at gaps of at most 750 ms from s bring the source back by s plus recovery plus one tick, frames after a reconnect included |
| FailoverTiming.RestoresTakeTime | crates/api/src/failover.rs:152-159 | k restores in one monitoring run take more than k times the recovery grace |
| FailoverTiming.SupervisorFollowsMonitor | crates/api/src/failover.rs:92-165 | while the selection stands, the supervisor's run is its monitor's, and the monitor decides the routed source |
| FailoverTiming.RoutedByDarkness | crates/api/src/failover.rs:60-161 | from a selection on, an event beyond the bound finds the fallback routed, and nothing else than the selection is routed without a switch |
| FailoverProgram.WatchHoldsRouted | crates/api/src/failover.rs:38-40 | when the router's selections are the supervisor's routes, its watch holds what the supervisor has routed |
| FailoverProgram.FallbackTakesOver | crates/api/src/failover.rs:134-147 | a source dark beyond the bound finds the fallback in the router's watch; reading it makes the fallback pending, and its first keyframe is published at the current output time |
| Egress.RunWriter | crates/api/src/egress.rs:184-240 | for any lag pattern and pipe capacity, what is written is the header, the primers and the delivered tags, cut where the pipe broke; on a pipe that held it reads back as exactly what is cached, in order, and then the delivered tags |
| Egress.WritePrimers | crates/api/src/egress.rs:195-210 | the primers are written in order even when writes fail |
| Egress.Forward | crates/api/src/egress.rs:212-239 | the loop writes every delivered tag until a write fails, skipping lags |
| Egress.DeliveredAtIndices | crates/api/src/egress.rs:213-233 | the delivered tags are the program's at strictly increasing positions |
| Egress.CachePrimesInOrder | crates/api/src/egress.rs:195-210 | at most three primers: video header, audio header, keyframe, in that order |
| Egress.FrontIsTheCache | crates/api/src/egress.rs:195-210 | a tag is in front of the delivered ones if and only if it is the cached video header, audio header or keyframe |
| Egress.HeldReadsBack | crates/api/src/egress.rs:184-240 | the bytes on a pipe that held read back as the cached parts, each once and in order, and then the delivered tags |
| Egress.LagSkips | crates/api/src/egress.rs:230-238 | a lag skips as many tags as it says and delivers nothing; a close ends everything |
| Egress.LosslessDeliversAll | crates/api/src/egress.rs:212-229 | without lags nothing of the program is lost |
| Egress.OutputStaysFramed | crates/api/src/egress.rs:184-240 | under any loss and any cut, the written bytes read back as a prefix of the primers and an in-order selection of the program, all of it when the pipe held |
| Egress.FramedProgramReachesDestination | crates/api/src/egress.rs:184-240 | from framed relays and well-formed caches, any router run, any joining moment and any lag pattern reach the destination as a readable stream |
| Egress.ProgramReachesDestination | crates/api/src/source_normalizer.rs:142-213 | end to end: the same from any bytes the encoders write, with relays and caches that the readers filled from them |
| Egress.ReadExactly | crates/api/src/source_normalizer.rs:142-213 | the tags that readers can publish from some bytes are exactly the framed ones, which is all that statement asks of a tag |
| SceneCompositor.CollectLiveLayers | crates/api/src/scene_compositor.rs:103-138 | the loop keeps exactly the rows whose own look-ups find a relay and a cached video header, in order, with truncated offsets and sizes of at least 2 |
| CompositorText.LayersInOrder | crates/api/src/scene_compositor.rs:103-138 | the layers are those of exactly the rows with a source, a relay and a cached video header, in the order of the rows |
| CompositorText.LayerByRow | crates/api/src/scene_compositor.rs:122-130 | what a row becomes: offsets and sizes cut to 32 bits, sizes of at least 2, "cover" and "contain" by name and else filling |
| SceneCompositor.BuildFilterGraph | crates/api/src/scene_compositor.rs:62-87 | the text built piece by piece is the print of the compiled chains, and the label is the last one |
| SceneCompositor.FitFilterText | crates/api/src/scene_compositor.rs:42-58 | the three strings of a fit are the prints of its filters and its offsets |
| CompositorText.LayerChainLetters | crates/api/src/scene_compositor.rs:66-78 | a layer's chain letter by letter, for every fit, faded or not |
| CompositorText.OverlayChainLetters | crates/api/src/scene_compositor.rs:79-83 | a layer's overlay letter by letter, on the base or on the layer before |
| CompositorText.GraphLetters | crates/api/src/scene_compositor.rs:63-86 | the whole graph between its semicolons: the canvas, then each layer's chain and overlay |
| CompositorText.FixedPointText | crates/api/src/scene_compositor.rs:73 | a fixed-point number is its whole part, a point and three decimal digits |
| CompositorText.FixedPointSign | crates/api/src/scene_compositor.rs:73 | a negative opacity has a sign in front of the digits of its nearest thousandths, and no other has one |
| CompositorText.OpaqueIsNearest | crates/api/src/scene_compositor.rs:71 | the threshold is 0.999 rounded to 24 binary digits |
| SceneCompositor.RoundsToNearest | crates/api/src/scene_compositor.rs:72-75 | rounding gives the nearest integer, and the even one of two |
| GraphText.GraphReadsBack | crates/api/src/scene_compositor.rs:86 | split on ';' and parsed, a joined graph gives its chains back |
| GraphMeaning.CompiledMeans | crates/api/src/scene_compositor.rs:62-87 | every link is consumed exactly once; one stays open and carries the composite |
| GraphMeaning.CompiledTextReadsBack | crates/api/src/scene_compositor.rs:62-87 | the emitted text parses back to the compiled chains, for all layers |
| GraphMeaning.CompilationPreservesMeaning | crates/api/src/scene_compositor.rs:42-87 | the meaning of the text at the returned label is the fitted, faded layers painted bottom first on black |
| GraphMeaning.SkippingIsIdentity | crates/api/src/scene_compositor.rs:103-138 | leaving out rows that were not live when looked up is painting them as the identity |
| GraphMeaning.SceneMeansItsLiveRows | crates/api/src/scene_compositor.rs:62-138 | from stored rows to the meaning of the text, in one statement |
| GraphMeaning.EachLinkDefinedOnce | crates/api/src/scene_compositor.rs:63-85 | no two chains define the same link |
| GraphMeaning.LinksAreLinks | crates/api/src/scene_compositor.rs:73-84 | no link is an input pad, no layer's link is an intermediate picture's, and different numbers give different links |
| GraphMeaning.FixedPointReads | crates/api/src/scene_compositor.rs:73 | the opacity text, read back, is the nearest number of thousandths, ties to even |
| GraphMeaning.OffsetReads | crates/api/src/scene_compositor.rs:44-55 | the overlay offset text denotes the layer's place, centred for contain, negative offsets included |
| CompositorArguments.BuildArguments | crates/api/src/scene_compositor.rs:158-193 | the argument list pushed in loops is the one ArgumentsMatchGraph is about: one input per port, the silent input, the graph and the two maps |
| CompositorArguments.ArgumentsMatchGraph | crates/api/src/scene_compositor.rs:158-193 | of the whole list: input i is layer i's port and the one its chain names, the first map is the graph's result, and the number read back from the second is the silent input's |
| CompositorArguments.InputsMatchGraph | crates/api/src/scene_compositor.rs:163-182 | of the whole list: the inputs are the ports in order and then the silent one, nothing else |
| CompositorText.ArgumentLetters | crates/api/src/scene_compositor.rs:158-193 | the whole argument list letter by letter |
| CompositorText.PrintsDecimal | crates/api/src/scene_compositor.rs:63-84 | integers are printed in decimal, without leading zeros, with a sign if negative |
| Decimal.ParsePrinted | crates/api/src/scene_compositor.rs:63-84 | decimal printing is undone by parsing, hence injective labels |
| Splitting.SplitJoined | crates/api/src/scene_compositor.rs:86 | splitting undoes joining when no part contains the separator |
| TimeText.FieldsOrderIsTimeOrder | crates/api/src/scheduler.rs:70-81 | calendar field order is chronological order, leap years included |
| TimeText.FractionOrder | crates/api/src/scheduler.rs:70-81 | fractions of 0, 3, 6 or 9 digits followed by the offset are ordered as numbers |
| TimeText.TextOrderIsTimeOrder | crates/api/src/scheduler.rs:70-81 | byte order of the printed text is time order, and printing is injective |
| TimeReading.TextReadsBack | crates/api/src/scheduler.rs:62-74 | the text, read by position, gives all fields of the instant and no offset from UTC |
| TimeReading.FractionReads | crates/api/src/scheduler.rs:62-74 | the fraction is the shortest of 0, 3, 6 or 9 digits that denotes the nanoseconds |
| TimeReading.NanosInNumbers | crates/api/src/scheduler.rs:70-81 | the count of nanoseconds in closed form, leap years of four centuries included |
| TimeReading.LeapYears | crates/api/src/scheduler.rs:70-81 | leap years are every fourth year, but of the centuries only every fourth |
| TimeReading.ValidExactly | crates/api/src/scheduler.rs:62-74 | the instants spoken of are those of the years 0 to 9999, every month, day and time of day |
| TimeReading.EpochNanos | crates/api/src/scheduler.rs:70-81 | the count agrees with the clock that begins in 1970 |
| ScheduleQueries.SelectedRowsAreDue | crates/api/src/scheduler.rs:70-74 | `next_run_at <= ?` on text selects exactly the rows whose instant is due |
| ScheduleQueries.FirstRowIsSoonest | crates/api/src/scheduler.rs:103-107 | a row is first in text order if and only if its instant is the soonest |
| ScheduleQueries.NoFirstNoSoonest | crates/api/src/scheduler.rs:103-107 | the query finds no row exactly when nothing is scheduled |
| Scheduler.EachOccurrenceOnce | crates/api/src/scheduler.rs:15-66 | the occurrences handled for one schedule strictly increase over every run, edits and timezone changes included |
| Scheduler.OneOffOnce | crates/api/src/scheduler.rs:54-59 | a one-off is handled at most once between two writes of its schedule |
| Scheduler.NothingStaysDue | crates/api/src/scheduler.rs:19-23 | after the list is worked off, no enabled row is due at the query's time |
| Scheduler.NothingIsDropped | crates/api/src/scheduler.rs:21-23 | what was handled, followed by what is still listed, is exactly what the queries returned, in order |
| Scheduler.NeverEarly | crates/api/src/scheduler.rs:69-74 | an occurrence is handled only once it has come |
| Scheduler.StepKeepsInv | crates/api/src/scheduler.rs:15-101 | the invariant behind them is kept by every statement and every edit |
| SchedulerTiming.ListedInTime | crates/api/src/scheduler.rs:25-33 | after the first query, an occurrence is listed less than 200 ms after it, plus twice the time an iteration works, by the first query at or after it |
| SchedulerTiming.NoRunWaitsLong | crates/api/src/scheduler.rs:25-33 | at no moment does a waiting run lie further back than that |
| SchedulerTiming.SleepWakes | crates/api/src/scheduler.rs:25-28 | the clamped sleep wakes in time for every stored run |
| SchedulerTiming.EditWakes | crates/api/src/routes/schedules.rs:97-156 | an edit may bring a run forward, and its nudge brings the next query forward with it |
| SchedulerEdits.EditSurvivesExactly | crates/api/src/scheduler.rs:54-98 | what a request writes stands until the scheduler works on the row as written, however the run goes on, if and only if the row is neither listed for the backfill at the write nor in hand for a handling that changes it |
| SchedulerEdits.StaleBackfillDisables | crates/api/src/scheduler.rs:86-96 | a run on which the backfill, with the trigger it had read, switches off a schedule rewritten meanwhile |
| SchedulerRows.StepWritesRow | crates/api/src/scheduler.rs:54-100 | field by field, what each statement of the scheduler does to a row; trigger and edition always stay |
| SchedulerRows.SwitchesOffOneOffs | crates/api/src/scheduler.rs:54-98 | the scheduler switches a row off only by work on a trigger it read as a one-off |
| SchedulerRows.RecurringStays | crates/api/src/scheduler.rs:60-65 | a recurring schedule that nobody edits stays enabled with its trigger over any run, however often it is handled |
| SchedulerRows.RequestWrites | crates/api/src/routes/schedules.rs:97-244 | a request writes the row it names as it says, under a new edition, and nothing else |
| SchedulerRows.QueryReadsExactly | crates/api/src/scheduler.rs:70-81 | the query lists exactly the enabled rows whose next run has come, each once, as they are |
| SchedulerRows.ScanReadsExactly | crates/api/src/scheduler.rs:86-91 | the backfill lists exactly the enabled rows without a next run, with their triggers |
| SchedulerRows.SleepsUntilSoonest | crates/api/src/scheduler.rs:25-28 | the wait ends at the soonest run between 200 ms and a minute away, and else at the nearer bound |
| SchedulerRows.SleepSetsWaking | crates/api/src/scheduler.rs:25-33 | going to sleep sets the waking by the least next run of the enabled rows |
| SchedulerRows.RequestsWake | crates/api/src/scheduler.rs:30-33 | a request wakes a sleeping scheduler at once and never later |
| SchedulerLoop.NextRunIsLater | crates/api/src/schedule_time.rs:25-41 | the next run is strictly later than asked about; a one-off has a single one, its instant, until it has come; a recurring one has what cron says |
| SchedulerLoop.EditWrites | crates/api/src/routes/schedules.rs:90-244 | field by field, what each request makes of the row it names, missing or present, and that it touches no other |
| SchedulerLoop.SchedulerTask.Apply | crates/api/src/routes/schedules.rs:90-166 | a request rewrites its row as the specification says and keeps the scheduler's list and history |
| SchedulerLoop.SchedulerTask.EnsureNextRuns | crates/api/src/scheduler.rs:84-101 | undisturbed, it changes only enabled rows without next run, and leaves none of them a one-off; under edits it keeps every invariant |
| SchedulerLoop.SchedulerTask.DueSchedules | crates/api/src/scheduler.rs:70-81 | the list holds every due row once and nothing else |
| SchedulerLoop.SchedulerTask.SoonestNextRun | crates/api/src/scheduler.rs:103-108 | the result is the least next run of the enabled rows, or none |
| SchedulerLoop.SchedulerTask.HandleDue | crates/api/src/scheduler.rs:37-50 | records the handling, then moves the schedule past it, whatever lands in between; undisturbed, it keeps trigger and edition, switches off exactly one-offs and touches no other row |
| SchedulerLoop.SchedulerTask.Advance | crates/api/src/scheduler.rs:54-67 | disables a one-off and clears its next run; gives a recurring row its next one from now and leaves it enabled; keeps trigger, edition and all other rows |
| SchedulerLoop.SchedulerTask.Iterate | crates/api/src/scheduler.rs:17-28 | after one pass everything listed is handled, nothing due at the query stays due, and the wait fits the soonest run left |
| SchedulerLoop.SchedulerTask.RunScheduler | crates/api/src/scheduler.rs:15-35 | over any number of passes and edits no occurrence is handled twice and none listed is dropped |
| IngestLocks.RunKeepsInv | crates/api/src/webrtc_ingest.rs:559-696 | lock, peer and child bookkeeping are kept under every interleaving |
| IngestLocks.NoOrphan | crates/api/src/webrtc_ingest.rs:559-572 | a registered child has a registered peer, at every moment |
| IngestLocks.EveryChildAccounted | crates/api/src/webrtc_ingest.rs:541-572 | every spawned child is local to its starter, registered, about to be killed by the lock holder, or dead |
| IngestLocks.TeardownIsComplete | crates/api/src/webrtc_ingest.rs:683-696 | a teardown releases the lock with no child registered for its source |
| IngestLocks.StartSettles | crates/api/src/webrtc_ingest.rs:559-572 | the peer's presence under the lock decides a start: with it its own child is registered at release, without it the child ends dead |
| IngestLocks.StartSteps | crates/api/src/webrtc_ingest.rs:559-572 | in every state, each step of a start: refused, it gives the lock back and kills its own child; else it takes out, kills, registers and gives the lock back, in this order |
| IngestLocks.TeardownSteppedThrough | crates/api/src/webrtc_ingest.rs:690-696 | in every state, each step of a teardown: it takes the child out, kills it, removes the peer of its source and of no other, and gives the lock back |
| IngestLocks.RegistrationFindsPeer | crates/api/src/webrtc_ingest.rs:564-571 | a child is registered only while a peer of its source is present, not merely when that was checked |
| IngestLocks.RegistersForOwnPeerExactly | crates/api/src/webrtc_ingest.rs:564-571 | at the registering step the child is the current peer's if and only if the peer inserted last for the source is the starter's own |
| IngestLocks.CheckTells | crates/api/src/webrtc_ingest.rs:564-571 | from the check on, while its child is registered or about to be, the source's peer is the one the check found unless one has been inserted since |
| IngestLocks.BelongsExactly | crates/api/src/webrtc_ingest.rs:236-571 | at every moment, a registered child belongs to the registered peer if and only if the check found its own peer and none came since, or its own came last |
| IngestLocks.ForeignChild | crates/api/src/webrtc_ingest.rs:559-572 | a run from the start, with a teardown, that ends with one peer's child registered for another |
| IngestLocks.StarterReplaces | crates/api/src/webrtc_ingest.rs:564-571 | a starter that finds any peer at its source, its own or a later one, replaces and kills the child registered there |

## Left out

- ffmpeg, ffprobe, Chrome, GStreamer and webrtc-rs: a child is a token, an ffmpeg filter is an operation on abstract images; the output options after the two maps are not built.
- The RTMP handshake, HTTP routing, uploads, authentication, the user interface and the CRUD of everything but schedules.
- The copies of the tag reader in `media_player.rs`, `srt.rs`, `browser_source.rs`, `webrtc_ingest.rs` and `scene_compositor.rs`; `source_normalizer.rs` stands for them.
- `feed_layer` and the compositor's child management: the priming there is the one modelled for a destination.
- tokio: a receiver is a stream that may skip or close, a `select!` branch one atomic step. The router's watch of the selection is its latest value and whether that has been read; the audio routing may be any value whenever it is read. In the router, a selection with its cache and relay look-ups is one step.
- Bit shifts in `flv.rs` are written as division and remainder by powers of two; `Flv.HighNibbleBits` links the masks to them.
- A payload of 2^32 bytes or more: the printer's `11 + data_size` is taken modulo 2^32, as in a release build.
- Counters, traces and debug output, and `frame_count` beyond 64 bits.
- The end of the reader, which removes the normalizer's entry for its source even when a new child has replaced it.
- Interference with a source's cache entry during a read (teardown removes entries): the router's proofs allow any cache at every step, the reader's are about an undisturbed entry.
- Audio headers of the video source are published even when audio comes from elsewhere, as in the code; only video headers are claimed to come first.
- Restarting destinations at failover takes time in the code; here it is time between two events. Two readings of the clock in one branch are one reading.
- CollectLiveLayers: keeps a layer's opacity as the real number stored, where the code rounds it to 32 bits, because pixels are not modelled.
- Opacities are real numbers: rounding from 64 to 32 bits, NaN and infinities are not modelled.
- Filters mean operations on an algebra of abstract images; pixels, timing and `eof_action` at the end of an input are not modelled.
- Instants after the year 9999, before the year 0 and leap seconds: `TextOrderIsTimeOrder` is about four-digit years.
- The cron and timezone crates: a cron expression's next occurrence is any instant strictly later than its argument.
- Each rewrite of a schedule row is atomic with the clock reading its next run comes from. If a scheduler query falls between the two, an edit can bring back an occurrence just handled.
- The `schedule_runs` entries for missed one-offs, notifications, and `start_broadcast`, whose mutual exclusion lets two due schedules both start.
- Sub-step cancellation: a deleted schedule that is still listed is handled all the same, as in the code.
- IngestLocks is a state machine on values rather than a class, because the point is the interleaving of several tasks; awaiting the kill of a child and closing a peer are single steps.
- SDP negotiation, codec selection and port allocation of WebRTC ingest.
