# Verified model of the reverse display host

The program streams a desktop to an Android phone and takes the phone's input back. This
project models the host-side protocol code of that program in Dafny and proves what it
keeps over whole runs. `dafny verify dfyconfig.toml` checks everything.

Each component appears twice: as functions on values, about which the laws are proved, and
as methods that update arrays and fields the way the program does, proved equal to those
functions. Where threads share state, each access to it is one step and the laws hold for
every sequence of steps, so for every interleaving. The environment (encoders, sockets,
callbacks, the desktop system, the muxer) is an oracle that may answer anything.

| module | component |
|---|---|
| `Watchdog` | the stall watchdog, with its specification on call histories |
| `AckWindow` | the arrays of unacknowledged timestamps, used for video and audio |
| `FlowControl` | capture thread, ACK receiver, pause and stop as interleaved steps |
| `StallReport` | what the main thread reads from the video and audio watchdogs together |
| `AudioEncoder` | re-blocking, acknowledgement window and staleness rules of the reverse audio |
| `AudioBlocks` | what becomes of each captured frame in it |
| `NalUnits`, `H264Convert` | the H.264 carriers, and the converters of both platforms |
| `Recorder` | the merge loop of the recorder |
| `DeviceMsg`, `Receiver`, `DeviceWriter` | device message format, incremental parsing in a fixed buffer, and what the device writes |
| `Touch`, `TouchMouse`, `TouchFrames`, `TouchInjector` | touch injection: machine, mouse fallback, native frames, and the class |
| `Cursor` | drawing the mouse cursor into a captured image |
| `AudioBuf`, `AudioRing` | the audio ring buffer, alone and between two threads without a lock |
| `AudioRegulator` | pushes and pulls on that buffer |
| `Controller` | the control message queue and its worker |
| `FrameHandoff` | frame buffer, new-frame events and pause |
| `Clock` | the clock estimator |
| `Common`, `Bytes` | shared definitions: options, C's division, big-endian numbers |

## What the proofs found

Some promises of the comments, or properties one would expect, do not hold of the code as it
is. Each is proved with a concrete input and with the exact condition under which the code
meets it.

- The start-code test takes a length-prefixed packet for a byte stream when its first unit
  has 1 or 256 to 511 bytes (four length bytes) or 1 byte (three length bytes). The Windows
  converter then passes the packet on unconverted, as it does with units of one and two bytes
  (`H264Convert.ShortUnitPassesUnconverted`; `H264Convert.MistakenExactly`,
  `H264Convert.WindowsCorrectExactly`, `H264Convert.PlatformsAgreeExactly`).
- An audio block can have a hole. The partial block is kept, and the next push completes it,
  when audio is disabled before a round of the copy loop (`AudioBlocks.RefusalSplicesBlock`), when
  a chunk of more than 4800 frames is refused (`AudioBlocks.RefusedChunkSplicesBlock`), and when
  frames come without a chunk (`AudioBlocks.MissingChunkSplicesBlock`). A block is a whole slice of
  the capture exactly when no frame between its first and its last went that way
  (`AudioBlocks.BlocksAreSlicesExactly`). The one caller destroys the encoder when a push returns
  false (`app/src/reverse_display_macos.m:351-359`), so there only the first can show.
- A recording can fail although nothing went wrong and a video frame waits in the queue: when
  the stop comes while only a config packet is at hand (`Recorder.StopBehindConfigLosesVideo`),
  or while an audio packet is (`Recorder.StopBehindAudioLosesVideo`). A turn gives up exactly
  when it finds a stop, no origin, no timed video packet at hand and, without video, no timed
  audio packet (`Recorder.FailsExactly`). With a muxer that never fails a stopped recording ends
  well exactly when no turn does that (`Recorder.StoppedRunEndsWellExactly`); what is lost
  otherwise is the video queue (`Recorder.GivingUpLosesTheQueue`).
- With a constant true offset the clock estimate can stay 31 units away for ever
  (`Clock.ErrorOf31Stays`); it is never further away in the end (`Clock.EstimateConverges`). It
  reaches the offset exactly when it comes from the side away from zero (`Clock.ReachesExactly`),
  and the estimates that stay as they are, are known exactly (`Clock.FixedExactly`).
- If timestamps do not increase from frame to frame, the capture thread can wait although
  only one frame is in flight: there is a run that does (`FlowControl.OutOfOrderWaitsTooLong`).
  It waits rightly exactly unless the acknowledgement lies between two timestamps that are out of
  order (`FlowControl.WaitsExactlyWhenWindowFull`, `FlowControl.WindowWaitsRightlyExactly`).
- In mouse fallback, when the primary finger lifts before another one, the lift of the other
  presses the button and even the end of the session does not release it
  (`TouchMouse.FirstFingerLiftsFirst`); `TouchMouse.NeverStrandedExactly` says exactly when
  the button is left held.
- A cancelling touch frame that the system refuses leaves its contacts on the screen, though the
  injector has forgotten them: a finger goes down and the session ends
  (`TouchFrames.RefusedCancelForgets`). The screen shows the injector's contacts exactly unless the
  last frame is a refused cancellation (`TouchFrames.ScreenMatchesExactly`).

## Model

| member | source | states |
|---|---|---|
| Watchdog.Watchdog.constructor | app/src/reverse_watchdog.h:18-24 | a new watchdog is idle, unpaused, with both timestamps at -1 |
| Watchdog.Watchdog.Begin | app/src/reverse_watchdog.h:26-32 | becomes busy, and arms the deadline only if it was not armed |
| Watchdog.Watchdog.Submit | app/src/reverse_watchdog.h:34-39 | raises the submitted timestamp, never lowers it |
| Watchdog.Watchdog.Ack | app/src/reverse_watchdog.h:41-52 | accepts exactly the acknowledgements above the last and up to the submitted one, and re-arms or disarms |
| Watchdog.Watchdog.End | app/src/reverse_watchdog.h:54-60 | no longer busy; disarmed when everything is acknowledged |
| Watchdog.Watchdog.Expired | app/src/reverse_watchdog.h:62-66 | read-only: unpaused, armed, and the deadline is reached |
| Watchdog.Watchdog.SetPaused | app/src/reverse_watchdog.h:68-80 | only a real resume moves the deadline |
| Watchdog.FieldsMatchHistory | app/src/reverse_watchdog.h:26-80 | after any calls, the fields are the greatest submitted pts, the last accepted ACK, and the last busy and pause states; acked never exceeds submitted |
| Watchdog.DeadlineTracksProgress | app/src/reverse_watchdog.h:26-60 | armed exactly while work is outstanding, ten seconds after the last progress |
| Watchdog.QuietSinceLastProgress | app/src/reverse_watchdog.h:41-80 | outstanding unpaused work was so, without progress, ever since the last progress |
| Watchdog.QuietPointIsLastProgress | app/src/reverse_watchdog.h:41-80 | a progress followed only by quiet outstanding work is the last one |
| Watchdog.ExpiredExactlyOnStall | app/src/reverse_watchdog.h:62-66 | expiry is reported if and only if the history holds ten seconds of continuous unpaused outstanding work without accepted ACK or resume |
| Watchdog.NonProgressKeepsDeadline | app/src/reverse_watchdog.h:44-47 | duplicate or future ACKs, begins, submits, ends and repeated resumes do not move the deadline of outstanding work |
| Watchdog.UndisciplinedSubmitIsMissed | app/src/reverse_watchdog.h:34-39 | a submit outside begin and end arms nothing, so the discipline is needed |
| AckWindow.AcknowledgeSplits | app/src/reverse_display.c:1372-1389 | an ACK removes the longest covered prefix and nothing else |
| AckWindow.AcknowledgeKeepsAbove | app/src/reverse_display.c:1372-1389 | no entry above the acknowledgement is ever forgotten |
| AckWindow.AcknowledgeIncreasing | app/src/reverse_audio_encoder.c:95-100 | in an increasing window exactly the covered entries go, and the rest increases |
| AckWindow.Window.Consume | app/src/reverse_display.c:1372-1389 | scan and shift in the array compute that removal |
| AckWindow.Window.Append | app/src/reverse_display.c:1435-1436 | records a timestamp behind the others |
| FlowControl.StepKeepsInv | app/src/reverse_display.c:1361-1441 | every step of every thread keeps the invariant of window, frames, acknowledgements and watchdog |
| FlowControl.AtMostTwoFramesUnacknowledged | app/src/reverse_display.c:1372-1441 | in every interleaving at most two frames have their last packet above the published ACK, for any timestamps |
| FlowControl.AtMostTwoFramesInFlight | app/src/reverse_display.c:1372-1441 | if packets of one frame come in order, at most two frames have any packet in flight |
| FlowControl.AtMostTwoPacketsInFlight | app/src/reverse_display.c:1372-1441 | with one packet a frame, at most two packets are in flight |
| FlowControl.RoomWhenRecording | app/src/reverse_display.c:1435-1436 | the assertion before a timestamp is recorded never fails |
| FlowControl.AcksOnlyGrow | app/src/reverse_display.c:1979-1994 | published and accepted ACKs never decrease, and published <= accepted <= submitted |
| FlowControl.WaitsExactlyWhenWindowFull | app/src/reverse_display.c:1372-1396 | waiting goes on exactly while the oldest frame of the window is unacknowledged; that is exactly while two frames are in flight if and only if the acknowledgement does not lie between two out-of-order timestamps |
| FlowControl.WindowWaitsRightlyExactly | app/src/reverse_display.c:1372-1389 | a full window waits for two frames in flight under every acknowledgement if and only if its two timestamps are in order |
| FlowControl.OutOfOrderWaitsTooLong | app/src/reverse_display.c:1372-1441 | a run in which two frames are sent with timestamps 7 and 5, 5 is acknowledged, and the capture thread goes on waiting with one frame in flight |
| FlowControl.StallReportedExactly | app/src/reverse_display.c:2168-2177 | the video watchdog reads expired exactly when the calls of all threads hold a ten second stall |
| FlowControl.ArmedWhileWorkRemains | app/src/reverse_display.c:1145-1167 | armed exactly while a frame is being sent or a submitted packet is unacknowledged |
| StallReport.StallReportedExactly | app/src/reverse_display.c:2168-2177 | in every interleaving with the audio sender, both ACK kinds and the commands of the phone, the main thread reports a stall exactly when the calls on the video or on the audio watchdog hold one |
| StallReport.SilentUntilEnabled | app/src/reverse_display.c:2103-2104 | until the phone first enables audio, its watchdog reports nothing, whatever is sent, paused or resumed |
| StallReport.PausesFollowCommands | app/src/reverse_display.c:1883-1919 | after every command, in every interleaving, the video watchdog is paused if and only if video is, and the audio watchdog if and only if audio is disabled or video is paused |
| StallReport.PausedIsSilent | app/src/reverse_display.c:1901-1909 | once a pause command is done and until a resume, no stall is reported |
| StallReport.SilentWhileDisabled | app/src/reverse_display.c:1883-1895 | while audio is disabled its watchdog reports nothing |
| AudioEncoder.WindowNeverExceeded | app/src/reverse_audio_encoder.c:85-124 | for all callbacks and encoders: at most four unacknowledged packets, which are exactly those sent above the greatest accepted ACK; sent timestamps strictly increase; pending ones are bounded by the last |
| AudioEncoder.ConfigSentOnceAndFirst | app/src/reverse_audio_encoder.c:102-118 | the configuration is sent successfully at most once, and before any audio packet |
| AudioBlocks.FramesConserved | app/src/reverse_audio_encoder.c:67-126 | every position of the capture below the number offered, refused and missing chunks included, is in exactly one place, once: an encoded block, a lost group of frames, or the buffer |
| AudioBlocks.BlocksAreSlicesExactly | app/src/reverse_audio_encoder.c:75-92 | every encoded block has 480 frames in capture order, adjacent if and only if no frame between its first and its last was refused with its chunk or turned away by the loop guard before |
| AudioBlocks.BlockMissesExactly | app/src/reverse_audio_encoder.c:75-92 | each position between the first and the last frame of a block is in the block or was turned away before, and not both |
| AudioBlocks.RefusalSplicesBlock | app/src/reverse_audio_encoder.c:85-92 | a run in which an encoded block lacks the second captured frame |
| AudioBlocks.RefusedChunkSplicesBlock | app/src/reverse_audio_encoder.c:75 | a run, with every callback agreeing, in which an encoded block lacks the refused chunk of any length above 4800 behind its first frame |
| AudioBlocks.MissingChunkSplicesBlock | app/src/reverse_audio_encoder.c:75 | the same for a missing chunk of any number of frames |
| AudioBlocks.BlocksAreFresh | app/src/reverse_audio_encoder.c:76-86 | with capture stamps in order, every frame is at most 80 ms old when encoded |
| AudioEncoder.BlockFate | app/src/reverse_audio_encoder.c:91-124 | a full block always leaves the buffer empty, and exactly one thing becomes of it: it is encoded now, or lost |
| AudioEncoder.SessionLedger | app/src/reverse_audio_encoder.c:67-126 | the ledger invariant of window and configuration holds after any calls |
| AudioBlocks.SessionKept | app/src/reverse_audio_encoder.c:67-126 | after any calls, held and encoded frames rise, with every position between them explained, and every position has one place |
| AudioBlocks.SessionAged | app/src/reverse_audio_encoder.c:67-126 | held frames are as young as the partial stamp says, after any calls in stamp order |
| AudioEncoder.Encoder.constructor | app/src/reverse_audio_encoder.c:32-61 | a new encoder is empty, unconfigured, with its last timestamp at -1 |
| AudioEncoder.Encoder.DiscardPartial | app/src/reverse_audio_encoder.c:67-69 | drops the partial block and changes nothing else |
| AudioEncoder.Encoder.TrimChunk | app/src/reverse_audio_encoder.c:81-84 | drops an old partial block, and all but the last 1920 frames of a long chunk |
| AudioEncoder.Encoder.CopyRound | app/src/reverse_audio_encoder.c:85-93 | one round fills the buffer as far as the chunk goes and deals with it when full |
| AudioEncoder.Encoder.LoopTurn | app/src/reverse_audio_encoder.c:85-93 | one turn of the copy loop with its guard: it ends as the rest of the push does, or leaves the same rest to be done |
| AudioEncoder.Encoder.TakeBlock | app/src/reverse_audio_encoder.c:92-100 | empties the buffer and applies the latest ACK unless it is above the last sent timestamp |
| AudioEncoder.Encoder.SendPackets | app/src/reverse_audio_encoder.c:112-123 | sends the codec's packets under the window with increasing timestamps, and stops at the first failure |
| AudioEncoder.Encoder.PushChunk | app/src/reverse_audio_encoder.c:71-126 | the whole push, on the fields and arrays, is the push of the model, refusals of a missing or long chunk included |
| NalUnits.ParseInvertsAvcc | app/src/reverse_macos_helpers.c:46-54 | parsing yields a list of units if and only if the data is their length-prefixed form |
| NalUnits.TakeUnitsInvertsAvcc | app/src/reverse_display.c:1065-1110 | a counted list is read if and only if the data begins with exactly those units |
| NalUnits.ParseAfter | app/src/reverse_display.c:1004-1022 | a refusal or success later in a packet does not depend on the well-formed units before it |
| NalUnits.RecordParses | app/src/reverse_display.c:1051-1142 | every avcC record is read, whatever its reserved bits and trailing extension |
| NalUnits.ParsedConfigIsRecord | app/src/reverse_display.c:1051-1142 | nothing else is read: no truncated, empty or zero-unit record |
| NalUnits.CarrierSizes | app/src/reverse_display.c:1022-1030 | how much longer the byte stream is than the length-prefixed form |
| NalUnits.UnitLengthExact | app/src/reverse_macos_helpers.c:55-64 | a byte stream reader finds the whole unit if and only if the unit obeys the byte rules of H.264 section 7.4.1 |
| NalUnits.SplitRecovers | app/src/reverse_macos_helpers.c:55-64 | splitting the byte stream gives back the units if and only if all obey the byte rules |
| H264Convert.HasStartCode | app/src/reverse_display.c:962-976 | the loop finds two or more zeros followed by a one |
| H264Convert.MistakenExactly | app/src/reverse_display.c:962-976 | a length-prefixed packet passes that test if and only if its first unit has 1 or 256 to 511 bytes (four length bytes), or 1 byte (three) |
| H264Convert.ReadLength | app/src/reverse_display.c:1007-1011 | the byte loop reads a big-endian length |
| H264Convert.PutUnit | app/src/reverse_macos_helpers.c:61-62 | appends a start code and the unit |
| H264Convert.UnitInBuffer | app/src/reverse_display.c:1030-1048 | the second pass finds the length and unit that the first pass saw, within bounds |
| H264Convert.FillUnits | app/src/reverse_display.c:1030-1048 | the second pass writes exactly the byte stream of the units and ends where the first pass ended |
| H264Convert.MacMeasureUnit | app/src/reverse_macos_helpers.c:44-54 | one round of the first pass measures the next unit, or the packet is refused |
| H264Convert.MacMeasure | app/src/reverse_macos_helpers.c:44-54 | the first pass succeeds exactly on acceptable packets and computes the exact output size |
| H264Convert.MacFill | app/src/reverse_macos_helpers.c:57-64 | the second pass runs to the end of the data and fills the buffer exactly |
| H264Convert.MacAnnexB | app/src/reverse_macos_helpers.c:41-67 | returns a buffer exactly when the packet is acceptable and memory is available, holding the byte stream |
| H264Convert.MacAcceptsExactly | app/src/reverse_macos_helpers.c:41-66 | accepted packets are exactly the non-empty concatenations of length-prefixed non-empty units within the limits; the output is the start-code-prefixed concatenation |
| H264Convert.MeasurePacket | app/src/reverse_display.c:1001-1022 | succeeds exactly on well-formed packets and counts their units |
| H264Convert.NormalizePacket | app/src/reverse_display.c:987-1049 | the Windows converter: what it rejects, borrows and returns in a new buffer |
| H264Convert.WindowsCorrectExactly | app/src/reverse_display.c:987-1049 | it yields the byte stream of a well-formed packet if and only if the start-code test is not misled, or all units have one byte |
| H264Convert.ShortUnitPassesUnconverted | app/src/reverse_display.c:962-976 | units of one and two bytes with four length bytes: Windows passes the packet on as it is, macOS converts it |
| H264Convert.WindowsAcceptsExactly | app/src/reverse_display.c:987-1049 | accepted packets are exactly those that pass the start-code test, returned as they are, and the concatenations of length-prefixed non-empty units within the size limit, returned as byte streams |
| H264Convert.CarriersCoincide | app/src/reverse_display.c:962-976 | a four-byte-length packet is its own byte stream if and only if all units have one byte |
| H264Convert.PlatformsAgreeExactly | app/src/reverse_macos_helpers.c:41-66 | on well-formed four-byte-length packets within the limits both platforms agree exactly in those cases |
| H264Convert.ConvertedPacketSplits | app/src/reverse_macos_helpers.c:41-66 | the converter's output splits into the parsed units if and only if they obey the byte rules |
| H264Convert.MeasureList | app/src/reverse_display.c:1065-1110 | the measuring pass over one counted list accepts exactly complete lists |
| H264Convert.MeasureConfig | app/src/reverse_display.c:1051-1110 | the measuring pass accepts exactly the avcC records and computes the exact size |
| H264Convert.FillConfig | app/src/reverse_display.c:1110-1142 | the fill pass writes exactly the SPS units, then the PPS units |
| H264Convert.NormalizeConfig | app/src/reverse_display.c:1051-1142 | the configuration converter as a whole, with its failures |
| H264Convert.ConvertedConfigSplits | app/src/reverse_display.c:1051-1142 | every record becomes the byte stream of its SPS and PPS units, and splits into them if and only if they obey the byte rules |
| Recorder.StepKeepsGood | app/src/recorder.c:287-461 | every push, stop and turn of the recorder thread keeps the invariant, whatever the muxer answers |
| Recorder.WrittenIsABeginning | app/src/recorder.c:287-461 | at any point of any run, each stream's file content is a beginning of its accepted non-config packets, in order and once |
| Recorder.AssertionsHold | app/src/recorder.c:325-352 | the assertions of the loop never fail: a disabled stream has no packets, a round has at least one, the end finds both queues empty |
| Recorder.SuccessIsComplete | app/src/recorder.c:425-461 | a recording that ends well holds every accepted packet, but for a last video packet whose write failed |
| Recorder.MuxerTimestampsIncrease | app/src/recorder.c:106-121 | for any input timestamps and time bases the muxer gets strictly increasing ones, with dts equal to pts |
| Recorder.DurationsTelescope | app/src/recorder.c:386-434 | video durations add up to the span of the input timestamps plus 100000 |
| Recorder.LastWriteCompletes | app/src/recorder.c:425-440 | the write of the last packet completes the video or loses that packet only |
| Recorder.DrainDecreases | app/src/recorder.c:299-352 | after a stop every turn consumes something |
| Recorder.StoppedLoopEnds | app/src/recorder.c:299-352 | after a stop the loop ends within as many turns as packets remain |
| Recorder.FailsExactly | app/src/recorder.c:355-461 | a turn fails if and only if the trailer fails at the end, one of its own writes fails, or it finds a stop with no origin, no timed video packet at hand and, without video, no timed audio packet |
| Recorder.EndsWellExactly | app/src/recorder.c:299-461 | with a muxer that never fails, a recording that has ended went well if and only if no turn gave up that way |
| Recorder.StoppedRunEndsWellExactly | app/src/recorder.c:299-461 | every schedule with a stop and enough turns ends, and ends well if and only if no turn gave up |
| Recorder.GivingUpLosesTheQueue | app/src/recorder.c:355-380 | giving up loses exactly the video frames in the queue; none was written before |
| Recorder.StopBehindConfigLosesVideo | app/src/recorder.c:355-380 | a run in which a queued frame is lost: the stop comes while only a config packet is at hand |
| Recorder.StopBehindAudioLosesVideo | app/src/recorder.c:355-380 | another such run: an audio packet is at hand, and the frame and the stop arrive before it is processed |
| Recorder.Recorder.VideoSinkPush | app/src/recorder.c:608-643 | accepts a packet exactly when not stopped |
| Recorder.Recorder.AudioSinkPush | app/src/recorder.c:697-733 | accepts a packet exactly when not stopped |
| Recorder.Recorder.RequestStop | app/src/recorder.c:848-854 | sets the stop flag and nothing else |
| Recorder.Recorder.TakePackets | app/src/recorder.c:302-352 | the section under the mutex takes at most one packet of each stream |
| Recorder.Recorder.ProcessPackets | app/src/recorder.c:354-424 | one round outside the mutex: config packets, origin, look-ahead write and audio write |
| Recorder.Recorder.FinishRecording | app/src/recorder.c:425-461 | the last video packet and the trailer |
| DeviceMsg.DecisionStable | app/src/device_msg.c:10-130 | a decision on a buffer does not change when more bytes follow |
| DeviceMsg.CompleteEarly | app/src/device_msg.c:10-130 | a message is decided by its own bytes alone |
| DeviceMsg.MalformedEarly | app/src/device_msg.c:10-130 | a malformed message is noticed within 21 bytes |
| DeviceMsg.WireReadsBack | app/src/device_msg.c:10-130 | every message in its wire form is read back, to its last byte and no further, whatever follows |
| DeviceMsg.PressureRoundTrip | app/src/device_msg.c:87-89 | every fixed-point pressure is written again as the same field |
| Receiver.DeserializeIsLawful | app/src/device_msg.c:10-130 | deserialization has the laws that make parsing independent of the split |
| Receiver.ReceiveResumes | app/src/receiver.c:194-216 | parsing a beginning and then the rest is parsing the whole |
| Receiver.FullBufferTooLong | app/src/receiver.c:219-255 | a full undecided buffer means a message longer than the buffer |
| Receiver.ProcessMsgs | app/src/receiver.c:194-216 | consumes exactly the complete messages at the front, or reports a malformed one |
| Receiver.ShiftLeft | app/src/receiver.c:241-247 | moves what is left to the front of the buffer |
| Receiver.RunReceiver | app/src/receiver.c:219-255 | for every split of the stream into receive results, the dispatched messages and the verdict are those of the whole stream |
| Receiver.EveryMessageArrives | app/src/receiver.c:219-255 | well-formed messages that fit the buffer are all delivered, in order and once |
| Receiver.OnlyClipboardsAreTooLong | app/src/receiver.c:219-255 | the buffer is full before a receive only in front of a clipboard text that exceeds it |
| DeviceWriter.FindTruncationIndex | server/src/main/java/com/genymobile/scrcpy/util/StringUtils.java:8-21 | the loop finds the last boundary between two characters up to the limit |
| DeviceWriter.TruncatesAtLastBoundary | server/src/main/java/com/genymobile/scrcpy/util/StringUtils.java:8-21 | no longer beginning of the text that fits ends between two characters |
| DeviceWriter.WritingKeeps | server/src/main/java/com/genymobile/scrcpy/control/DeviceMessageWriter.java:22-69 | a text within the limit arrives whole, a pressure within one fixed-point unit, everything else unchanged |
| DeviceWriter.WrittenReadsBack | server/src/main/java/com/genymobile/scrcpy/control/DeviceMessageWriter.java:22-69 | whatever the device writes, truncated and rounded as it does, is read back to its last byte and fits the receiver's buffer |
| DeviceWriter.EverythingWrittenArrives | server/src/main/java/com/genymobile/scrcpy/control/DeviceMessageWriter.java:22-69 | a whole session of written messages arrives in order and once, however the socket splits it |
| Touch.MapPosition | app/src/reverse_display.c:1460-1502 | fails exactly when a size is not positive; otherwise the point lies inside the desktop |
| Touch.MapAxisGrows | app/src/reverse_display.c:1483-1492 | the mapping keeps order on each axis in spite of truncation toward zero |
| Touch.MapAxisMeetsEdges | app/src/reverse_display.c:1483-1502 | the first and last pixel, and what lies beyond, map to the desktop's edges |
| Touch.FindsLive | app/src/reverse_display.c:1449-1458 | the search finds a contact if and only if one has that id |
| Touch.ContactsValid | app/src/reverse_display.c:1715-1808 | for every run: at most ten contacts with different 32-bit ids, and the primary is one of them or none |
| TouchFrames.FramesContinue | app/src/reverse_display.c:1647-1677 | each native frame repeats every contact of the last frame where it was, but for one that appears, changes or lifts where it was, or cancels all; no frame follows a refused one that was not a cancellation; while frames are used, the contacts are those of the last frame |
| TouchFrames.ScreenMatchesExactly | app/src/reverse_display.c:1647-1713 | while frames are used, the contacts on the screen are those of the injector if and only if the last frame is not a refused cancellation |
| TouchFrames.RefusedCancelForgets | app/src/reverse_display.c:1679-1713 | a finger goes down and the session ends with the cancellation refused: the finger stays on the screen, though no contact is left in the injector |
| TouchFrames.EverythingInside | app/src/reverse_display.c:1460-1502 | every contact and every position ever sent lies within any area that contains the desktops seen |
| TouchMouse.ButtonsAlternate | app/src/reverse_display.c:1605-1645 | for every run and all answers: successful presses and attempted releases alternate, beginning with a press, and the flag says which came last |
| TouchMouse.HeldIsPressed | app/src/reverse_display.c:1605-1645 | when no release fails, the flag is the state of the button |
| TouchMouse.StrandsExactly | app/src/reverse_display.c:1605-1645 | a step leaves the button held with no contact if and only if it is a failing move, or lifts a last contact that is not the primary while the button is or gets pressed |
| TouchMouse.NeverStrandedExactly | app/src/reverse_display.c:1715-1808 | over a run the button is never left so if and only if no step is of that kind |
| TouchMouse.EndReleases | app/src/reverse_display.c:1679-1713 | cancelling releases the button if and only if it is not left so |
| TouchMouse.OrderlyNeverStrands | app/src/reverse_display.c:1715-1808 | if gestures begin with a down, the primary lifts last and moves succeed, the button is never held without a contact |
| TouchMouse.FirstFingerLiftsFirst | app/src/reverse_display.c:1624-1634 | first finger down, second down, first up, second up: the button is held with no contact left, and still after the end of the session |
| TouchInjector.TouchInjector.FindTouch | app/src/reverse_display.c:1449-1458 | the loop is the search of the model |
| TouchInjector.TouchInjector.AddTouch | app/src/reverse_display.c:1515-1529 | adds behind the others, or refuses the eleventh |
| TouchInjector.TouchInjector.RemoveTouch | app/src/reverse_display.c:1531-1542 | the shift removes one contact and keeps the order |
| TouchInjector.TouchInjector.InjectMouseFrame | app/src/reverse_display.c:1605-1645 | press, move and release of the fallback |
| TouchInjector.TouchInjector.InjectTouchFrame | app/src/reverse_display.c:1647-1677 | the native frame, and the change to the fallback when it is refused |
| TouchInjector.TouchInjector.CancelTouches | app/src/reverse_display.c:1679-1713 | ends all contacts, by release or by a cancelling frame |
| TouchInjector.TouchInjector.InjectTouch | app/src/reverse_display.c:1715-1808 | the whole handling of one touch message on the array and fields |
| TouchInjector.TouchInjector.OnScroll | app/src/reverse_display.c:1821-1837 | a scroll ends the touches and moves the mouse |
| Cursor.DrawCursor | app/src/reverse_display.c:244-281 | in place: every pixel under the clipped shape is combined with its shape pixel, every other pixel and all padding is unchanged, all accesses in bounds |
| Cursor.DrawRow | app/src/reverse_display.c:268-279 | one clipped row |
| Cursor.DrawnStep | app/src/reverse_display.c:275-279 | drawing one more pixel disturbs no other |
| Cursor.DrawnIsUnique | app/src/reverse_display.c:244-281 | the pointwise definition leaves one image only |
| Cursor.BlendBetween | app/src/reverse_display.c:227-242 | a blended colour lies between the shape's and the desktop's |
| Cursor.BlendEnds | app/src/reverse_display.c:227-242 | full and zero alpha of the formula agree with the special cases |
| Cursor.XorTwice | app/src/reverse_display.c:318-322 | drawing an exclusive or twice restores the colours |
| Cursor.MonochromeFollowsMasks | app/src/reverse_display.c:364-386 | a monochrome shape is the image masked by the first mask, exclusive or the second |
| AudioBuf.WriteAppends | app/src/util/audiobuf.c:79-118 | a write that fits, around the end or not, appends to the ring |
| AudioBuf.ReadRemoves | app/src/util/audiobuf.c:35-77 | a read takes the oldest samples and leaves the others |
| AudioBuf.RemainderWraps | app/src/util/audiobuf.c:45 | the cursor remainders step back by the array length at most once |
| AudioRing.FirstInFirstOut | app/src/util/audiobuf.c:35-118 | for every interleaving of a writer and a reader, each cursor access and each copied sample a step: the k-th sample taken is the k-th published, or was skipped |
| AudioRing.HoldsOutstanding | app/src/util/audiobuf.c:35-118 | at every moment the array between the cursors holds what was published and not yet taken |
| AudioRing.NoRace | app/src/util/audiobuf.c:35-118 | the writer and the reader never have the same place of the array to copy |
| AudioRing.CallsFindLevel | app/src/util/audiobuf.c:35-118 | the remainders that a call computes from the cursors are the samples there are and the room left at that moment |
| AudioRing.CellIsRemainder | app/src/util/audiobuf.c:45 | the place of the k-th sample of the stream is the remainder of k |
| AudioRing.StepsOnContents | app/src/util/audiobuf.c:35-118 | a write appends at its last step, a read removes the oldest at its last step, and no other step changes the contents |
| AudioRing.ReadsOldest | app/src/util/audiobuf.c:35-77 | what a read has copied when it ends is the oldest samples, although the writer may publish meanwhile |
| AudioBuf.AudioBuf.CanRead | app/src/util/audiobuf.h:62-67 | the number of samples held |
| AudioBuf.AudioBuf.CanWrite | app/src/util/audiobuf.c:92 | the room left; one slot stays free |
| AudioBuf.AudioBuf.Read | app/src/util/audiobuf.c:35-77 | up to the wanted number of the oldest samples |
| AudioBuf.AudioBuf.Write | app/src/util/audiobuf.c:79-118 | as many samples as fit, in order, behind the others |
| AudioRegulator.SamplesFlowInOrder | app/src/audio_regulator.c:62-284 | in every interleaving what was removed followed by what is buffered is what was written |
| AudioRegulator.AssertionsHold | app/src/audio_regulator.c:209-237 | enough old samples can be dropped, and the room found under the mutex is still there after it, in every interleaving |
| AudioRegulator.LevelLimited | app/src/audio_regulator.c:258-271 | in every interleaving, between pushes the level is at most the limit for running playback, at most the smaller initial one before playback, and at most the one for the `played` flag as the last push found it |
| AudioRegulator.LimitIsMaxBuffered | app/src/audio_regulator.c:242-271 | the limit is the one for the `played` flag as the push found it, whatever pulls come before it can take the mutex; the push waits exactly while a pull holds the mutex and there is an excess, and then drops just that, the oldest samples |
| AudioRegulator.PullTakesWhatItFound | app/src/audio_regulator.c:62-96 | the samples a pull has counted are still there when it takes them, and it plays exactly those |
| AudioRegulator.NothingPlayedEarly | app/src/audio_regulator.c:73-94 | no sample is played before the level has once been at the target |
| AudioRegulator.Regulator.constructor | app/src/audio_regulator.c:402-412 | an empty buffer of the target plus one second |
| AudioRegulator.Regulator.PullSamples | app/src/audio_regulator.c:62-119 | silence only before the target is reached; then the oldest samples, completed by silence |
| AudioRegulator.Regulator.DropAndWrite | app/src/audio_regulator.c:215-237 | with a full buffer exactly as many old samples go as new ones come |
| AudioRegulator.Regulator.WriteSamples | app/src/audio_regulator.c:209-238 | the newest samples of old and new together stay |
| AudioRegulator.Regulator.LimitLevel | app/src/audio_regulator.c:242-271 | drops the oldest samples above the limit and no others |
| Controller.NoLostWakeUp | app/src/controller.c:162-180 | a worker that waits unsignalled has nothing to do |
| Controller.SentInOrder | app/src/controller.c:95-126 | accepted messages are those sent, in hand, and queued, in order |
| Controller.AcceptedExactly | app/src/controller.c:103-121 | over a whole run all pushed messages are accepted, in order, if and only if none was droppable and met a full queue |
| Controller.UhidAlwaysAccepted | app/src/controller.c:103-121 | over a whole run the UHID creations and destructions accepted are exactly those pushed, in order |
| Controller.DroppableBounded | app/src/controller.c:103-121 | at most 60 droppable messages are queued, beside any number of others |
| Controller.NewestSizeTakenFirst | app/src/controller.c:182-195 | a pending resize goes first, with the newest size, whether the worker was woken or did not wait |
| Controller.NoStaleSize | app/src/controller.c:128-140 | when no resize is pending the newest size was the last taken |
| Controller.NothingTakenAfterStop | app/src/controller.c:175-180 | after a stop nothing more is taken |
| Controller.Controller.PushMsg | app/src/controller.c:95-126 | the push section, with its answer and signal |
| Controller.Controller.ResizeDisplay | app/src/controller.c:128-140 | the resize section |
| Controller.Controller.RequestStop | app/src/controller.c:239-245 | the stop section, with its signal |
| Controller.Controller.TakeNext | app/src/controller.c:175-196 | the worker's section once its wait is over |
| FrameHandoff.EventsMatchFrames | app/src/screen.c:446-473 | events queued, being posted and being handled are one per pending frame, so the consuming assertion holds |
| FrameHandoff.DisplayedInOrder | app/src/screen.c:957-1016 | frames are displayed in order and at most once, across pauses and failures to apply one |
| FrameHandoff.NewestFrameDisplayed | app/src/screen.c:957-984 | with nothing pending and no pause the newest frame is shown if and only if applying it succeeded |
| FrameHandoff.UnpauseShowsNewest | app/src/screen.c:986-1016 | with nothing pending, what unpausing gives to the display is the newest frame of all, shown if and only if applying it succeeds |
| FrameHandoff.PauseEndShowsKept | app/src/screen.c:986-1016 | unpausing or pausing again gives the newest frame kept meanwhile to the display, and nothing when none was kept; it shows if and only if applying it succeeds |
| FrameHandoff.FramesAccountedFor | app/src/frame_buffer.c:46-73 | pushed equals consumed plus overwritten plus pending |
| FrameHandoff.FrameBuffer.Push | app/src/frame_buffer.c:46-63 | the frame becomes the pending one, or nothing changes on failure |
| FrameHandoff.FrameBuffer.Consume | app/src/frame_buffer.c:65-73 | takes the pending frame |
| FrameHandoff.Screen.FrameSinkPush | app/src/screen.c:446-473 | an event is due exactly when no frame was pending |
| FrameHandoff.Screen.UpdateFrame | app/src/screen.c:957-984 | the handler gives the frame to the display, or keeps it while paused; it fails exactly when applying a given frame fails |
| FrameHandoff.Screen.SetPaused | app/src/screen.c:986-1016 | unpausing gives the kept frame to the display, and pausing again does not lose it |
| Clock.Clock.Update | app/src/clock.c:17-32 | the update in place is the weighted average of the model |
| Clock.EstimateWithinObservations | app/src/clock.c:17-32 | after any updates the offset lies between the smallest and largest observation |
| Clock.Clock.ToSystemTime | app/src/clock.c:34-38 | the system time of a stream time, in place |
| Clock.SystemTimeWithinObservations | app/src/clock.c:34-38 | after any updates a stream time is converted within the delays observed |
| Clock.UpdateApproaches | app/src/clock.c:17-32 | an update never moves away from the observation, and approaches it from 32 units on |
| Clock.EstimateConverges | app/src/clock.c:17-32 | with a constant true offset the error never grows and comes down to at most 31 |
| Clock.ReachesExactly | app/src/clock.c:17-32 | after any observations, enough repetitions of one offset bring the estimate to it if and only if the estimate was on its far side, seen from zero |
| Clock.FixedExactly | app/src/clock.c:17-32 | exactly which estimates an observation leaves unchanged |
| Clock.ErrorOf31Stays | app/src/clock.c:17-32 | after 32 observations of 0, any number of observations of 31 leaves the estimate at 0 |

## Left out

- Compensation and average buffering of the audio regulator, and its underflow counters: floating point, and not part of the buffer's movement.
- AudioRegulator.Regulator.WriteSamples: the class is one thread at a time; what other threads may do between reading a cursor and publishing it is in the step models, `AudioRing` for the array and `AudioRegulator` for the mutex and the levels.
- AudioRing.FirstInFirstOut: the acquire and release order of the cursors is taken as an interleaving; copies do not race (`AudioRing.NoRace`).
- AudioBuf.AudioBuf.Write: the silence write is a write of zeros; samples are opaque values, not bytes times a sample size.
- AudioEncoder.Encoder.PushChunk: a stereo frame is one value, not two 16-bit samples; there is always an encoder; nothing is known of the frames of a missing chunk but their number.
- The conversion of float audio to 16-bit samples.
- Memory-allocation failures, except in the H.264 converters.
- Overflow of machine integers beyond the ranges that the code checks, such as the 32-bit product of cursor pitch and height.
- DXGI, WASAPI, SDL, FFmpeg, sockets and adb processes are oracles; capture, encoding and rendering are not modelled.
- The recorder's header processing; a run begins behind it, with any packets queued.
- Recorder.Recorder.ProcessPackets: an absent timestamp is a missing value, and rescaling is an arbitrary function.
- FrameHandoff.EventsMatchFrames: posting an event succeeds; window sizing on a frame is left out.
- Controller.AcceptedExactly: growing the queue for a message that may not be dropped succeeds.
- Receiver.RunReceiver: what a message does once dispatched is left out; it ends at the end of the stream or at an error.
- DeviceWriter.EverythingWrittenArrives: the numbers and byte arrays handed to the writer have the widths of their fields, and a text begins with a character; the scroll message, which has no case in this writer, is covered as a wire form only.
- The conversion of mouse positions to the units of the virtual desktop; a virtual desktop that is too small counts as a failed event.
- Wheel events, keys and text injection.
- StallReport.PausesFollowCommands: the commands of the Windows host; a command may also begin after the stop, when the program ignores it.
- TouchFrames.ScreenMatchesExactly: the contacts on the screen are those of the last accepted frame; that the system itself lets contacts expire is not modelled.
- Cursor.DrawCursor: the three drawing loops are one loop that applies the operation the shape gives for a pixel.
- The video regulator, packet merger, HID reports, key maps, adb output parsing, orientation tables, window sizing, command line and user interface.
