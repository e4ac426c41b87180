# VoiceStick: verified model

VoiceStick is a push-to-talk device and two desktop clients. The device captures speech, encodes it with
Opus and notifies it over BLE; the desktop hands it to a speech recognizer and pastes the text. The same
BLE service carries firmware updates. This project models the stateful and byte-level cores of that system
and proves what they promise each other, in Dafny.

- **Firmware update.** `OtaProtocol` is the frame format both ends use. `OtaDevice` is the device's update
  state with its handlers, `OtaAnswers` what each write comes to, `OtaSafety` what the device keeps under any
  traffic. `OtaStream` is an image on its way. `OtaWindows` and `OtaWindowsProgress` are the credit-limited
  Windows sender in conversation with the device, `OtaWindowsHost` and `OtaWindowsEnding` that sender under any
  answers and failures; `OtaMac` and `OtaMacEnding` are the callback-driven macOS sender. `OtaWindowsTasks` and
  `OtaMacTasks` are the senders' classes.
- **Audio transport.** `AudioTransport` is the frame encoder, `AudioParser` the parsers, `AudioRoundTrip`
  and `AudioLimits` what they owe each other, `WireLayout` the octets of every frame of the BLE service,
  `TransportProfile` the choice of bundle and bitrate. `AudioPipeline` is the
  capture queue, the transmit loop and the ACK window as a state machine, `AudioTasks` the same as a class;
  `AudioPipelineSafety`, `AudioCapture`, `AudioDelivery`, `AudioEnding`, `AudioWindow`, `AudioStallSteps` and
  `AudioStall` hold its invariants and results.
- **Ogg Opus.** `OggCrc` (with `WordLaws`) is the checksum, `OggPage` a page reader after RFC 3533,
  `OggMuxer` the muxer, `OggRoundTrip` what a reader recovers and `OggHeaders` what it learns from the headers.
- **Sessions.** `AsrSession`, `AsrSafety`, `AsrResults`, `AsrProgress`, `AsrCaller` and `AsrTasks` are the recognition
  client. `Coordinator`, `CoordinatorRecording`, `CoordinatorPaste`, `CoordinatorDictation` and
  `CoordinatorTasks` are recording and paste confirmation; `SubtitleIndex`, `SubtitleDictation` and
  `SubtitleTasks` the index of overlapping subtitle recordings.
- **Texts.** `Text`, `ConfigText`, `FirmwareVersion` and `FirmwareOrder`; `Bytes` and `Optional` are shared.

A machine is a datatype for its state, a function for each handler, and a step over events; a run is any
sequence of steps. Where the source updates fields in place, a class has the same fields and each of its
methods is proved equal to the handler function. `CoordinatorTasks` goes on to serve whole runs on its fields.

## Where the code does not keep a promise

The model keeps the code as it is. Each of these is a property that fails, with its exact condition proved.

- A v2 frame with an empty packet is encoded but refused by the parser (`AudioRoundTrip.ParseUndoesEncode`).
- A v1 frame is parsed whatever its reserved octet is (`AudioRoundTrip.V1CanonicalIffReservedIsZero`).
- A recording falls silent for good once the next bundle it would form ends more than a window beyond the last
  notified frame (`AudioStall.StuckIff`); from the start exactly if the transmit loop first runs after at least
  24 + window - bundle size + 1 captures (`AudioStall.LateStartStuckIff`).
- An ABORT of another transfer ends the active one and leaks its driver handle (`OtaSafety.LeakIff`).
- Without a progress callback the Windows sender never completes an update: it reports a failure after its final
  wait, or, if the last chunk starts beyond the first 48 KiB of writes without response, waits for ever
  (`OtaWindowsProgress.CompletesIffProgressIsHeard`).
- A data frame does not fit the link below a PDU of 35 octets (Windows) or a write length of 32 (macOS).
- A packet of exactly 255 octets is lost in the Ogg stream (`OggRoundTrip.CarriesAllIff`), and an oversized
  first packet costs the stream its headers (`OggRoundTrip.HeadersLostIff`).
- Chunks handed to the recognition client behind one marked last or behind finish() are sent after FinishSession
  if they were queued and lost otherwise (`AsrCaller.FinishIsLastIff`). Chunks handed over
  between sessions are forgotten.
- A recognition session whose connection the server closes while it is starting or finishing stays current for
  ever, and no other can be begun (`AsrProgress.StrandedIff`).
- An overlay callback commits any pending confirmation of equal text, paused or not
  (`CoordinatorPaste.StaleCallbackPastesIff`).
- A recording whose last chunk finds the recognizer refusing shows an error in the finalizing state
  (`CoordinatorPaste.ErrorIsMaskedIff`).
- A paired-device line with a comma in a text field does not read back (`ConfigText.EntryReadsBackIff`).

## Assumptions

- A handler, or a stretch of a task between two blocking calls, is one step. Queue overflow (take the oldest,
  put the newest) is one step; the wait for the ACK window is judged by its last look.
- A recording has fewer than 2^32 frames, and its session id is not zero.
- The update partition is at most 2^32 - 2^16 octets (the app slots hold 3 MB), so no device counter wraps.
- A failed flash write leaves the partition's counted content as it was. Each transfer id stands for one image.
- For the completion of an update: the link keeps order and loses nothing, progress notifications are
  delivered, all within the ten seconds of the final wait, and the flash driver reports no error. `OtaSafety`
  and `OtaWindowsHost` assume none of this.
- The recognition server confirms a connection once, and a session once after it was asked for; session
  events carry a session id. A write without a socket fails; compression and JSON encoding do not.
- The coordinator's output goes to the focused app, its text transform is `original`, END is the empty frame the
  firmware sends, Opus packets have 1 to 255 octets, and recognizer callbacks are events of their own.

## Model

| member | source | states |
|---|---|---|
| OtaProtocol.DecodeUndoesFrame | desktop/macos/Sources/VoiceStickApp/BleProtocol.swift:215-241 | every BEGIN, DATA, END and ABORT frame a host builds is read by the device as the command it was built from |
| OtaProtocol.FrameUndoesDecode | firmware/components/voice_ble/voice_ble.c:314-387 | an accepted write rebuilt from its command gives its significant octets, so the frame form is canonical exactly for writes without ignored trailing octets |
| WireLayout.FrameIsLaidOut | desktop/macos/Sources/VoiceStickApp/BleProtocol.swift:215-241 | octet by octet, a write is the frame of a command if and only if version, type, header length and the little-endian fields stand at their places in the documented layout |
| WireLayout.WriteIsRefusedIff | firmware/components/voice_ble/voice_ble.c:314-387 | the device takes a write if and only if version, a known type and the header length of that type are right; otherwise its length decides between the two refusals |
| OtaDevice.Updater.Begin | firmware/components/voice_ble/voice_ble.c:167-213 | the BEGIN handler: gives up an active transfer, checks partition and size, opens a handle, resets the counters, answers ready or the right error |
| OtaDevice.Updater.WriteData | firmware/components/voice_ble/voice_ble.c:215-257 | the DATA handler: appends only at the written offset within the image, reports at the 32 KiB boundaries and at the end, never wraps a counter |
| OtaDevice.Updater.RaiseNextProgress | firmware/components/voice_ble/voice_ble.c:251-253 | the loop leaves the next report at the first 32 KiB boundary above what is written |
| OtaDevice.Updater.Finish | firmware/components/voice_ble/voice_ble.c:259-297 | the END handler: refuses an incomplete image, releases the handle, selects the boot image and restarts without answering, or clears the state on a driver error |
| OtaDevice.Updater.Abort | firmware/components/voice_ble/voice_ble.c:299-312 | the ABORT handler: clears the state for any transfer id, frees the handle only for the active one |
| OtaDevice.Updater.Access | firmware/components/voice_ble/voice_ble.c:314-387 | the access callback: version, header length and type checks, then the handler of the decoded command |
| OtaDevice.Updater.OnDisconnect | firmware/components/voice_ble/voice_ble.c:518-527 | a disconnect aborts the active transfer and keeps the boot image |
| OtaDevice.RaisedIsBoundary | firmware/components/voice_ble/voice_ble.c:251-253 | the reporting loop keeps next_progress equal to (written / 32 KiB + 1) * 32 KiB |
| OtaAnswers.AcceptedIff | firmware/components/voice_ble/voice_ble.c:167-312 | for every device, command and driver: a command is accepted, with its own answer and no error report, if and only if it fits the transfer and the driver objects to nothing; otherwise it is refused with one error report |
| OtaAnswers.AcceptedDoes | firmware/components/voice_ble/voice_ble.c:197-312 | what an accepted BEGIN, DATA, END or ABORT leaves of counters, partition, handles, boot image and reports |
| OtaAnswers.RefusedLeaves | firmware/components/voice_ble/voice_ble.c:167-297 | a refused command says why and answers accordingly; a refused END of the whole image gives up the transfer and its handle and keeps the boot image, a refused DATA changes nothing |
| OtaAnswers.RunNeedsApproval | firmware/components/voice_ble/voice_ble.c:270-296 | over every run: a new boot image or a restart means that an END arrived whose image the driver accepted and let be selected |
| OtaSafety.OnlyWholeImagesBoot | firmware/components/voice_ble/voice_ble.c:167-312 | for any loss, repetition, reordering and interleaving of the writes of any transfers: the partition holds the counted prefix of the active image, and only a whole image is ever selected for boot |
| OtaSafety.BootSwitch | firmware/components/voice_ble/voice_ble.c:259-297 | the boot image changes only by END of the active transfer with its whole image written, and that step answers done |
| OtaSafety.LeakIff | firmware/components/voice_ble/voice_ble.c:299-312 | over a run a driver handle leaks if and only if some ABORT named another transfer than the active one |
| OtaStream.DataTaken | firmware/components/voice_ble/voice_ble.c:215-257 | the next chunk of an image is taken, and reported exactly when it crosses a report boundary or ends the image |
| OtaWindows.DataFrameFitsIff | desktop/windows/src/ble_central_win.cc:1156-1158 | chunks have 20 to 244 octets, and a data frame fits the link exactly if its PDU has at least 35 octets |
| OtaWindowsTasks.UpdateSession.Proceed | desktop/windows/src/ble_central_win.cc:1148-1229 | one round of the sending coroutine: BEGIN; return if cancelled; window test and next chunk; END once everything is confirmed; or the end of the ten-second wait |
| OtaWindowsTasks.UpdateSession.OnWriteFailure | desktop/windows/src/ble_central_win.cc:1187-1192 | a write that fails or throws ends the coroutine and the session |
| OtaWindowsTasks.UpdateSession.CancelFirmwareUpdate | desktop/windows/src/ble_central_win.cc:372-391 | cancelling asks the coroutine to stop, writes ABORT while connected and ends the session, once |
| OtaWindowsHost.FramesFollowScript | desktop/windows/src/ble_central_win.cc:1130-1320 | whatever answers, notices, failures, time-outs, cancellations and disconnects come, in any order: the frames are a beginning of BEGIN, the image in consecutive chunks, END; completion is called once at most; no data frame follows the ABORT of a cancellation |
| OtaWindowsEnding.CompletedIff | desktop/windows/src/ble_central_win.cc:1244-1298 | over every run: completion is called with success if and only if the first happening that ends the session is the report that this transfer is done; refusals, failed writes, the final wait, error reports, cancellation and disconnects end it with failure, and ABORT is written for a cancellation alone |
| OtaWindowsTasks.UpdateSession.OnWriteStatus | desktop/windows/src/ble_central_win.cc:1152-1156 | what the answer to BEGIN, to a chunk with response, or to END does to the coroutine |
| OtaWindowsTasks.UpdateSession.OnStateEvent | desktop/windows/src/ble_central_win.cc:1244-1280 | progress, done and error events: confirmation is stored only with a progress callback, foreign and late events are ignored |
| OtaWindowsTasks.UpdateSession.FinishFirmwareUpdate | desktop/windows/src/ble_central_win.cc:1282-1298 | the session ends at most once |
| OtaWindows.RunKeeps | desktop/windows/src/ble_central_win.cc:1158-1229 | every step of host, device and ordered link keeps the conversation invariant: chunks under way chain from written to offset, reports ascend, the last one is less than 32 KiB behind |
| OtaWindowsProgress.NothingRefused | desktop/windows/src/ble_central_win.cc:1158-1229 | no write is refused (END is never too early; the device restarts without answering it), confirmed never exceeds written, at most 48 KiB and one chunk are unconfirmed, completion is called at most once |
| OtaWindowsProgress.WindowOpensAtRest | desktop/windows/src/ble_central_win.cc:1170-1175 | once all traffic is delivered, less than 32 KiB is unconfirmed, so the window is open |
| OtaWindowsProgress.RestMeansDone | desktop/windows/src/ble_central_win.cc:1158-1229 | deadlock freedom: with a progress callback the conversation comes to rest only when completed and committed; without one, only when the final wait has given up or the sender waits for a window that never opens |
| OtaWindowsProgress.RunIsShort | desktop/windows/src/ble_central_win.cc:1158-1229 | termination: every step lowers a measure, so every run has at most 4 * size + 8 steps |
| OtaWindowsProgress.CompletesIffProgressIsHeard | desktop/windows/src/ble_central_win.cc:1158-1267 | an update at rest was committed and reported complete if and only if the image is not empty and the caller passed a progress callback; it was reported as failed if and only if the image is empty, or there is no callback and the last chunk starts within the first 48 KiB or chunks wait for answers; otherwise nothing is ever reported |
| OtaMac.DataFrameFitsIff | desktop/macos/Sources/VoiceStickApp/BleCentral.swift:195-196 | chunks have 20 to 244 octets, and a data frame fits one write exactly where 32 octets fit |
| OtaMacTasks.FirmwareUpdate.SendNextFrame | desktop/macos/Sources/VoiceStickApp/BleCentral.swift:426-478 | the next frame or frames for the session record: BEGIN, chunks while the peripheral takes them, END once |
| OtaMacTasks.FirmwareUpdate.SendChunks | desktop/macos/Sources/VoiceStickApp/BleCentral.swift:445-462 | the loop over canSendWriteWithoutResponse |
| OtaMacTasks.FirmwareUpdate.FailUpdate | desktop/macos/Sources/VoiceStickApp/BleCentral.swift:510-519 | failure drops the session, calls completion once and sends ABORT if the device can still be reached |
| OtaMacTasks.FirmwareUpdate.OnStateChanged | desktop/macos/Sources/VoiceStickApp/BleCentral.swift:480-508 | done and error events end the session of their own transfer |
| OtaMacTasks.FirmwareUpdate.OnWriteResponse | desktop/macos/Sources/VoiceStickApp/BleCentral.swift:384-394 | a failed write response fails the update, a good one sends on |
| OtaMac.FramesInOrder | desktop/macos/Sources/VoiceStickApp/BleCentral.swift:384-519 | for every sequence of callbacks: the frames are a beginning of BEGIN, the image in consecutive chunks, END, closed by at most one ABORT, and completion is called at most once |
| OtaMac.CommitsIffEnded | desktop/macos/Sources/VoiceStickApp/BleCentral.swift:426-519 | a device that takes all frames in order boots the image if and only if END was written and the image is not empty; after an ABORT, or with an empty image, it has no transfer and no open handle |
| OtaMacEnding.CompletedIff | desktop/macos/Sources/VoiceStickApp/BleCentral.swift:384-519 | over every sequence of callbacks: completion is called with success if and only if the first one that ends the session reports this or an unnamed transfer as done; any other ending is a failure, told the device by ABORT unless it is out of reach |
| OtaMacEnding.AllIsSentIff | desktop/macos/Sources/VoiceStickApp/BleCentral.swift:426-478 | while writes are answered, what is sent is what the peripheral had slots for, and END is written if and only if they sufficed for the whole image |
| AudioTransport.EncodeInto | firmware/components/audio_transport/audio_transport.c:40-108 | the encoder writes exactly the wire form into the front of the buffer and leaves the rest, or reports the first error and writes nothing |
| AudioLimits.EncodesIff | firmware/components/audio_transport/audio_transport.c:51-82 | a frame is produced if and only if version and count are proper, numbers consecutive, v2 packets at most 255 octets and the frame within buffer and length field; the first thing that is not decides the error |
| WireLayout.HeaderIsLaidOut | firmware/components/audio_transport/audio_transport.c:84-92 | the sixteen header octets, octet by octet, are the documented layout with little-endian fields, and only that |
| AudioTransport.ScanPackets | firmware/components/audio_transport/audio_transport.c:62-79 | the scan loop finds the first complaint, or the body length and the union of flags |
| AudioRoundTrip.ParseUndoesEncode | desktop/macos/Sources/VoiceStickApp/BleProtocol.swift:89-164 | everything encoded is parsed back with the same session, numbers, payloads and envelope, except exactly v2 frames with an empty packet or a packet-less frame without END |
| AudioRoundTrip.FlagsSurviveIff | desktop/macos/Sources/VoiceStickApp/BleProtocol.swift:139-160 | every packet gets its own flags back if and only if START sits only on the first, END only on the last, nothing else is set and the envelope adds nothing |
| AudioRoundTrip.EncodeUndoesParse | firmware/components/audio_transport/audio_transport.c:64-106 | the v2 form is canonical: every octet string accepted as v2 is given back by encoding what was parsed |
| AudioRoundTrip.ParsingIsInjective | desktop/macos/Sources/VoiceStickApp/BleProtocol.swift:94-163 | two different v2 notifications are never parsed alike |
| AudioRoundTrip.V1CanonicalIffReservedIsZero | desktop/macos/Sources/VoiceStickApp/BleProtocol.swift:89-130 | a v1 frame is given back by re-encoding if and only if its reserved octet is zero |
| AudioRoundTrip.WindowsReadsLeadingV1Frame | desktop/windows/src/ble_protocol.cc:103-115 | the Windows parser accepts a string exactly if it begins with a v1 frame of the shared format, and reads that frame |
| AudioParser.ParseAudioBatch | desktop/macos/Sources/VoiceStickApp/BleProtocol.swift:89-164 | the cursor-driven parser computes the parse function |
| AudioParser.ParsePackets | desktop/macos/Sources/VoiceStickApp/BleProtocol.swift:133-162 | the packet loop splits the body into exactly packetCount non-empty packets and numbers them |
| TransportProfile.ConfigureTransportProfile | firmware/components/audio_pipeline/audio_pipeline.c:193-233 | the profile loop chooses v2 with the largest bundle of 4, 3, 2 whose budget is 2 to 255 and reaches 7000 bps, else falls back to v1 |
| TransportProfile.BundleFits | firmware/components/audio_transport/audio_transport.c:26-38 | under a chosen v2 profile every bundle within its limits fits the ATT payload |
| TransportProfile.SpeechFits | firmware/components/audio_pipeline/audio_pipeline.c:213-223 | a 60 ms packet at the chosen constant bitrate fits the budget with an octet to spare |
| TransportProfile.V2IffMtuInRange | firmware/components/audio_pipeline/audio_pipeline.c:208-226 | v2 is chosen exactly for an ATT MTU of 129 to 1046, with the ranges of each bundle size |
| AudioPipelineSafety.RunKeeps | firmware/components/audio_pipeline/audio_pipeline.c:304-452 | every interleaving of encoder, transmit loop and radio keeps: bounded queue, END marker last, contiguous bundles, and every captured frame notified, held, waiting or counted as dropped |
| AudioDelivery.NotifiedInOrder | firmware/components/audio_pipeline/audio_pipeline.c:397-446 | notified bundles are gapless, notified numbers strictly increase, each frame is notified at most once |
| AudioCapture.NotifiedIsSaid | firmware/components/audio_pipeline/audio_pipeline.c:327-349 | over every run: each notified packet carries the very frame captured under its number, and what waits in the queue are the latest frames without gap |
| AudioCapture.OverwritesIffFull | firmware/components/audio_pipeline/audio_pipeline.c:335-349 | a captured frame is always queued last; the oldest waiting one is overwritten, and counted, if and only if the queue is full |
| AudioCapture.DroppedWithEighthRefusal | firmware/components/audio_pipeline/audio_pipeline.c:431-445 | a bundle is given up with its eighth refusal, counted packet by packet, and not before |
| AudioCapture.RadioLossIsBounded | firmware/components/audio_pipeline/audio_pipeline.c:431-445 | over every run: frames lost to the radio are at most a bundle for every eight refused attempts |
| AudioDelivery.AccountedAtExit | firmware/components/audio_pipeline/audio_pipeline.c:352-452 | at exit captured = sent + given up + overwritten, and END carries the number of captured frames |
| AudioEnding.EndIsSent | firmware/components/audio_pipeline/audio_pipeline.c:448-452 | a radio that takes it gets END at the first try, and a host reads it as the end marker with the number of captured frames |
| AudioEnding.EndIsGivenUpIff | firmware/components/audio_pipeline/audio_pipeline.c:448-452 | over every run: an exit without END means exactly eight tries, none of which the radio could take; an exit with END means the tries before were refused |
| AudioEnding.EveryRecordingCanEnd | firmware/components/audio_pipeline/audio_pipeline.c:397-452 | from every reachable state a run is constructed that sends what is left and delivers END |
| AudioEnding.V1FrameIsSent | firmware/components/audio_pipeline/audio_pipeline.c:366-375 | under v1 a ready radio with room takes every frame at the first try, whatever was acknowledged |
| AudioDelivery.HostRecoversCapture | desktop/macos/Sources/VoiceStickApp/BleProtocol.swift:89-164 | the notifications parsed in order are exactly the notified captures, marks and payloads included, and the END; only a bundle with an empty packet is refused |
| AudioDelivery.HostAcknowledgesBundle | desktop/macos/Sources/VoiceStickApp/BleProtocol.swift:21-23 | what a host acknowledges for a bundle is the number after its last packet |
| AudioDelivery.HostAcknowledgesEnd | desktop/macos/Sources/VoiceStickApp/BleProtocol.swift:21-23 | what a host acknowledges for the end marker is its own number |
| AudioDelivery.AckReadsBack | firmware/components/voice_ble/voice_ble.c:408-417 | the device takes a control write for an acknowledgement exactly if it is the host's frame, and reads its session and number |
| WireLayout.AckIsLaidOut | desktop/macos/Sources/VoiceStickApp/BleProtocol.swift:208-213 | the acknowledgement is, octet by octet, the documented layout and only that |
| AudioWindow.InflightIsBounded | firmware/components/voice_ble/voice_ble.c:813-838 | during a v2 recording the acknowledgement never passes what was notified, and at most two bundles of frames are unacknowledged |
| AudioWindow.AckedNeverFalls | firmware/components/voice_ble/voice_ble.c:408-417 | within a session the acknowledgement never decreases, and acknowledgements of other sessions change nothing |
| AudioWindow.AdmittedIff | firmware/components/voice_ble/voice_ble.c:828-832 | with everything acknowledged, a bundle is admitted if and only if it and the frames dropped before it fit the window |
| AudioStall.StuckIff | firmware/components/voice_ble/voice_ble.c:813-838 | on a bound v2 link, with no gap in the bundle now forming: no further frame is ever notified, whatever is captured, acknowledged or retried, if and only if nothing is left to send or that bundle ends more than a window beyond the last notified frame |
| AudioStall.StuckBetweenBundlesIff | firmware/components/audio_pipeline/audio_pipeline.c:397-446 | on every run, between two bundles: stuck if and only if nothing is left or the packets at the head of the queue end beyond the window |
| AudioStallSteps.StaysSilent | firmware/components/voice_ble/voice_ble.c:826-838 | one half of it, step by step: the bundle now forming never ends earlier, so a silent recording stays silent |
| AudioStallSteps.Notifies | firmware/components/audio_pipeline/audio_pipeline.c:402-446 | the other half, constructed: acknowledge, capture, collect and send, until a bundle is out |
| AudioStall.LateStartStuckIff | firmware/components/audio_pipeline/audio_pipeline.c:334-348 | if the transmit loop first runs after n captures, the recording is stuck from the start if and only if n >= 24 + window - bundle size + 1 |
| AudioTasks.Recorder.CaptureFrame | firmware/components/audio_pipeline/audio_pipeline.c:327-349 | one round of the encoder loop: enqueue, or overwrite the oldest packet |
| AudioTasks.Recorder.CollectNextPacket | firmware/components/audio_pipeline/audio_pipeline.c:417-428 | one round of bundle collection, recognising the END marker |
| AudioTasks.Recorder.TrySendBundle | firmware/components/audio_pipeline/audio_pipeline.c:431-445 | one sending attempt with its retry, drop and sent accounting |
| AudioTasks.Recorder.SendAudioPackets | firmware/components/voice_ble/voice_ble.c:840-883 | encodes into a stack frame and hands it to the radio, or fails at the same checks |
| AudioTasks.Recorder.OnAck | firmware/components/voice_ble/voice_ble.c:408-417 | an acknowledgement is stored only for the current session and only upwards |
| OggCrc.Checksum | desktop/windows/src/ogg_crc.cc:7-25 | the table-driven checksum is the remainder of bitwise polynomial division by 0x04c11db7 with zero initial value (section 6 of RFC 3533) |
| OggCrc.BuildTable | desktop/windows/src/ogg_crc.cc:8-18 | table entry i is eight division steps of i shifted to the top |
| OggCrc.DivisionIsFeed | desktop/windows/src/ogg_crc.cc:20-25 | long division of the message followed by 32 zero bits equals feeding its bits into the shift register |
| OggCrc.OneCorruptOctetIsDetected | desktop/windows/src/ogg_crc.cc:20-25 | changing one octet always changes the checksum |
| OggMuxer.OggOpusMuxer.MakePage | desktop/windows/src/ogg_opus_muxer.cc:71-93 | builds a one-packet page with the checksum patched in place, or throws above 255 octets without counting a page |
| OggMuxer.OggOpusMuxer.AppendPacket | desktop/windows/src/ogg_opus_muxer.cc:18-34 | headers before the first page, granule step, one page; what is already changed when it throws |
| OggMuxer.OggOpusMuxer.FinishStream | desktop/windows/src/ogg_opus_muxer.cc:36-48 | headers if missing and an empty EOS page at the last granule position |
| OggPage.ReadOfSigned | desktop/windows/src/ogg_opus_muxer.cc:71-93 | a page reader after section 6 of RFC 3533 takes a written page off any stream if and only if its checksum field is right |
| OggPage.CorruptPageIsRefused | desktop/windows/src/ogg_opus_muxer.cc:71-93 | a reader refuses a page of which one octet of packet data was changed |
| OggRoundTrip.OutputIsRead | desktop/windows/src/ogg_opus_muxer.cc:18-48 | the concatenated output of any calls, throwing ones included, is read back page by page |
| OggRoundTrip.PagesInOrder | desktop/windows/src/ogg_opus_muxer.cc:12-112 | pages are numbered 0, 1, 2, ... modulo 2^32; only page 0 is BOS, EOS marks exactly the ending calls, the k-th packet is at granule k * step (2880 at 16 kHz) modulo 2^64 |
| OggRoundTrip.ReaderRecovers | desktop/windows/src/ogg_opus_muxer.cc:71-93 | reading the output gives OpusHead, OpusTags and every packet not of 255 octets, in order |
| OggHeaders.HeadersAreRead | desktop/windows/src/ogg_opus_muxer.cc:50-69 | for every rate, channel count and calls: a header reader after RFC 7845 finds version 1, those channels, pre-skip 312, that rate, no gain and family 0 in the first packet, and vendor VoiceStick with no comments in the second |
| OggHeaders.StepIsDuration | desktop/windows/src/ogg_opus_muxer.cc:30-31 | one packet moves the granule position by what 960 input samples last at 48 kHz, rounded down |
| OggRoundTrip.CarriesAllIff | desktop/windows/src/ogg_opus_muxer.cc:72-84 | all packets are recovered if and only if none has exactly 255 octets |
| OggRoundTrip.HeadersLostIff | desktop/windows/src/ogg_opus_muxer.cc:18-34 | the stream lacks its BOS page if and only if the first effective call was an oversized packet |
| AsrResults.EverySessionEndsOnce | desktop/macos/Sources/VoiceStickApp/ASRWebSocketClient.swift:171-313 | over every run each session is written as StartSession, the chunks it took in order and FinishSession, or a beginning of that, with one CancelSession behind it only if cancelled; no session ends twice, so onFinal comes at most once and only if neither cancelled nor failed |
| AsrCaller.OnlyLateChunksAreLost | desktop/macos/Sources/VoiceStickApp/ASRWebSocketClient.swift:225-271 | what a session took are all the chunks its caller handed over, or those up to some point behind one marked last or behind finish() |
| AsrResults.NothingAfterTheEnd | desktop/macos/Sources/VoiceStickApp/ASRWebSocketClient.swift:470-542 | once a session is over nothing more is written about it and its ending stands |
| AsrProgress.StartIsAskedFor | desktop/macos/Sources/VoiceStickApp/ASRWebSocketClient.swift:171-230 | over every run: a session starting over a confirmed connection has been asked for and nothing else was written about it; one starting over a connection being made waits for it |
| AsrProgress.EverySessionCanEnd | desktop/macos/Sources/VoiceStickApp/ASRWebSocketClient.swift:222-271 | after every run a current session with an open socket is brought to its text by connection, start, finish and result: everything it took is then on the wire between its start and its end, and it ends once, with its text |
| AsrProgress.EveryBeginIsServed | desktop/macos/Sources/VoiceStickApp/ASRWebSocketClient.swift:171-220 | whenever there is no session one can be begun: StartSession or StartConnection is written as the connection requires, and it can be brought to its text |
| AsrProgress.StrandedIff | desktop/macos/Sources/VoiceStickApp/ASRWebSocketClient.swift:478-481 | a current session never ends, short of a cancellation or failure, if and only if the server closed the connection while it was starting or finishing |
| AsrProgress.HowItEnds | desktop/macos/Sources/VoiceStickApp/ASRWebSocketClient.swift:273-313 | how a session ends says why: with its text, cancelled, or failed; the server is told of a cancellation |
| AsrProgress.FailureReconnects | desktop/macos/Sources/VoiceStickApp/ASRWebSocketClient.swift:305-313 | a failure closes the connection, and the next session makes a new one |
| AsrCaller.FinishIsLastIff | desktop/macos/Sources/VoiceStickApp/ASRWebSocketClient.swift:225-271 | a finishing session was written as StartSession, all the chunks handed over and FinishSession if and only if no chunk was handed over behind one marked last or behind finish() |
| AsrTasks.AsrClient.FlushQueuedChunks | desktop/macos/Sources/VoiceStickApp/ASRWebSocketClient.swift:248-257 | the flush loop sends every queued chunk, finishing at a marked one and going on |
| AsrTasks.AsrClient.FinishSessionIfNeeded | desktop/macos/Sources/VoiceStickApp/ASRWebSocketClient.swift:259-271 | finish before the start is remembered as an empty last chunk, once |
| AsrTasks.AsrClient.OnBegin | desktop/macos/Sources/VoiceStickApp/ASRWebSocketClient.swift:171-195 | a session begins only when idle, and starts, connects or waits by the state of the connection |
| AsrTasks.AsrClient.OnCancel | desktop/macos/Sources/VoiceStickApp/ASRWebSocketClient.swift:273-285 | cancelling tells the server if a session is under way and forgets it |
| AsrTasks.AsrClient.SendFrame | desktop/macos/Sources/VoiceStickApp/ASRWebSocketClient.swift:354-363 | a write without a socket fails the session |
| CoordinatorPaste.ChunksInOrder | desktop/windows/src/voice_stick_coordinator.cc:419-471 | for every recording, whatever order of frames, button, END, timeout, disconnect and cancel: the recognizer is given the muxer's outputs in order without gap or repetition; once over, all of them with exactly the final one marked last, or none marked and recognition cancelled or already answered |
| CoordinatorPaste.PastedOnce | desktop/windows/src/voice_stick_coordinator.cc:1031-1084 | each confirmation is pasted at most once, with its own text |
| CoordinatorPaste.StaleCallbackPastesIff | desktop/windows/src/voice_stick_coordinator.cc:1031-1041 | an overlay callback, whenever it fires, pastes if and only if something is pending with an equal text, and then pastes that, even if it is another confirmation or paused |
| CoordinatorPaste.PausedPasteByStaleCallback | desktop/windows/src/voice_stick_coordinator.cc:1318-1330 | a run from the first button press on in which the first countdown's callback pastes a later, paused confirmation of the same text |
| CoordinatorPaste.ErrorIsMaskedIff | desktop/windows/src/voice_stick_coordinator.cc:695-725 | closing a recording leaves an error shown outside the error state if and only if its last chunk should have started the recognizer and it refused |
| CoordinatorDictation.LongRecordingIsRecognized | desktop/windows/src/voice_stick_coordinator.cc:382-471 | press, frames, long release, late frames and END, timeout or lost device, from any state a press can start in: the recognizer is started once, given exactly all chunks in order with the last one marked, and not cancelled |
| CoordinatorDictation.ShortRecordingIsGivenUp | desktop/windows/src/voice_stick_coordinator.cc:419-432 | a short release, the side button, new settings or a lost device: what was sent is cancelled, no chunk is marked last, the program is ready again, and the END that follows changes nothing |
| CoordinatorDictation.EveryDictationIsPasted | desktop/windows/src/voice_stick_coordinator.cc:759-1041 | after any run that leaves the program ready, any list of dictations: exactly the recognized texts that are not empty are pasted, each once, in order |
| CoordinatorDictation.FrontButtonPausesThenPastes | desktop/windows/src/voice_stick_coordinator.cc:1053-1062 | the front button pauses the countdown; pressed again, it has the text pasted once |
| CoordinatorDictation.SideButtonDiscards | desktop/windows/src/voice_stick_coordinator.cc:1064-1094 | the side button drops the confirmation, the countdown then pastes nothing, and the menu brings the text back paused |
| CoordinatorDictation.AwaitedTextIsGivenUp | desktop/windows/src/voice_stick_coordinator.cc:1015-1122 | a recording whose text is awaited is cancelled by the side button, new settings or a lost device; a failing recognizer shows its error |
| CoordinatorDictation.ForeignIsIgnored | desktop/windows/src/voice_stick_coordinator.cc:419-440 | events of other devices, frames of other sessions and stale timeouts do not disturb a recording |
| CoordinatorDictation.EndShowsError | desktop/windows/src/voice_stick_coordinator.cc:695-725 | END without a frame or with a recognizer that will not start shows the error |
| CoordinatorRecording.StepKeeps | desktop/windows/src/voice_stick_coordinator.cc:382-471 | every handler keeps: while live, what the recognizer has and what is buffered are together the muxer's output so far; waiting only while live |
| CoordinatorTasks.VoiceStickCoordinator.Serve | desktop/windows/src/voice_stick_coordinator.cc:260-1130 | everything that happens to the coordinator: its fields keep the results about runs, chunks given in order and each confirmation pasted at most once |
| CoordinatorTasks.VoiceStickCoordinator.Handle | desktop/windows/src/voice_stick_coordinator.cc:260-381 | one event, dispatched to its handler, keeps the invariants and makes the step of the machine |
| CoordinatorTasks.VoiceStickCoordinator.StartAsrAndFlushBufferedChunks | desktop/windows/src/voice_stick_coordinator.cc:727-746 | starts the recognizer unless it runs and gives it everything held back, or drops the buffer when it refuses |
| CoordinatorTasks.VoiceStickCoordinator.FlushBufferedChunks | desktop/windows/src/voice_stick_coordinator.cc:740-744 | the flush loop sends the held chunks in order, the last one marked if it is final |
| CoordinatorTasks.VoiceStickCoordinator.SendOrBufferOggChunk | desktop/windows/src/voice_stick_coordinator.cc:716-725 | a chunk is sent, held back, or starts the recognizer; a refusal ends the recording with an error once |
| CoordinatorTasks.VoiceStickCoordinator.SendFinalOggChunkIfNeeded | desktop/windows/src/voice_stick_coordinator.cc:695-714 | a recording is closed once: too short, empty, or by its last muxer output marked final |
| CoordinatorTasks.VoiceStickCoordinator.HandleAudioFrame | desktop/windows/src/voice_stick_coordinator.cc:434-471 | a frame of the recording becomes the next muxer output, sent or held; frames of others change nothing |
| CoordinatorTasks.VoiceStickCoordinator.HandleEndFrame | desktop/windows/src/voice_stick_coordinator.cc:445-449 | END stops the timeout and closes the recording |
| CoordinatorTasks.VoiceStickCoordinator.HandleAudioEndTimeout | desktop/windows/src/voice_stick_coordinator.cc:992-1008 | a timeout closes the recording only if it is still the one it was set for |
| CoordinatorTasks.VoiceStickCoordinator.CancelActiveCycleOfLostDevice | desktop/windows/src/voice_stick_coordinator.cc:1110-1121 | a lost device closes a recording waiting for its end, and drops any other |
| CoordinatorTasks.VoiceStickCoordinator.HandlePrimaryButtonUp | desktop/windows/src/voice_stick_coordinator.cc:419-432 | release gives up a short recording and waits for the end of a long one |
| CoordinatorTasks.VoiceStickCoordinator.HandlePrimaryButtonDown | desktop/windows/src/voice_stick_coordinator.cc:382-417 | a press starts a recording from ready, or works the pending confirmation |
| CoordinatorTasks.VoiceStickCoordinator.FinishWithFinalText | desktop/windows/src/voice_stick_coordinator.cc:759-797 | the first final text is remembered and awaits its paste; an empty one ends the cycle |
| CoordinatorTasks.VoiceStickCoordinator.CommitPendingPaste | desktop/windows/src/voice_stick_coordinator.cc:1031-1041 | commits whatever is pending with an equal text |
| CoordinatorTasks.VoiceStickCoordinator.RestoreLastInputConfirmation | desktop/windows/src/voice_stick_coordinator.cc:1043-1051 | restores the last text as a new paused confirmation only when ready, idle and without a recording |
| CoordinatorTasks.VoiceStickCoordinator.CancelPendingPaste | desktop/windows/src/voice_stick_coordinator.cc:1064-1084 | cancels recognition, drops the pending paste, or restores the last text |
| CoordinatorTasks.VoiceStickCoordinator.FinishWithAsrError | desktop/windows/src/voice_stick_coordinator.cc:1015-1023 | a recognizer error cancels it, forgets what is pending and shows the error |
| SubtitleIndex.IndexStaysConsistent | desktop/windows/src/voice_stick_coordinator.cc:481-955 | in every reachable state each active entry names a live cycle stored under its own key, and every cycle gone without finishing had its recognizer cancelled |
| SubtitleDictation.LongRecordingIsFinished | desktop/windows/src/voice_stick_coordinator.cc:481-643 | a long subtitle recording in either mode gets to its last chunk and is finished by its text; no other cycle is touched |
| SubtitleDictation.ShortRecordingIsCancelled | desktop/windows/src/voice_stick_coordinator.cc:516-528 | a recording given up before its release is cancelled, and what comes of it later is ignored |
| SubtitleDictation.FailedRecordingIsCancelled | desktop/windows/src/voice_stick_coordinator.cc:610-664 | a recording without a frame, or whose recognizer will not start, is cancelled |
| SubtitleDictation.OverlapIsHarmless | desktop/windows/src/voice_stick_coordinator.cc:481-955 | overlapping recordings do not disturb each other: a step changes, finishes or cancels only the cycle it is about |
| SubtitleTasks.SubtitleCycles.CancelCyclesOfLostDevices | desktop/windows/src/voice_stick_coordinator.cc:1096-1109 | the erasing walk removes and cancels exactly the cycles of devices not connected, and their active entries |
| SubtitleTasks.SubtitleCycles.CancelCyclesForDevice | desktop/windows/src/voice_stick_coordinator.cc:939-955 | the erasing walk removes and cancels exactly the cycles of one device |
| SubtitleTasks.SubtitleCycles.HandlePrimaryButtonDown | desktop/windows/src/voice_stick_coordinator.cc:481-514 | a new cycle replaces the active entry, unless it exists or cannot be made |
| SubtitleTasks.SubtitleCycles.SendFinalChunkIfNeeded | desktop/windows/src/voice_stick_coordinator.cc:610-643 | closes a cycle once, or cancels it when too short, empty or refused |
| FirmwareVersion.OlderIsStrictWeakOrder | desktop/windows/src/firmware_manifest.cc:249-254 | IsOlderThan is irreflexive, asymmetric and transitive on all texts; being neither older nor newer is transitive through every text that parses |
| FirmwareVersion.MissingCountsAsZero | desktop/windows/src/firmware_manifest.cc:80-86 | a trailing zero component changes no comparison |
| FirmwareOrder.OlderIff | desktop/windows/src/firmware_manifest.cc:80-91 | between versions as they are spelled, current is older if and only if its first differing component is smaller or, where none differs, it has a suffix and latest has none or a later one |
| FirmwareOrder.VersionReadsBackIff | desktop/windows/src/firmware_manifest.cc:56-78 | a version is read back from its text if and only if its suffix does not end in white space |
| FirmwareVersion.VersionLess | desktop/windows/src/firmware_manifest.cc:80-91 | the component loop and the suffix rules compute the order |
| FirmwareVersion.ParseVersion | desktop/windows/src/firmware_manifest.cc:56-78 | splits off the suffix and reads the dotted numbers, refusing what is no int |
| ConfigText.UnquoteUndoesQuoting | desktop/windows/src/app_config.cc:47-86 | every string survives being escaped, quoted and read back |
| ConfigText.IdListReadsBackIff | desktop/windows/src/app_config.cc:603-617 | a joined id list reads back equal if and only if its ids are distinct and normalised |
| ConfigText.ParseDeviceIdList | desktop/windows/src/app_config.cc:603-617 | the list loop keeps the first mention of every normalised id |
| ConfigText.MapReadsBack | desktop/windows/src/app_config.cc:108-154 | a printed device-value map reads back as its entries for paired devices that are not the default |
| ConfigText.DeviceSettingsReadBack | desktop/windows/src/app_config.cc:383-391 | so do the theme colors and overlay positions, by the names the program gives them |
| ConfigText.EntryReadsBackIff | desktop/windows/src/app_config.cc:190-223 | a paired-device line reads back equal, for every 64-bit address, if and only if its text fields have no comma |
| Text.SplitUndoesJoinIff | desktop/windows/src/app_config.cc:603-617 | cutting a joined list at the separator gives the list back if and only if no part holds the separator |

## Left out

- AudioTasks.Recorder.TrySendBundle: one attempt to one call; the wait of up to 100 ms for the ACK window and the retry delay are points between calls.
- OtaWindows.RunKeeps: cancellation, write errors and disconnects; OtaWindowsHost has them for the sender alone, OtaSafety for the device alone.
- CoordinatorTasks.VoiceStickCoordinator.HandleAudioFrame: a frame with both a payload and the END mark, which the firmware never sends.
- CoordinatorTasks.VoiceStickCoordinator.HandlePrimaryButtonDown: the subtitle target, whose cycles are in SubtitleIndex; likewise for the button up and the click.
- CoordinatorTasks.VoiceStickCoordinator.FinishWithFinalText: the subtitle target and translation of the final text.
- AudioPipelineSafety.RunKeeps: a receive of the transmit task between the two queue calls of an overflow.
- AsrSession: closing a connection by FinishConnection, which nothing in the client asks for.
- OtaMac.FramesInOrder: callbacks that re-enter the driver. A progress callback that cancels while chunks are being sent would see the session stored again after its ABORT.
- SubtitleIndex: the chunks and overlays of subtitle cycles; frames may arrive after the final chunk there. Translation is taken as immediate.
- AudioTransport: null pointers passed to the encoder.
- Failing allocations: the device answers some of them with an error, which the events for driver errors cover only in part.
- FirmwareVersion: white space, sign and number syntax beyond decimal digits; texts are ASCII.
- ConfigText: the TOML library, which reads the file when it parses, and white space or sign before a hex address.
- Windows recognition client (asr_client_win.cc): the same session machine, with callbacks on a worker thread.
- Discovery, pairing, advertising, connection intervals, radio reset and subscriptions: only messages, connects and disconnects appear, as events.
- Opus, I2S, codec chip, gzip, SHA-256, JSON, HTTP and WebSocket libraries: their results are parameters of the events.
- Receive statistics, logging, the debug audio recorder, device display states, overlays, menus, sounds and the cloud-upgrade prompt.
- Firmware manifest download and its threads; only the version order is modelled.
- Button, power, display and IMU code of the firmware; Python scripts, website, build and release files.
