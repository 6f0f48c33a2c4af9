# StepManiaX SDK: a Dafny model

This project models the parts of the SDK that move bytes between two dance pads and
the program using them, and proves what those parts promise.

**The command pipeline of one pad.** `Pipeline` is a step system of three threads. The
poll thread appends Report 6 packets to a byte buffer; the main thread parses them,
completes, retries or hands off commands and cancels on close; the writer thread drains
a channel packet by packet and may fail. Every flag access, channel operation, packet
write and locked section is one atomic step, and a run is any list of steps, so a
statement about a run holds for every interleaving. `CommandQueue` says what each
operation does to the command handle. `Connection` holds the same code as objects with
fields updated in place, proved against those functions, and shows that an undisturbed
`update`, `poll` or write job is exactly its atomic steps. `Conservation`, `WireOrder`,
`Pacing` and `WriteFlag` prove properties of all runs; `Framing` and `Protocol` cover the
byte formats underneath. `Replies` follows what a device sends, from its reports to the reader
and the callbacks.

**Lights.** `LightQueue` is the queue of staged frames, `LightSystem` composes it with two
copies of the pipeline, `LightRelease` and `LightHandback` prove that handing a pad back to
its automatic lights is final, `LightScheduler` is the scheduler as an object, and
`LightCodec` the encoding of the three commands of a frame. `LightOrder` and `LightDelivery`
join the two ends: what a connection's writer gets is what the scheduler handed to that
connection, in order. `LightData` says what each pad is staged in terms of the caller's bytes,
`LightsShown` carries that to the jobs. Times are natural numbers of nanoseconds.

**Animations.** `Palette`, `Frames`, `UploadPackets`, `Interleave` and `Upload` compile
decoded frames into upload commands; `UploadImage` runs those commands on a memory keyed by
panel, animation and offset, and `DeviceMemory` reads it back by the pad's own map. `Playback` plays loaded animations. `SinglePrecision` is the
rounding of an `f32` operation, which frame durations and frame times go through; playback is
proved for every rounding as fine as that one. Colour scaling is `c * 6666 / 10000` and the
upload delay `(34 * size + 5) / 10`, proved equal to the rounded products.

**The device.** `LegacyConfig` converts configurations byte by byte, `SensorCodec` untangles
the sensor reply, `Device` holds the device's functions and its object, and `DevicePacing`
follows a device over runs with reconnects, with anything the connection may find;
`SensorSamples` traces every published sample of a run to its request. `LegacyLayout` derives the
offsets of the legacy fields from both records, and `ConfigEcho` says what the commands of a device
mean to the pad and what its replies do.

**Bookkeeping and captures.** `Slots` covers discovery, failure, closing and reordering of
the two slots, `Discovery` which of the listed devices an enumeration opens; `Capture` the capture file; `Replay` the device that replays one.

Fields called history record what the program does not keep (requests so far, what happened
to each, which call a staged command came from); no decision reads them.

In three places the code does less than its comments or its symmetry suggest; the model follows the code:

- The comment at src/connection.rs:194-195 says that at most one command's packets are handed
  over at a time, guarded by `write_in_flight`. A response can complete a command before the
  writer clears the flag; the next hand-off sets it again and the late clear wipes it.
  `WriteFlag.FlagCanLie` gives such a run, `WriteFlag.HonestRunsExactly` says which runs are
  free of it, and the bound that does hold is counted in `Pacing.OutstandingBounded`.
- The time reported to the next sensor request (src/device.rs:207-220) does not look at the
  connection, while the update (src/device.rs:259-268) returns early without one or before the
  device info. In test mode a pad that is absent or still in its handshake reports zero and
  sends nothing, and the main loop (src/manager.rs:669-673) wakes every millisecond meanwhile.
  `DevicePacing.ZeroYetNothingSent` gives such a device, `DevicePacing.ZeroExactlyWhenSending`
  says exactly when the report is right.
- The legacy reader stops early for versions 0, 1, 2 and 255 while the writer always writes
  every field, so the two are inverse only for versions 3 to 254
  (`LegacyConfig.WriteThenRead`) or for replies that end before the first skipped field
  (`LegacyConfig.ReadThenWrite`).

## Model

| member | source | states |
|---|---|---|
| Protocol.BuildCommandPackets | src/protocol.rs:70-102 | the loop produces the recursive fragmentation whose shape and reassembly are proved below |
| Protocol.FragmentShape | src/protocol.rs:83-99 | every packet announces at most 61 payload bytes, only the first and last carry the start and end flag, none is an info packet, and everything after the payload is zero |
| Protocol.PacketReassembler.Push | src/protocol.rs:173-199 | the new partial and completed commands for any fragment, and whether the host command finished |
| Protocol.PacketReassembler.TakeCompleted | src/protocol.rs:202-204 | returns everything completed and leaves the partial command |
| Protocol.FragmentsReassemble | src/protocol.rs:171-199 | from any reassembler state, the relabelled packets of a command complete exactly that command, or nothing when it is empty |
| Protocol.PartialReassembles | src/protocol.rs:181-188 | a proper prefix of the packets completes nothing and holds exactly the bytes they carry |
| Protocol.FragmentsRoundTrip | src/protocol.rs:166-205 | fragmenting any list of commands and reassembling gives the non-empty ones in order and no partial |
| Framing.FramesAppend | src/connection.rs:557-566 | more bytes never change packets already cut, and parsing continues from the remainder |
| Framing.FramesCover | src/connection.rs:555-573 | packets and remainder together are the data, nothing lost or invented |
| Framing.ExchangeAccounted | src/connection.rs:549-573 | in every interleaving of appends, takes, packets and put-backs, handled bytes plus outstanding bytes are the stream |
| Framing.IncrementalIsOneShot | src/connection.rs:549-573 | the packets handled are a prefix of the one-shot parse of the stream, and all of it once no whole packet is outstanding |
| Framing.ExactFrames | src/connection.rs:297-302 | a stream of whole packets parses into exactly them and leaves nothing |
| Connection.JobChannel.Send | src/connection.rs:655-658 | the job is queued exactly when both ends are open, else nothing changes |
| Connection.CommandHandle.constructor | src/connection.rs:736-753 | a new handle is the opened state of the step system: only the info request is queued |
| Connection.CommandHandle.SendCommand | src/connection.rs:420-430 | the fragmented command goes to the back, its place in the order of requests recorded |
| Connection.CommandHandle.SendCommandPriority | src/connection.rs:439-449 | the command goes to the front of what is pending, never before the one in flight |
| Connection.CommandHandle.SendCommandLights | src/connection.rs:455-465 | a lights command without callback goes to the back |
| Connection.CommandHandle.AnyUnsentLights | src/connection.rs:469-471 | true exactly when some pending command is a lights command |
| Connection.CommandHandle.DropQueuedLights | src/connection.rs:479-481 | the in-place loop keeps exactly the other pending commands, in order, and the one in flight |
| Connection.CommandHandle.ReadPacket | src/connection.rs:484-486 | the oldest reply is taken off, None only when there is none |
| Connection.CommandHandle.Close | src/connection.rs:517-531 | every callback runs with an empty reply, the current one first, then the pending ones in order, and everything is cleared |
| Replies.CloseTellsAll | src/connection.rs:517-531 | every waiting command with a callback hears an empty reply, in order, and nothing is left |
| Connection.CommandHandle.CheckTimeout | src/connection.rs:537-547 | the current command goes back to the front, unsent, exactly when more than two seconds passed since it was sent |
| Replies.RetriedWhenOverdue | src/connection.rs:537-547 | a command is taken back, to the front and unsent, exactly when more than 2,000,000,000 ns have passed |
| Connection.CommandHandle.HandlePacket | src/connection.rs:576-629 | which packets complete the current command and with what response, for every handle and every byte string |
| Replies.RepliesAreRead | src/connection.rs:606-617 | from any state of an active connection, replies cut into any pieces are added to `read_buffers` whole and in order, empty ones left out; without a finishing reply or a current command no command ends |
| Replies.AnswerReachesCallback | src/connection.rs:619-626 | after any replies that finish none, a finishing one ends the current command and its callback runs with exactly that reply |
| Replies.AnswerIsHeard | src/connection.rs:246-305 | the same from the reports of one poll on, however each is filled up |
| Replies.InfoAnswerTaken | src/connection.rs:582-605 | the information packet is taken only while that request is current; player, serial and firmware are those of its bytes; the callback gets the payload |
| Replies.InactiveIgnores | src/connection.rs:607-610 | a connection that is not active ignores replies |
| Connection.CommandHandle.HandleAll | src/connection.rs:555-566 | the cursor loop handles the one-shot parse of the data in order and leaves its remainder |
| Connection.CommandHandle.CheckReads | src/connection.rs:535-574 | timeout, then every whole packet of the buffer in order; the remainder is put back |
| Connection.CommandHandle.CheckWrites | src/connection.rs:631-668 | promotion, hand-off or abort, with the new handle, flag and channel and whether to disconnect |
| Connection.CommandHandle.Update | src/connection.rs:490-499 | nothing at all after an error; otherwise reads, then writes on the handle the reads left |
| Connection.PollHandle.HandleReport | src/connection.rs:276-305 | new input state, the callbacks run, and the bytes kept of any report |
| Replies.InputFollows | src/connection.rs:276-293 | after a poll the input state is the last one reported, low byte first, and the callback has run with each change, or with each report when all are asked for |
| Connection.PollHandle.Poll | src/connection.rs:246-315 | for any list of read results: a failed poll publishes none of its packets, an error-free one all of them in order |
| Connection.Writer.WriteJob | src/connection.rs:204-223 | the wire grows by the packets before the first failing write; flag, error and channel after it |
| Connection.UpdateIsItsSteps | src/connection.rs:490-499 | from any state outside `update`, error flags set or not, and with no other thread in between, the atomic steps lead to the whole state that `Update` is proved to leave |
| Connection.PollIsItsSteps | src/connection.rs:246-315 | the same for the poll thread, which after an earlier read error changes nothing |
| Connection.JobIsItsSteps | src/connection.rs:204-223 | the same for the writer thread |
| Conservation.CommandsConserved | src/connection.rs:420-465 | in every run each request is in exactly one place: pending, current or being handed off, finished, cancelled or dropped as lights |
| Conservation.CallbacksExact | src/connection.rs:581-628 | in every run a callback has run exactly as often as its request has ended with one |
| Conservation.CallbackAtMostOnce | src/connection.rs:537-547 | no callback ever runs twice, retries included |
| Conservation.CloseEndsAll | src/connection.rs:517-531 | after a close nothing is left and every callback queued so far has run exactly once |
| WireOrder.WireIsPrefix | src/connection.rs:198-224 | in every run the wire is a prefix of the handed-off jobs' packets in hand-off order |
| WireOrder.NothingAfterFailure | src/connection.rs:206-222 | after a failed write nothing is ever written again |
| WireOrder.WireReassembles | src/connection.rs:631-668 | reassembling the wire gives exactly the non-empty commands of the jobs wholly written, in hand-off order, and of the next job only a prefix |
| WriteFlag.FlagLiesExactly | src/connection.rs:216 | a step makes the flag say idle with a job outstanding exactly when the writer clears it with a job already queued, or when the send follows such a clear |
| WriteFlag.HonestRunsExactly | src/connection.rs:193-216 | the flag is honest after every prefix of a run exactly when no step of the run is such a late clear |
| WriteFlag.FlagCanLie | src/connection.rs:654 | a concrete run ends with the flag down and an unwritten job in the channel |
| Pacing.PublishedHandledOnce | src/connection.rs:549-573 | in every run the packets handled are the published ones, in order and once each, and nothing is left to put back |
| Pacing.HandOffsBalanced | src/connection.rs:631-667 | in every run accepted hand-offs equal answered commands plus timeouts plus closes of a current command plus the current one |
| Pacing.OutstandingBounded | src/connection.rs:193-195 | with a device that answers each fully received command at most once, jobs not wholly written beyond the first are paid for by timeouts or closes |
| Pacing.OneJobAtATime | src/connection.rs:193-195 | so without timeouts and closes at most one handed-off job is not fully on the wire |
| LightCodec.EncodeLights | src/manager.rs:1002-1059 | the three loops over fixed 256-byte buffers stay in bounds and produce the three commands |
| LightCodec.LightsBodySize | src/manager.rs:999-1001 | the commands have 245, 218 and 218 bytes |
| LightCodec.LightsDecode | src/manager.rs:1005-1058 | the three commands determine every scaled LED byte of the pad; 16-LED data reads as black in the inner grid |
| LightData.PadsGetTheirHalf | src/manager.rs:985-1142 | whether a frame is added or replaced, the last three staged commands carry pad p's half of the data, byte for byte scaled, as '4', '2' and '3'; below version 4 only the halves; nothing for a deselected pad; a pad without configuration keeps its share of a replaced frame |
| LightData.FramesAreTimed | src/manager.rs:1064-1100 | the times of a new frame and of the next one in nanoseconds; a replaced frame keeps its times |
| LightQueue.DuePrefixIsAllDue | src/manager.rs:1163-1176 | the drained prefix is exactly the set of due commands, and the first is the earliest |
| LightQueue.ReplaceUntorn | src/manager.rs:1120-1141 | replacing the last three hits one whole frame, so a frame's commands stay from one call per pad |
| LightQueue.SetLightsSound | src/manager.rs:985-1142 | setting lights keeps shape, order, spacing and the origin of every staged command, in every branch |
| LightScheduler.LightScheduler.StageFrame | src/manager.rs:1064-1100 | three commands at the later of now and the delay, the last one later for old pads, and the next frame's earliest start |
| LightScheduler.LightScheduler.WritePads | src/manager.rs:1102-1140 | both pads' commands written in place into the last three; a pad without configuration keeps what is there |
| LightScheduler.LightScheduler.SetLights | src/manager.rs:985-1142 | the method refines the value function the frame properties are proved of |
| LightScheduler.LightScheduler.SendPending | src/manager.rs:1144-1181 | nothing while some pad has unsent lights; otherwise exactly the due commands, queued on each connected pad in order |
| LightScheduler.LightScheduler.ReenableAutoLights | src/manager.rs:258-274 | the pad's share of every staged command and of its own queue goes, the other pad's stays, and "S 1" follows |
| LightScheduler.GatesAgree | src/manager.rs:1151-1160 | the composed system is gated exactly when some connected handle has unsent lights |
| LightScheduler.SystemSendsTheSame | src/manager.rs:1144-1181 | sending in the composed system is what the object does: nothing when gated, else exactly the due commands on each connected pad, which leave the queue |
| LightScheduler.SystemReenablesTheSame | src/manager.rs:258-274 | handing a pad back in the composed system leaves the stage and the handle that the object leaves |
| LightSystem.StageAlwaysWellStaged | src/manager.rs:1064-1100 | in every run the queue has length 0, 1, 3 or 4, is sorted, ends no later than the delay, and frames start at least one interval apart |
| LightSystem.FramesNeverTorn | src/manager.rs:1064-1141 | in every run what is handed over from one frame to one slot comes from a single call and is that call's encoding |
| LightSystem.BacklogAlways | src/manager.rs:1151-1176 | in every run unsent lights plus a light in flight never exceed five on any connection |
| LightRelease.OnlyLightsRequestsAdd | src/connection.rs:469-481 | timeouts, retries, priority inserts, responses and closes never add a lights command |
| LightRelease.NoLightsAfterRelease | src/connection.rs:479-481 | after dropping the queued lights and queueing one command, no lights job follows that command, even if the light in flight is retried |
| LightHandback.HandBackIsFinal | src/manager.rs:258-274 | in every run that neither selects the pad nor swaps the slots, through staged frames, gate, retries and reconnects: no lights job follows "S 1" on the connection handed back, and every later connection in the slot, or any if the pad was absent, carries no lights at all |
| LightOrder.LightsHandedInOrder | src/connection.rs:631-668 | in every run that queues lights at the back only, the lights jobs handed to the writer stand in the order they were queued, retries included |
| LightDelivery.LightsReachThePad | src/manager.rs:1163-1176 | in every run of the whole system the lights jobs of a connection carry what the scheduler handed to that connection, in that order, the same command twice only by a retry; each is one call's encoding for a selected pad, and the device reassembles exactly the jobs wholly written |
| LightsShown.JobsShowTheData | src/manager.rs:985-1181 | in every run each lights job carries one part of a pad's half of the bytes of one step that set the lights and selected that pad |
| Palette.BuildPalette | src/lights.rs:465-492 | succeeds exactly when a panel's frames use at most 15 different non-black colours, and then holds them in order of first use |
| Palette.FindInPalette | src/lights.rs:494-501 | the first index holding the colour, 255 exactly when there is none |
| Palette.PackGraphic | src/lights.rs:504-527 | the loop fills the 13 bytes whose nibbles are read back below |
| Palette.PackedFramesDecode | src/lights.rs:504-527 | unpacking any nibble of any packed frame recovers the LED's colour, with 15 exactly for black |
| Palette.MissingLedsTransparent | src/lights.rs:507-508 | LEDs a frame does not have unpack as transparent |
| Frames.ExtractPanel | src/lights.rs:61-111 | the panel's LEDs of both image sizes, in LED order |
| Frames.LedPixels | src/lights.rs:61-111 | the row and column of every LED's pixel in both sizes |
| Frames.LoopFrame | src/lights.rs:183-189 | the first frame after the start whose bottom left pixel is opaque and at least half red, 0 when there is none |
| UploadPackets.CreateUploadPackets | src/lights.rs:531-556 | appends the block's packets, whose writes are proved below |
| UploadPackets.BlockWrites | src/lights.rs:531-556 | the packets of a block write exactly the block, byte for byte, and nothing else |
| UploadPackets.AgreeingWrites | src/lights.rs:428-437 | a list whose writes to a byte all agree leaves that value, whatever its order and repetitions |
| Interleave.InterleavePackets | src/lights.rs:410-426 | the loop ends for any packet lists and sends the rounds |
| Interleave.RoundsWellDelayed | src/lights.rs:410-426 | after every packet comes its delay before any other packet of that panel |
| Interleave.RepeatedRoundsSpaced | src/lights.rs:410-437 | sent twice, any two packets to one panel have the earlier one's write time between them, across the seam too |
| Interleave.RoundsOccurs | src/lights.rs:413-420 | the rounds send every packet exactly as often as the lists hold it |
| Upload.PrepareUpload | src/lights.rs:311-456 | succeeds exactly for pads 0 and 1 and 23x24 animations of 1 to 32 frames with at most 15 colours a panel; which of the five errors otherwise; and the command list |
| UploadImage.UploadLeavesImage | src/lights.rs:376-453 | after the whole list every intended byte has its value and every other byte, the other animation type's included, is untouched |
| UploadImage.BothImagesLeft | src/lights.rs:311-456 | with the animation index left out of the keys, a released and a pressed upload, one after the other or mixed, leave both images of every panel whole and the rest untouched: the two types' address ranges are apart |
| UploadImage.OnlyLastIsFinal | src/lights.rs:445-453 | exactly one packet is final, the last command |
| UploadImage.UploadSpaced | src/lights.rs:409-437 | between any two packets to one panel there is a delay of at least 3.4 ms per byte of the earlier one, rounded |
| UploadImage.PanelPacketsTwice | src/lights.rs:428-437 | each panel packet is sent exactly twice |
| UploadImage.UploadedLedReadsBack | src/lights.rs:354-407 | reading the memory back as the device does shows every LED of every frame in its scaled colour |
| DeviceMemory.PadShowsAnimation | src/lights.rs:365-407 | read by the pad's own map, in numbers, every LED of every uploaded frame has the dimmed colour of its pixel, and is left out exactly where that is black: the graphic at 13 times the slot the timing block names, the palette at 832 or 877 |
| UploadImage.UploadedTimingReadsBack | src/lights.rs:365-452 | the master block holds the loop frame, each frame's graphic and its duration in thirtieths of a second within 1 to 255, rounded to a nearest one unless within 1/32768 of a tie |
| UploadImage.ScaleColorIsRounded | src/lights.rs:289-291 | for every byte, the product rounded in single precision truncates to the integer formula |
| UploadImage.DelayIsRounded | src/lights.rs:424 | for every size, the delay rounded in single precision truncates to the integer formula |
| SinglePrecision.SingleIsRounding | src/lights.rs:127 | rounding to 24 bits errs by at most half a unit in the last place, keeps the sign, and leaves what is rounded |
| Playback.AnimationState.Load | src/lights.rs:161-211 | the errors, the animation loaded, and that only its slot starts over |
| Playback.FillPanel | src/lights.rs:226-257 | a pressed non-black LED wins, else the released one, else black; bytes of other panels stay |
| Playback.AnimationState.BuildFrame | src/lights.rs:215-283 | every LED of the light data at its place, and every panel's playback moved on |
| Playback.LedsInNumbers | src/lights.rs:226-257 | the colour of every LED of the light data at its byte offset, from the frames both animations are at and the panel's input bit |
| Playback.PlayRun | src/lights.rs:161-283 | in every run, with any such rounding, frame indices are in range, frames follow each other and loop, the time spent is that of the frames ended plus the current one's up to the rounding of each step, and frames of one tick each end one per tick |
| Playback.PanelsPlayInStep | src/lights.rs:226-260 | in every run a released animation has moved by one tick per build since its load, a pressed one by one per build its panel has now been down for |
| LegacyConfig.ConvertToNewConfig | src/device.rs:612-666 | group after group with the early returns, the new bytes are those of the fields taken |
| LegacyConfig.ConvertToOldConfig | src/device.rs:668-797 | padding, writing and truncating as one function of configuration and old bytes |
| LegacyLayout.CarriedPlaces | src/device.rs:566-610 | every carried field is named in both structures, its offsets the sums of the sizes before it and its size the same in both |
| LegacyConfig.FieldRead | src/device.rs:616-665 | which bytes reading takes, by version, and that the skipped fields stay |
| LegacyConfig.ReadElsewhere | src/device.rs:612-666 | a byte of the new layout that no field covers is never touched by reading |
| LegacyConfig.FieldWritten | src/device.rs:689-792 | every field arrives in its legacy place whatever was there |
| LegacyConfig.GapsUntouched | src/device.rs:669-678 | writing leaves every byte outside the fields as it was; added bytes are 255; the length is the larger of 128 and the old one |
| LegacyConfig.WriteThenRead | src/device.rs:639-663 | writing and reading back restores every carried field into any configuration exactly for versions 3 to 254 |
| LegacyConfig.ReadThenWrite | src/device.rs:337-352 | reading and writing back keeps every original byte for any configuration exactly when the reply ends before the first field the reader skips |
| SensorCodec.RecordRecovered | src/device.rs:510-522 | untangling the words gives back each panel's 80-bit record |
| SensorCodec.SensorsDecode | src/device.rs:507-560 | the whole reply recovers the details of every panel, without bad-sensor flags from firmware 5, or nothing on a wrong signature |
| SensorCodec.MissingWordsAreZero | src/device.rs:516-519 | a reply of any length reads like its first 80 words, missing ones zero |
| SensorCodec.ReportsExactlyOnSignature | src/device.rs:525-533 | a panel reports data exactly when its first three bits are 0, 1, 0 |
| SensorCodec.ParseSensorTestData | src/device.rs:507-560 | the nested loops compute the decoding these laws are about |
| Device.SmxDevice.SetConfig | src/device.rs:184-190 | ignored unless fully connected; otherwise wanted and to be sent |
| Device.SmxDevice.CheckActive | src/device.rs:309-317 | activation and the first configuration request, once |
| ConfigEcho.ActivationAsks | src/device.rs:309-317 | a device with its info becomes active once and asks for its configuration, "G" or "g\n" by firmware |
| Device.SmxDevice.SendConfigIfNeeded | src/device.rs:364-411 | when a write is due, the write and its read-back are queued together and the limit restarts |
| ConfigEcho.WriteQueuesBoth | src/device.rs:364-411 | when a write is due, and only then, the write and the command that reads it back go to the back of the queue together; the next may be a second later |
| ConfigEcho.WriteEchoes | src/device.rs:382-397 | the echo law: 'W' with all 250 bytes from firmware 5, 'w' with a legacy record below; the pad's reply with the same bytes restores the configuration, or every carried field for versions 3 to 254, whatever the device held |
| ConfigEcho.WrittenConfigComesBack | src/device.rs:259-278 | the same from the pad's packets, in any pieces, through one update |
| ConfigEcho.RepliesReachDevice | src/device.rs:319-335 | an update passes every reply the pad has sent to the device, whole and in order |
| Device.SmxDevice.UpdateSensorTestMode | src/device.rs:413-440 | when a request is due it is queued ahead of everything pending |
| ConfigEcho.RequestIsAnswered | src/device.rs:413-489 | a due request names the mode's digit and goes ahead of everything pending; the reply that repeats it publishes its words as a sample of that mode and ends the wait |
| Device.SmxDevice.HandleConfigPacket | src/device.rs:337-362 | short packets change nothing; both layouts otherwise |
| ConfigEcho.ConfigReplyRead | src/device.rs:337-362 | 'G' replaces as many bytes as it brings, 'g' is read as a legacy record and kept |
| Device.SmxDevice.HandleSensorTestResponse | src/device.rs:442-489 | which replies end the wait and which of them publish a sample |
| Device.SmxDevice.Update | src/device.rs:259-278 | the whole pass on device, handle, buffer, write flag, channel and queue, and whether to disconnect |
| Device.SmxDevice.Close | src/device.rs:249-256 | the connection is closed and gone, the configuration no longer known, the event emitted |
| DevicePacing.SetConfigIsRead | src/device.rs:173-190 | a configuration that was set is what is read back from the device object, before and after it is sent |
| DevicePacing.ConfigWritesPaced | src/device.rs:369-377 | in every run, reconnects included, writes are at least a second apart and each is followed at once by its read-back |
| DevicePacing.WritesCarryLatestSet | src/device.rs:382-397 | in every run each write is, in the layout of the pad's firmware, one whose echo gives back the configuration set last |
| DevicePacing.SensorRequestsPaced | src/device.rs:418-433 | in every run, reconnects and mode changes included, requests are at least 1/30 s apart |
| DevicePacing.NextRequestIsExact | src/device.rs:207-220 | a request becomes due just when the reported time has passed |
| DevicePacing.SendsExactly | src/device.rs:259-268 | an update queues one sensor request exactly when the device has its info and the reported time is zero, else none |
| DevicePacing.ZeroYetNothingSent | src/device.rs:207-220 | with no pad connected and a test mode set, the reported time is zero and the update does nothing |
| DevicePacing.ZeroExactlyWhenSending | src/device.rs:207-220 | the reported time is zero exactly when an update would send, now and at every later moment, if and only if the device has its info or its test mode is off |
| DevicePacing.SamplesNeverOutnumberRequests | src/device.rs:461-488 | in every run published samples never outnumber requests |
| DevicePacing.SampleMatchesModes | src/device.rs:453-471 | a sample is published exactly for a whole reply in the awaited and current mode, which is the latest request's |
| SensorSamples.SampleAnswersLatest | src/device.rs:453-488 | in every run, reconnects and mode changes included, every published sample was published by an update and is in the mode that was then the device's and the latest request's |
| SensorSamples.SamplesAnswerDifferentRequests | src/device.rs:413-488 | in every run a new request stands between any two samples |
| Slots.SlotTable.AttemptConnections | src/manager.rs:688-843 | both early returns, the purge of the failed paths and the loop with its skips and its break as one function of the table and the found devices |
| Discovery.ListedPadsOpen | src/manager.rs:723-843 | a listed device with a path and "StepManiaX" in its product, not failed before and opening, is open afterwards, unless no slot is free |
| Discovery.OnlyPadsOpen | src/manager.rs:723-843 | each slot is as before or holds a listed pad that opened and had not failed; open connections stay; slot 0 is filled first |
| Discovery.FailingPadsMarked | src/manager.rs:754-767 | a listed pad that fails to open for reading counts as failed when at its turn a slot is free and its path not open |
| Discovery.OnlyReadFailuresMarked | src/manager.rs:718-767 | nothing else becomes failed |
| Slots.EnumerationsSpaced | src/manager.rs:690-716 | in every run with the clock going forward, any two enumerations are at least a second apart, and each finds a slot free |
| Slots.SlotTable.OpenDevice | src/manager.rs:754-842 | a failed read open marks the path, a failed write open or setup changes nothing, a success fills slot and thread |
| Slots.SlotTable.DropDevice | src/manager.rs:595-605 | the slot is emptied and its poll thread stopped |
| Slots.SlotTable.CorrectDeviceOrder | src/manager.rs:846-877 | devices and threads are swapped together exactly when the order is wrong |
| Slots.SlotsAlwaysConsistent | src/manager.rs:716-842 | in every run indices, callbacks, poll threads, open paths and failed paths agree, and no poll thread is lost or stopped twice |
| Slots.FailedStays | src/manager.rs:732-734 | when devices are listed, a failed path stays failed exactly if it is among them and is then not opened; an unlisted path is not failed afterwards |
| Slots.ReorderIdempotent | src/manager.rs:846-877 | reordering twice is reordering once, for every assignment, serial and jumper |
| Slots.LonePadGoesHome | src/manager.rs:917-930 | a lone pad ends in its pinned slot, else where its jumper says |
| Slots.TwoPadsOrdered | src/manager.rs:902-916 | two pads end as assigned when the assignment names both, else by differing jumpers, else as they were |
| Capture.RecordingSink.WriteRecord | src/recorder.rs:38-48 | the file is always the magic and the records so far |
| Capture.FileInNumbers | src/recorder.rs:24-48 | the magic, and a record's kind, eight bytes of time, two of size and data, each number low byte first |
| Capture.LoadHidCapture | src/test_helpers.rs:344-382 | the cursor loop computes the parse the laws below are about |
| Capture.CutFileLoads | src/test_helpers.rs:344-381 | a file cut off anywhere, within the magic too, loads exactly the first records it wholly contains |
| Capture.ContainedMeaning | src/test_helpers.rs:356-381 | that count is the largest whose bytes fit |
| Capture.CaptureRoundTrip | src/recorder.rs:38-48 | a capture loads back as recorded exactly when no record exceeds 65535 bytes |
| Replay.ReplayDevice.FromRecords | src/test_helpers.rs:410-435 | the batches are one ordered list of reads, each gated by the writes recorded before it |
| Replay.ReplayDevice.Read | src/test_helpers.rs:449-463 | delivers the head of that list exactly when its gate is passed, cut to the reader's room |
| Replay.ReplayDevice.Write | src/test_helpers.rs:477-482 | records the write and opens the next gate |
| Replay.ReplayKeepsOrder | src/test_helpers.rs:448-483 | however reads and writes are mixed, reads come in recorded order and none before its writes |
| Replay.ReplayCompletes | src/test_helpers.rs:448-483 | after as many writes as recorded, reading on delivers everything |

## Left out

- hidapi enumeration, opening, reading and writing: the device is an adversary that delivers bytes, acknowledges or fails.
- Operating system threads, condition variables, joins and memory orderings: steps are sequentially consistent and each locked section is one step.
- `wait_writes_idle` and the main loop's wait times, except that the first staged frame is the earliest and the time to the next sensor request is exact.
- GIF decoding: the model starts from decoded frames of one size with any real durations.
- Infinities and NaN: `SinglePrecision` goes on rounding beyond the largest `f32` instead of overflowing.
- The input state is part of `Connection.PollHandle` but not of the step system, which has no other reader of it.
- LightSystem: the object `LightScheduler` is proved per operation; the composition with two interleaved pipelines is on values.
- LightHandback.HandBackIsFinal: excludes slot swaps, after which the other pad's staged share belongs to this slot.
- Device.SmxDevice.SendConfigIfNeeded: the field `sending_config` is not modelled, because it is false between any two calls.
- Slots.SlotTable.AttemptConnections: its two locked sections are one, because only this thread changes what they read.
- Slots: shutdown, which stops all threads at once, and the events emitted after a reorder.
- Strict alternation of Connected and Disconnected events: closing always emits Disconnected and a reorder emits Connected again, so the code does not have it.
- User callbacks other than the record of their runs, logging, lock profiling, the capture directory and random serial numbers.
- Thin command senders (recalibration, factory reset, platform lights, panel test), which only queue commands.
- The binaries, the Python decoder, the recording wrappers around opened devices, and the fake devices other than the replay device.
