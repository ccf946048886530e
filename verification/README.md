# A verified model of spe-remote

spe-remote puts an SPE linear amplifier and a transceiver on the network: it parses the
amplifier's serial stream, relays its state to any number of WebSocket clients, queues their
commands, and runs automatic antenna-tuner cycles in which a FlexRadio or a SunSDR supplies the
carrier. This project models the parts of it in which order, failure and interleaving matter and
proves properties of them for all inputs, all runs and all interleavings. `dafny verify
dfyconfig.toml` checks everything (Dafny 4.11).

How the parts fit together:

| module | models |
|---|---|
| `SerialFraming`, `FramingRoundTrip` | the byte stream: a one-shot parse as the reference, the buffer events of the handler, what noise and frames turn into. The framing is that of the SPE Application Programmer's Guide Rev 1.1 |
| `StatusLine` | decoding of a status frame's payload |
| `Meter` | averaged and peak-hold output power over real time |
| `SerialHandler` | the receiving object: one buffer changed in place, proved to do what the one-shot parse says, under any chunking |
| `CommandQueue` | the sending side: queue, polls, ticks, back-pressure, teardown |
| `Broadcast` | what each WebSocket client was last told |
| `BandTable` | sub-band centres and band edges |
| `TuneTrace`, `TuneLaws` | every visible step of a tune or sweep as an event, the order of steps as a deterministic automaton, and what any trace it accepts guarantees, said about positions of events alone |
| `TuneOrchestrator` | the orchestrator's methods against an amplifier and a radio that may do anything, proved to produce only accepted traces |
| `RadioSettings`, `RadioController`, `RadioLock` | the radio's configuration and a client's edits of it, the connection's owner, and all interleavings of tunes, connects, disconnects and edits under its first-in-first-out lock |
| `FlexReplies` | the pending-reply table of the Flex client under any interleaving |
| `EventCaches`, `VfoRoundTrip` | the state caches of both radio clients, and snapshot and restore through double-precision arithmetic |
| `ConfigLines`, `ConfigTool`, `PersistValues`, `ConfigText` | the two comment-preserving editors of `config.yaml`, on structured lines, and the text of a line |
| `Releases` | release ordering and the update checker |
| `Text`, `Sequences` | the string operations and numerals the Python relies on, and facts about sequences |

The source's classes are classes here, its loops are loops, and each method is tied by its
`ensures` to a specification function whose properties are then proved. Code between two awaits is
one step; whatever the amplifier, the radio, the network or another task may do is an arbitrary
choice. Waits are "matched", "timed out" or "stopped"; watts, seconds and megahertz are real
numbers, with the rounding of floating point written out where a property is about it.

Where a promise of the source turned out not to hold in full, the exact condition is proved:

- Chunking: parsing chunk by chunk equals parsing the whole stream exactly when no chunk overflows
  the 4096-byte buffer (`ChunkingInvariance`).
- Peak meter: extra frames on or below the decay line do not change the displayed fall, but they can
  decide whether a later reading restarts the hold; `ExtraFrame` bounds exactly which, and
  `ExtraFrameRestartsHold` shows a case.
- OPERATE: with a responsive amplifier a run leaves it as it found it exactly when no stop was met
  inside the wait for the switch to STBY (`AmpEndsAsItBegan`, `StopInWaitLosesOperate`).
- A cycle that succeeded may still have said FAIL, exactly when switching the carrier off failed
  (`CycleOutcome`).
- The band of a sweep is certain to contain the radio's frequency only when that frequency can be read
  and lies in an amateur band; outside every band the request is trusted as if nothing had been read
  (`ResolveSweepBand`, `SweepStaysInBand`).
- `radio_disconnect` looks at "is a tune running" when the message arrives, not when the disconnect
  is run: a tune already asked for but not yet begun can then lose its connection, and wherever that
  race occurs it does in some continuation (`RacingDisconnectCutsTune`); without it no tune does
  (`LinkIsNotCut`).
- Two clients' configuration edits that overlap do not always add up. An edit that finds no other
  waiting is applied to the configuration it is served under; one that does is so exactly when the
  edits in between changed no field it leaves alone, and otherwise undoes those changes
  (`EditIsServed`, `EditIsUndone`).
- A configuration value comes back as written exactly when it has no white space at its ends and no
  hash mark after white space (`KeyReadsBackIff`); otherwise it is cut there (`RemarkCutsValue`).

## Model

| member | source | states |
|---|---|---|
| `SerialFraming.ParseSplits` | spe/serial_handler.py:569-589 | parsing a stream and then what it left followed by more bytes continues the parse of both together, wherever the cut falls |
| `SerialFraming.NormalIffIdle` | spe/serial_handler.py:569-616 | nothing more can be taken exactly when the buffer is short, a partial CSV frame or an open RCU frame |
| `SerialFraming.ParseIdle` | spe/serial_handler.py:569-589 | whatever one drain leaves is in that normal form and a second drain takes nothing |
| `SerialFraming.ParseConserves` | spe/serial_handler.py:569-695 | every byte ends, in order, in exactly one frame, header, trailer, noise byte or the rest |
| `SerialFraming.FramerConserves` | spe/serial_handler.py:466-490 | the same over any run of chunks, overflows, quiet flushes and reopened ports; the buffer never exceeds 4096 bytes and is always in normal form |
| `SerialFraming.ChunkingInvariance` | spe/serial_handler.py:466-490 | feeding chunks gives the pieces and the rest of one parse of the whole stream if and only if no chunk overflows |
| `SerialFraming.OnlyOpenRcuOverflows` | spe/serial_handler.py:413-490 | with reads of at most 256 bytes an overflow can only happen on an open RCU frame longer than 3840 bytes |
| `SerialFraming.ParseSkips` | spe/serial_handler.py:569-599 | everything before the first sync is dropped byte by byte and nothing else of the parse changes |
| `FramingRoundTrip.RoundTrip` | spe/serial_handler.py:569-709 | sync-free noise and then any CSV and RCU frames give exactly those frames in order, RCU payloads losing only trailing sync bytes, a last open RCU frame coming out whole on the quiet flush |
| `FramingRoundTrip.RoundTripInChunks` | spe/serial_handler.py:466-709 | the same however the stream is cut into chunks |
| `FramingRoundTrip.StatusFrameRoundTrip` | spe/serial_handler.py:601-616 | a 67-character status line sent as a CSV frame after noise reaches the decoder as the same text, its trailer set aside |
| `StatusLine.ParseStatusRecovers` | spe/protocol.py:184-263 | a line of at least 21 comma-free fields is accepted exactly when its two status letters are known, and every field read comes back as sent, codes outside the tables as their fixed defaults |
| `StatusLine.ShortLineRefused` | spe/protocol.py:184-215 | a line of too few fields gives no state |
| `Meter.PeakEnvelope` | spe/serial_handler.py:657-678 | within one context the peak lies between the live sample and the highest one, and the hold is measured from a sample at least that high |
| `Meter.PeakHolds` | spe/serial_handler.py:657-678 | through the hold window the peak is exactly the pinned sample |
| `Meter.DecayClosedForm` | spe/serial_handler.py:657-678 | over any run of decaying frames the peak is the greatest of the first peak's and all samples' own 600 W/s decay lines |
| `Meter.SamplingOfFall` | spe/serial_handler.py:157-193 | two samplings of one fall that differ only in samples on or below the decay line show the same peak |
| `Meter.ExtraFrame` | spe/serial_handler.py:157-193 | one more frame on or below the decay line leaves the next displayed peak alone, and changes when the hold started exactly when the next sample lies between the decayed and the undecayed peak |
| `Meter.ExtraFrameRestartsHold` | spe/serial_handler.py:657-678 | such a case: 950 W held with the extra frame, falling to 890 W without it |
| `Meter.AverageClosedForm` | spe/serial_handler.py:635-650 | the average of a stretch is its exponentially weighted sum, weights and all |
| `Meter.AverageBounded` | spe/serial_handler.py:635-650 | it never leaves the range of the stretch's samples |
| `Meter.AverageSettles` | spe/serial_handler.py:635-650 | against a constant reading the error shrinks by 0.85 per frame |
| `SerialHandler.MetersOfHistory` | spe/serial_handler.py:616-681 | the meters are a function of the accepted status frames alone |
| `SerialHandler.SamplesInOrder` | spe/serial_handler.py:616-681 | and see time in order |
| `SerialHandler.LedOfHistory` | spe/serial_handler.py:711-731 | the TUNE LED flag is that of the latest RCU frame long enough to carry it |
| `SerialHandler.PublishedState` | spe/serial_handler.py:616-682 | the state published for an accepted frame shows the average and the peak of the readings so far, the LED of the last RCU frame that carried one, the configured unit, and otherwise exactly what the frame said |
| `SerialHandler.StateIsLastPublished` | spe/serial_handler.py:680-682 | the state held is the last one published |
| `SerialHandler.OnlyStatusCounts` | spe/serial_handler.py:610-682 | every accepted status frame is one sample and one published state, and nothing else is |
| `SerialHandler.RcuFramesAreHandedOn` | spe/serial_handler.py:727-731 | every RCU frame is handed on whole and in order, and nothing else is |
| `SerialHandler.ReadingIsPower` | spe/serial_handler.py:639-644 | a sample is the output power as a number, nothing if it is none, under the frame's operate and transmit status |
| `SerialHandler.LedIsBitSix` | spe/serial_handler.py:725-726 | the LED is lit when bit 6 of the fifth payload byte is clear |
| `SerialHandler.SerialHandler.FindSync` | spe/serial_handler.py:591-599 | finds the first sync at or after a position, or reports that there is none |
| `SerialHandler.SerialHandler.ConsumeCsvFrame` | spe/serial_handler.py:601-685 | takes a frame exactly when the one-byte-at-a-time parse would, with every field, meter and callback as the history determines |
| `SerialHandler.SerialHandler.ConsumeRcuFrame` | spe/serial_handler.py:687-695 | takes an RCU frame exactly when the next sync is there |
| `SerialHandler.SerialHandler.DrainBuffer` | spe/serial_handler.py:569-589 | the in-place loop takes exactly the pieces of the reference parse and leaves exactly its rest, and ends because every turn shortens the buffer |
| `SerialHandler.SerialHandler.IngestChunk` | spe/serial_handler.py:466-490 | one chunk does to the object what the chunk event does in the reference, overflow included |
| `SerialHandler.SerialHandler.FlushOpenRcuFrame` | spe/serial_handler.py:697-709 | the quiet flush emits an open RCU frame whole and touches nothing else |
| `CommandQueue.CommandsKeepOrder` | spe/serial_handler.py:278-284 | over any run, write attempts of user commands keep queue order, and none queued before a teardown is attempted after it |
| `CommandQueue.AttemptsAreSound` | spe/serial_handler.py:369-411 | back-pressure holds back only RCU switches and status requests, and polls go out only with no command waiting |
| `CommandQueue.EachCommandOnce` | spe/serial_handler.py:339-367 | every accepted command is still queued, was dropped by a teardown untried, or was tried exactly once |
| `CommandQueue.KeysAreNumbered` | spe/protocol.py:17-70 | each front-panel command is a well-formed packet with its own code |
| `CommandQueue.SwitchesAreNumbered` | spe/protocol.py:34-70 | so are the RCU and backlight switches and the status request |
| `CommandQueue.NoOtherCommand` | spe/serial_handler.py:278-284 | any other name is refused |
| `CommandQueue.OnlyTicksAreHeldBack` | spe/serial_handler.py:375-386 | what back-pressure holds back has the code of an RCU switch or of the status request |
| `CommandQueue.TurnsReachTheWire` | spe/serial_handler.py:309-411 | over any run, what each turn puts on the wire: the head command, a request only when none waits, a tick, each if the port takes it, and nothing else |
| `CommandQueue.TurnsMoveTheQueue` | spe/serial_handler.py:278-284 | a known command joins at the end, the command task takes the first, a teardown empties the queue |
| `CommandQueue.CommandPort.CommandStep` | spe/serial_handler.py:542-545 | the command task writes the head of the queue, and queue and wire are those of the run |
| `CommandQueue.CommandPort.PollStep` | spe/serial_handler.py:531-540 | a poll turn with a command waiting writes nothing |
| `CommandQueue.CommandPort.TeardownPort` | spe/serial_handler.py:339-367 | a teardown empties the queue and closes the port |
| `Broadcast.EveryViewIsCurrent` | spe/websocket_handler.py:48-60 | after any events every client that opened, was reached and has neither closed nor died since is registered and last heard the state of the last frame with the unit last asked for |
| `Broadcast.Handler.Open` | spe/websocket_handler.py:48-60 | a client that opens hears the current state at once |
| `Broadcast.Handler.Broadcast` | spe/websocket_handler.py:369-392 | the loop over the clients tells every live one and drops every dead one |
| `Broadcast.Handler.OnFrame` | spe/serial_handler.py:616-682 | the decoded state, stamped with the configured unit, becomes the state held and every live client has heard it |
| `Broadcast.Handler.SetTemperatureUnit` | spe/serial_handler.py:286-303 | a unit change is normalised, stamped on the cached state and told to everyone |
| `BandTable.BandForFreqUnique` | spe/spe_band_table.py:126-135 | a band is found exactly when one contains the frequency, and no other band does |
| `BandTable.LookupTotal` | spe/spe_band_table.py:138-164 | the lookup of any band of the table succeeds with a nonempty, strictly ascending list of exactly its centres inside the amateur edges |
| `BandTable.InBandExact` | spe/spe_band_table.py:138-164 | filtering keeps exactly the in-band centres, in table order |
| `TuneLaws.CarrierIsPrepared` | spe/tune_orchestrator.py:386-430 | every attempt to switch the carrier on follows, in its own cycle and in order, STBY seen, LED seen dark, the tune power set, TUNE sent, LED seen lit |
| `TuneLaws.CarrierIsInCw` | spe/tune_orchestrator.py:567-598 | before every carrier of a run whose snapshot knew a mode outside the CW family the radio was set to CW, once; otherwise the mode was not touched |
| `TuneLaws.ModeIsSetOnlyWhenDue` | spe/tune_orchestrator.py:581-593 | a mode is asked for only to leave a known one outside the CW family, it is CW, and once for a snapshot |
| `TuneLaws.CarrierIsCut` | spe/tune_orchestrator.py:430-472 | every carrier that came on is followed by an attempt to switch it off before any other radio, amplifier or run step, and by no second attempt |
| `TuneLaws.OffFollowsOn` | spe/tune_orchestrator.py:455-468 | every attempt to switch off answers a carrier that came on |
| `TuneLaws.StbyIsLeftAlone` | spe/tune_orchestrator.py:624-647 | if the amplifier is first seen in STBY the run never toggles OPERATE |
| `TuneLaws.OperateIsHandedBack` | spe/tune_orchestrator.py:220-244 | once STBY_SET follows a toggle, every way out restores the VFO if it was saved, then toggles at most once and ends in OPER_RESTORED or FAIL, then disconnects, all before the run ends |
| `TuneLaws.AmpEndsAsItBegan` | spe/tune_orchestrator.py:624-688 | in any run of any history, with a responsive amplifier the final state is the first one if and only if no stop was met inside the wait for STBY |
| `TuneLaws.VfoIsPutBack` | spe/tune_orchestrator.py:192-244 | every run that came to know the VFO puts just that back, exactly once, after every other change of frequency or mode and every carrier, and before its one disconnect |
| `TuneLaws.StopInWaitLosesOperate` | spe/tune_orchestrator.py:224-240 | such a run exists: found in OPERATE, left in STBY |
| `TuneLaws.CycleOutcome` | spe/tune_orchestrator.py:364-472 | the last phase of a cycle is SUCCESS or FAIL, SUCCESS is said nowhere else, and it is SUCCESS exactly when the cycle returned true, exactly when LED_OFF was said |
| `TuneOrchestrator.TuneOrchestrator.TuneSingle` | spe/tune_orchestrator.py:192-244 | the history is kept and exactly one run in the accepted order follows it; it returns true exactly when nothing went against it, exactly when one SUCCESS was said, and then a requested frequency was set; a call during a run only adds its refusal |
| `TuneOrchestrator.TuneOrchestrator.TuneBand` | spe/tune_orchestrator.py:246-362 | the same for a sweep: its band follows from what the search for the radio's frequency is seen in the trace to have come to, it sets only that band's in-band centres in table order, and it returns true exactly when a band was resolved and nothing went against it, exactly when all centres were stepped to and succeeded and SWEEP_DONE was said |
| `TuneOrchestrator.TuneOrchestrator.RunOneCycle` | spe/tune_orchestrator.py:364-472 | a cycle leaves the run where it was, and its result, SUCCESS count and set frequency agree |
| `TuneOrchestrator.TuneOrchestrator.Sweep` | spe/tune_orchestrator.py:312-348 | the sweep loop stops at the first failure or stop with SWEEP_DONE unsaid, and otherwise completes |
| `TuneOrchestrator.TuneOrchestrator.EnsureStby` | spe/tune_orchestrator.py:624-647 | OPERATE is owed exactly when the amplifier was seen in it and then seen in STBY |
| `TuneOrchestrator.TuneOrchestrator.SetTuneMode` | spe/tune_orchestrator.py:567-598 | asks for CW exactly when the snapshot knows a mode outside the CW family, for nothing otherwise, and fails exactly when that raises |
| `TuneOrchestrator.TuneOrchestrator.RestoreOperate` | spe/tune_orchestrator.py:649-670 | a debt is always settled, with OPER_RESTORED or FAIL, whatever the stop flag says |
| `TuneOrchestrator.TuneOrchestrator.WaitForOpStatus` | spe/tune_orchestrator.py:672-688 | the wait ends matched, timed out or stopped, and never stopped when it ignores stops |
| `TuneOrchestrator.TuneOrchestrator.WaitForTuneActive` | spe/tune_orchestrator.py:690-702 | the same for the LED, leaving the cycle lit, swept or failing |
| `TuneOrchestrator.TuneOrchestrator.WaitForRadioFreq` | spe/tune_orchestrator.py:600-622 | looks at least once, and ends with the first frequency read, or none when it cannot be read, a stop came or the time ran out |
| `TuneOrchestrator.TuneOrchestrator.ResolveSweepBand` | spe/tune_orchestrator.py:505-565 | the radio is looked at first, and the band is the one containing the frequency that look came to if there is one, and the request's only otherwise |
| `TuneOrchestrator.SoughtIsShown` | spe/tune_orchestrator.py:600-622 | what the search came to is an event of the run: the frequency seen, or an unreadable one, a stop or a timeout; and a frequency seen anywhere in the run is what it came to |
| `TuneOrchestrator.OneRunAdded` | spe/tune_orchestrator.py:205-244 | a trace that ends a run ends exactly one since the run before, and keeps what came before it |
| `TuneOrchestrator.SweepStaysInBand` | spe/tune_orchestrator.py:279-348 | in the trace a sweep leaves, every set frequency is a table centre inside the amateur edges of its band, ascending and so at most once, and no other band contains a frequency the radio was seen on |
| `TuneOrchestrator.BandIsRadiosOrRequested` | spe/tune_orchestrator.py:525-565 | the band is the one the radio's frequency lies in, and otherwise exactly the one the request spells |
| `TuneOrchestrator.RequestSpells` | spe/tune_orchestrator.py:557-565 | a request names a band exactly when it is the band's name or its number, in any case and with space around it |
| `RadioSettings.EditsStayInRange` | spe/websocket_handler.py:177-228 | no accepted edit leaves the ranges the radios accept |
| `RadioSettings.DescribedComesBack` | spe/websocket_handler.py:229-255 | a client that sends back the configuration it was told restores exactly that configuration |
| `RadioSettings.EditIsIdempotent` | spe/websocket_handler.py:275-318 | an accepted edit applied again changes nothing |
| `RadioSettings.SameOutcome` | spe/websocket_handler.py:310-318 | an edit gives two configurations the same outcome exactly when they agree on every field it leaves alone |
| `RadioSettings.EditSetsWhatIsSent` | spe/websocket_handler.py:177-318 | every field of an accepted edit is what was sent for it, within its own bounds, and every field not sent is what it was |
| `RadioSettings.NumbersAreNotMoved` | spe/websocket_handler.py:214-226 | a number is accepted exactly if it is whole and within bounds, as it is, and never clamped |
| `RadioController.RadioController.Connect` | spe/radio_controller.py:123-163 | gives a live link built for the current configuration or reports an error last; a live link is kept silently |
| `RadioController.RadioController.Build` | spe/radio_controller.py:193-228 | builds for the configured kind, remembers a discovered host, and every failure has been reported |
| `RadioController.RadioController.Disconnect` | spe/radio_controller.py:165-180 | closes once and reports exactly if there was something to close |
| `RadioController.RadioController.Reconfigure` | spe/radio_controller.py:104-117 | closes under the old configuration, then swaps all of it and forgets a discovered host |
| `RadioLock.TuneKeepsItsConfig` | spe/websocket_handler.py:313-319 | in every interleaving controller and application agree at every step, the link was built under that configuration, and a tune holds the link under it |
| `RadioLock.TuneReadsOneRadio` | spe/tune_orchestrator.py:374-375 | for as long as a tune holds the radio, the backend, channel and power its cycles read are the same |
| `RadioLock.NoSwapUnderTune` | spe/websocket_handler.py:275-319 | no swap is served between a tune's connect and its release, and a swap that is served is the one that was asked for |
| `RadioLock.EndedTuneLeavesNoLink` | spe/tune_orchestrator.py:239-244 | the step that ends a tune leaves no link open |
| `RadioLock.ConnectsWhenItCan` | spe/radio_controller.py:123-163 | a connect that gets the lock brings the link up exactly when it stands already or the radio can be reached |
| `RadioLock.RunningTuneTurnsAway` | spe/websocket_handler.py:132-143 | a second tune, an edit and a disconnect that come while a tune runs change nothing |
| `RadioLock.ConfigStaysInRange` | spe/websocket_handler.py:264-319 | the configuration stays in range through any interleaving |
| `RadioLock.EditIsMade` | spe/websocket_handler.py:275-319 | an accepted edit is served within its own call when the lock is free and no link is up, and otherwise waits as made from the configuration of that moment |
| `RadioLock.EditIsServed` | spe/websocket_handler.py:313-319 | an edit that found no other edit waiting is applied to the configuration it is served under; one that did is so exactly when the edits in between changed no field it leaves alone |
| `RadioLock.EditIsUndone` | spe/websocket_handler.py:313-319 | a run in which an edit of the Flex port puts back the radio kind that another client has just changed |
| `RadioLock.LinkIsNotCut` | spe/websocket_handler.py:132-143 | no link is closed under a tune unless a disconnect arrived while no tune ran but a tune's call was scheduled |
| `RadioLock.RacingDisconnectCutsTune` | spe/websocket_handler.py:132-143 | and wherever that happens, with a configuration that can connect and no edit waiting, some continuation closes the link under that tune |
| `FlexReplies.ReplyRoundTrip` | spe/flex.py:267-284 | a reply line reads back its number, status and message, bars in the message included |
| `FlexReplies.FinishesOnce` | spe/flex.py:189-221 | a send that has finished keeps its outcome whatever happens next |
| `FlexReplies.OutcomeIsItsOwn` | spe/flex.py:189-221 | a finished send could not be written, or timed out, or lost its connection, or has the first reply to its own number: its message when the status is 0, a rejection with that status and message otherwise |
| `FlexReplies.ReplyIsHeld` | spe/flex.py:267-284 | the future of an unfinished send is exactly what came first of a reply to it, the loss of the connection and its timeout, so a reply in time waits for it |
| `FlexReplies.NobodyIsLeftWaiting` | spe/flex.py:162-183 | after a close or the end of the read loop the table is empty and every unfinished send can finish; after a close a new send is refused at once |
| `FlexReplies.FlexConnection.DispatchLine` | spe/flex.py:267-302 | a reply line resolves its waiter or nobody, other lines no waiter |
| `FlexReplies.FlexConnection.StartSend` | spe/flex.py:197-206 | draws the next number and enters the table, or is refused without a connection |
| `FlexReplies.FlexConnection.FinishClose` | spe/flex.py:170-183 | the last part of a close disconnects and fails every waiter |
| `FlexReplies.FlexConnection.FailPending` | spe/flex.py:180-183 | the loop over the table fails every unresolved waiter and empties the table |
| `FlexReplies.FlexConnection.FinishSend` | spe/flex.py:212-221 | a resumed send returns the message of a reply with status 0, raises any other status, and raises a timeout or a lost connection |
| `EventCaches.SliceMessageBack` | spe/flex.py:303-326 | a slice event as the radio writes it is taken apart into just its receiver and tokens |
| `EventCaches.SliceFieldIsLastSaid` | spe/flex.py:303-326 | the cache holds for a field what the last token of the last event to assign to it said, after its first equals sign |
| `EventCaches.SliceEventSets` | spe/flex.py:318-326 | an event sets each field its tokens assign to |
| `EventCaches.OthersAreKept` | spe/flex.py:303-326 | a message leaves alone every field it does not assign to |
| `EventCaches.VfoFieldIsLastSaid` | spe/tci.py:167-200 | the TCI cache holds for a receiver the frequency of the last VFO line of channel 0 and the mode of the last modulation line |
| `EventCaches.VfoLineMeans` | spe/tci.py:175-190 | a VFO line of channel 0 sets its receiver's frequency and nothing else, of another channel nothing |
| `EventCaches.ModeLineMeans` | spe/tci.py:191-200 | a modulation line sets its receiver's mode and nothing else |
| `EventCaches.ReadyIsSaid` | spe/tci.py:172-174 | the radio is ready exactly when some line said so |
| `EventCaches.GroupingInvariance` | spe/tci.py:135-148 | however terminated commands are grouped into frames, the outcome is the same |
| `EventCaches.FrameBoundary` | spe/tci.py:135-148 | a frame boundary after a terminator makes no difference |
| `EventCaches.SliceCache.Update` | spe/flex.py:303-326 | the token loop merges a partial event into the cache and replaces nothing else |
| `EventCaches.TciConnection.ReadLoopEnded` | spe/tci.py:149-165 | a finished reader drops its own socket and never a newer one |
| `EventCaches.TciConnection.Close` | spe/tci.py:104-122 | the socket open at the start is closed even though the reader forgets it first |
| `EventCaches.TciConnection.ReadFrame` | spe/tci.py:135-148 | the loop over a frame's commands does what the frame means |
| `VfoRoundTrip.TwoRoundings` | spe/tci.py:206-209 | Hz to MHz and back through two roundings of relative error 2^-53 is exact below 2^51 |
| `VfoRoundTrip.TciRestoreIsExact` | spe/tci.py:229-274 | under rounding to double precision, restoring a snapshot sends exactly the Hz last said, for any below 2^51, and the mode last said, if any |
| `VfoRoundTrip.VfoCommandIsHeard` | spe/tci.py:167-209 | a frequency command heard back is cached as the frequency it sets and changes nothing else |
| `VfoRoundTrip.ModeCommandIsHeard` | spe/tci.py:167-215 | a mode command likewise |
| `VfoRoundTrip.FlexRestoreIsExact` | spe/flex.py:392-424 | restoring a snapshot sends back letter for letter the canonical six-decimal frequency below 10^9 MHz and the mode the slice last reported |
| `ConfigTool.InsertionPlacesAgree` | configtool.py:170-191 | both editors choose the same place for a new key in every file |
| `ConfigTool.InsertAtIsBelowLastKey` | spe/config.py:178-194 | that place is right below the last key of the section's block, or below the header of a block without keys |
| `ConfigTool.KeyStandsLast` | configtool.py:170-191 | a new key stands there and every other line where it was |
| `ConfigTool.SetOneReads` | configtool.py:139-162 | setting a key changes the line that key is read from and no other key's |
| `ConfigTool.EditLaw` | configtool.py:194-207 | an edit in an existing section makes the key read as written, keeps every other key's line, every section and every line |
| `ConfigTool.InsertBlockLaw` | configtool.py:218-231 | a new section brings its own keys and leaves all others |
| `ConfigTool.RenderReads` | configtool.py:118-132 | a section made from scratch reads back every change that names it, every other key of its template by its default, and nothing else |
| `ConfigTool.FreshSectionDefaults` | configtool.py:82-132 | after an edit the unnamed keys of a new section read their defaults |
| `ConfigTool.BlockStandsAboveLogging` | configtool.py:218-231 | a new section stands directly above `logging:` and a blank line, everything else where it was |
| `ConfigTool.BlockStandsAtEnd` | configtool.py:227-230 | or at the end, a blank line before it unless one is there |
| `ConfigTool.SectionsInOrder` | configtool.py:209-213 | missing sections are made in the order radio, flex, tci, others after |
| `ConfigTool.ApplyLaw` | configtool.py:194-231 | after any changes each changed key reads its value, every other readable key keeps its line, and all lines survive in order but for values |
| `ConfigTool.ApplyTwice` | configtool.py:194-231 | applying the same changes again changes nothing |
| `ConfigTool.SetOneKey` | configtool.py:139-162 | the loop sets the first match and reports whether there was one |
| `ConfigTool.InsertNewKey` | configtool.py:170-191 | the single scan inserts at the place after the section's last key |
| `ConfigTool.ApplyChanges` | configtool.py:194-215 | the loops apply the changes one after another and add the missing sections in template order |
| `PersistValues.OnePassIsFoldInAnyOrder` | spe/config.py:217-238 | on a file that gives no key twice the one pass equals single edits in any order |
| `PersistValues.EditorsAgree` | spe/config.py:217-238 | and where every changed key is present the two editors write the same file |
| `PersistValues.PersistReads` | spe/config.py:197-252 | where each key is read from after `persist_values`, in any order of the missing keys |
| `PersistValues.MissingStandLast` | spe/config.py:240-256 | missing keys go below the last key of their section, a missing section to the end of the file |
| `PersistValues.PersistLaw` | spe/config.py:197-252 | every changed key reads its value, every other key keeps its line, all lines survive |
| `PersistValues.PersistTwice` | spe/config.py:217-252 | persisting the same changes again finds no key missing and changes nothing |
| `PersistValues.RunPass` | spe/config.py:222-238 | the loop rewrites every match and nothing else |
| `PersistValues.FindInsertAt` | spe/config.py:178-194 | the scan from a header stops at the next header and returns the place after the last key |
| `PersistValues.PersistChanges` | spe/config.py:217-252 | the whole edit, whatever order the set of missing keys is in |
| `ConfigText.LexIsLossless` | configtool.py:135-136 | taking any line apart and writing its parts gives the line back |
| `ConfigText.KeyReadsBackIff` | configtool.py:135-160 | a key line is read back into the parts it was written from exactly when its value has no white space at its ends, no hash mark after white space, and is not empty in front of a remark |
| `ConfigText.RemarkStarts` | configtool.py:136 | a remark begins somewhere in a text exactly where white space is followed by a hash mark |
| `ConfigText.NewLineReads` | configtool.py:170-191 | the same for a key line an editor adds |
| `ConfigText.TextEditIsStable` | configtool.py:194-231 | an edited text, sections made from scratch included, read again is the edited lines, and editing it again returns it unchanged |
| `ConfigText.RemarkCutsValue` | configtool.py:135-160 | a value is cut where white space and a hash mark begin, and the rest becomes a remark |
| `Releases.VersionRoundTrip` | spe/update_check.py:65-71 | a dotted version, with or without v, reads back as its numbers |
| `Releases.NewerMeans` | spe/update_check.py:74-80 | newer means higher at the first component that differs, a missing one counting as 0 |
| `Releases.NewerIsStrictWeakOrder` | spe/update_check.py:74-80 | irreflexive, asymmetric, transitive, and ties compare alike with every third |
| `Releases.TiesAreEqualVersions` | spe/update_check.py:74-80 | versions tie exactly when equal up to trailing zeros |
| `Releases.MemoryIsLastUsable` | spe/update_check.py:160-206 | what is shown and when it was checked come from the last usable tag alone, the next delay from the last outcome alone |
| `Releases.ShownIsNewer` | spe/update_check.py:174-206 | a release is shown exactly when the last usable tag is strictly newer, with its own link if that leads below the project's pages and with those pages otherwise |
| `Releases.UsableMeans` | spe/update_check.py:178-185 | a check succeeds exactly when it brought a tag with a digit in it |
| `Releases.NewsIsLoggedOnce` | spe/update_check.py:198-203 | no tag is logged twice in a row, and the one shown is the one logged last |
| `Releases.UpdateChecker.CheckNow` | spe/update_check.py:174-206 | a failed check leaves the memory alone, a usable one replaces it |
| `Releases.UpdateChecker.RunLoop` | spe/update_check.py:160-165 | each wait of the loop is the one its history calls for |

## Left out

- Serial, TCP, UDP and WebSocket input and output, threads, the DTR power line, discovery packets: their results are arbitrary choices.
- `server.py`, `spe/app.py`, `spe/power_control.py`, the command-line tools, shell scripts, dashboard and Node-RED flow: no deep property.
- Cancellation of a task from outside: only the stop flag is modelled, and it raises only inside the polling waits.
- Wall-clock lengths of waits and sleeps, log messages and message wording, exceptions raised by callbacks, the log-once flag of the status decoder.
- The rounding of the published meters to one decimal, and numerals such as `1e3`, `nan` or `inf` as a power reading: the meters take plain decimal text, everything else counts as 0 W.
- White space, digits and letters outside ASCII.
- SerialHandler: the temperature unit is fixed while the stream is parsed; changing it live is modelled in Broadcast.
- CommandQueue: the 50 ms gap of an RCU tick and the adaptive poll interval; how often each turn is taken is arbitrary.
- FlexReplies: the banner, and the text of commands; a future is the state of its call.
- EventCaches: the radio's version string and readiness are kept but only their independence of framing is stated.
- TuneOrchestrator: the channel and the power value handed to the radio; that they are constant under a tune is in RadioLock.
- VfoRoundTrip: the doubles themselves; a rounding is any function within the stated error, on zero and the magnitudes of normal doubles.
- ConfigTool: the formatters of raw values, splitting a file into lines, and full YAML; a file is flat sections of key lines. The comments of the templates may be any text.
- PersistValues: reading and writing the file, and `persist_temperature_unit`.
- ConfigText.TextEditIsStable: an empty value written in front of a remark, and template words that are not comments.
- Releases: the network request, the development-version switch and the test hook.
- Origin checks, TLS and login.
