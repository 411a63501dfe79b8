# CommunityGate edge: verified model

A gate node runs a small distributed system: a push server that feeds commands to a door panel over
a polling protocol, an outbox that forwards gate events to the cloud, a roster that is provisioned
onto the panel, a plate normalizer, and the handlers that correlate tags, plates and remote
commands. This project models that logic in Dafny and proves what it keeps over whole runs.

| file | what it holds |
|---|---|
| `Basics`, `PyText` | options, the clock, and the Python text operations the wire format rests on |
| `Wire`, `WireReadBack` | command lines, poll replies and acknowledgements, written and read on both sides; what each text says, field by field |
| `CommandQueue`, `Liveness`, `QueueLaws` | queue, in-flight table, retries and acknowledgement map as steps; accounting, progress and the fate of every command over every run |
| `PushServer`, `PushController` | the same operations in place, as the server and the controller perform them |
| `PanelLink`, `LossyLink` | server and panel joined by a link without loss, and by one that loses, reorders and retries |
| `PriorityOrder`, `LossyProgress` | the same links when card writes carry control priority, and how many losses the retries make good |
| `MockPanel`, `RecordDelivery` | the panel side: parser, executor and poll loop; and a user record from the reply that carries it to the panel's table |
| `TapRing` | the bounded de-duplication ring for events a panel posts |
| `Outbox`, `OutboxConservation`, `OutboxOrder`, `OutboxProgress`, `OutboxQuarantine`, `OutboxDrain`, `OfflineQueue` | the store-and-forward queue against a cloud that answers as it likes |
| `Roster`, `LocalDecision` | the local tables, and what the gate decides from them row by row |
| `RosterPush`, `PushWindows`, `RosterAgreement` | the push of the tables to the panel, the validity windows it carries, and whether panel and local check agree |
| `Normalizer`, `PlateSpelling`, `PlateNoise` | OCR repair of number plates, their spellings, and clean plates with noise around them |
| `TimedDedup`, `GateCommands`, `Correlation`, `AuditTruth`, `CorrelationRuns`, `UsbReader` | suppression of repeats in a time window and the gate-side state machines built on it |

Time is a real number that does not run backwards unless a row says so, every lock-protected section is one step, and
traces are arbitrary finite sequences of steps. The cloud, the panel's link and the clock are
parameters, so each theorem holds for every behaviour of theirs.

Findings, all proved with the exact condition under which the code does meet the intention:

* **Add and delete of one card over a lossy link.** Retries can reorder them. Full acknowledgement
  guarantees the intended table exactly when no card is both added and removed
  (`LossyLink.LossyAgreementExactly`); for a roster push this means exactly when no blacklisted card is also
  provisioned (`RosterAgreement.LossyPushExactly`).
* **A record whose name is more than a name.** The server's mirror looks for DELETE anywhere in the line and
  takes the last card token; the panel looks only at the verb and takes the first. And the panel cuts a reply into
  lines before it executes them, so that a name with a line break is executed. Panel and mirror agree on a record
  exactly when the text behind its line breaks touches no other card and leaves this card as the mirror has it
  (`RecordDelivery.RecordAgreesExactly`); for a record without line breaks, exactly when the line does not hold
  DELETE and its dates and name hold no card token, or this card's last (`RecordDelivery.OneLineRecordAgrees`).
  A card named DELETE, the name "A CardNo=9" and a name with a command behind a line break are the failing
  families (`MockPanel.CardNamedDeleteIsMisread`, `MockPanel.SecondCardIsMisread`,
  `RecordDelivery.BrokenNameAddsCard`); the last can also open a door (`RecordDelivery.BrokenNameOpensDoor`).
* **A record whose text holds CONTROL DEVICE jumps the queue.** It can then overtake an earlier write to the same
  card. Without loss the panel always ends with the intended table exactly when, for every card, the last write at
  data priority, if any, has the effect of its last write (`PriorityOrder.LosslessExactly`).
* **Five losses.** The retries make good up to five lost lines or acknowledgements per command, and not six
  (`LossyProgress.MadeGoodExactly`).
* **An event key is not always the tap's own.** It is exactly when neither index nor time nor card holds the
  separator (`TapRing.KeysTellTapsApart`); for attendance records, when neither time nor person does
  (`WireReadBack.AttendanceKeysExactly`).
* **Noise around a plate.** The window search takes the shortest readable window first, so a clean plate can be
  found inside noise exactly when no shorter part of it can be read as a plate; plates with four digits never are
  (`PlateNoise.FoundInNoiseExactly`, `PlateNoise.FourDigitsAreLost`).
* **An expired card row in front of a valid one.** The panel gets the valid row, the local check reads only
  the first (`RosterAgreement.PanelMatchesLocalCheck`). This concerns the edge tables alone: in the cloud's
  schema `rfid_cards.uid_hash` is unique, which is enough for the agreement (`RosterAgreement.UniqueUidsAreShadowFree`).
* **Blacklisted plates are compared literally**, whitelisted ones in normal form
  (`CorrelationRuns.BlacklistBindsExactly`). This concerns the handler alone: every plate the receiver delivers
  is in normal form and is bound (`CorrelationRuns.ReceivedPlatesAreBound`).
* **A pending tag lets the local tables overrule a refusal by the cloud**
  (`CorrelationRuns.PendingTagOverrules`).
* **Repair alone rewrites some clean plates**, so the direct match must come first
  (`Normalizer.RepairAloneRewrites`).
* **Windows and purges.** A command acts at most once exactly when it expires within less than a minute
  (`GateCommands.OnceExactly`); a reader's debounce holds exactly when it does not exceed a minute
  (`UsbReader.DebounceExactly`); hand typing makes no frame exactly when lengths 0 and 1 are not accepted
  (`UsbReader.HandTypingExactly`).

## Model

| member | source | states |
|---|---|---|
| `Wire.UserLineEffects` | edge/c3_push_server.py:469-477 | a user record executed as one line is an addition of its own card under that id, whatever its dates and name; the server's mirror moves to the last card the dates and name hold, or this card if they hold none, and removes it if the line holds DELETE |
| `Wire.DeleteLineEffects` | edge/c3_push_server.py:480-481 | a deletion reaches the panel with its id and card, and the mirror always agrees with the panel |
| `Wire.ControlLineEffects` | edge/c3_push_server.py:461-466 | the panel reads a door opening back as the requested duration clamped to 1..254, it leaves both card tables alone and outranks data |
| `Wire.PlainUserLine` | edge/c3_push_server.py:204-218 | a record without a capital L can neither be taken for a deletion nor jump the queue |
| `Wire.PlainDeleteLine` | edge/c3_push_server.py:204-205 | a deletion of a card without white space never jumps the queue |
| `Wire.AckRoundTrip` | edge/c3_push_server.py:440-447 | the acknowledgement body the panel posts reads back to the same id, code, command and card |
| `Wire.AckEffectMatches` | edge/c3_push_server.py:591-599 | what an acknowledgement does to the mirror is what the panel did to its table |
| `WireReadBack.OpeningSaysDoor` | edge/c3_push_server.py:461-466 | the eight characters that end an opening read back as output operation, door, lock and clamped seconds |
| `WireReadBack.AckReadBack` | edge/c3_push_server.py:440-447 | an acknowledgement reads back to its id, code, command and card for every code, with or without a card, and however many line ends follow it |
| `WireReadBack.FieldIsLast` | edge/c3_push_server.py:442-447 | the last part that gives a key a value counts; without one it is the fallback |
| `WireReadBack.MirrorStays` | edge/c3_push_server.py:211-218 | only a record or a deletion that names a card moves the mirror |
| `WireReadBack.OtherAckStays` | edge/c3_push_server.py:591-599 | an acknowledgement without a card, or of any other command, moves no table |
| `Wire.PollReplyRoundTrip` | edge/emulators/c3_push_device_mock.py:49-54 | the panel cuts a poll reply back into exactly the lines handed out if and only if none of them breaks or ends in white space |
| `WireReadBack.NoCommand` | edge/emulators/c3_push_device_mock.py:61-66 | a line that does not begin with C: or has no second colon is ignored |
| `WireReadBack.FirstCardCounts` | edge/emulators/c3_push_device_mock.py:76-100 | whatever its text, a record adds and a deletion removes the first card the text names; one that names none leaves the table alone, and both are acknowledged |
| `WireReadBack.OtherVerb` | edge/emulators/c3_push_device_mock.py:67-92 | a line with any other verb is acknowledged under its first word and touches neither table nor door |
| `WireReadBack.BareOpening` | edge/emulators/c3_push_device_mock.py:70-72 | an opening without operand lasts five seconds |
| `WireReadBack.OddOpening` | edge/emulators/c3_push_device_mock.py:70-72 | so does one whose operand is too short; one whose last byte is no number fails |
| `CommandQueue.SortOrdered` | edge/c3_push_server.py:297-299 | commands leave by descending priority and then by age |
| `CommandQueue.SortStable` | edge/c3_push_server.py:299 | commands tied on priority and age leave in list order |
| `CommandQueue.SortIds` | edge/c3_push_server.py:299 | sorting loses and invents no command |
| `CommandQueue.PollShape` | edge/c3_push_server.py:290-308 | a poll moves the front of the sorted queue into the in-flight table and nothing else; queue and in-flight table stay duplicate-free and disjoint |
| `CommandQueue.EveryRunAccounted` | edge/c3_push_server.py:199-220 | over every run: each submitted id is queued, in flight or acknowledged; hand-outs equal the tries on the books and never exceed six; the acknowledgement map holds the last reported code or else the time-out marker |
| `CommandQueue.AcksOnlyGrow` | edge/c3_push_server.py:310-327 | no acknowledgement is ever forgotten, and from any state a code changes only when the device reports a new one: giving up never overwrites it |
| `CommandQueue.AckedExactly` | edge/c3_push_server.py:222-227 | over every run a command counts as acknowledged if and only if the device has reported it or some poll has found it overdue and out of tries or of time |
| `QueueLaws.ReapFate` | edge/c3_push_server.py:310-327 | a command handed out less than four seconds ago stays in flight; past that, one older than sixty seconds or retried five times is acknowledged, as -1 if nothing was known of it, and in neither table, and any other is queued with one more try; only giving up acknowledges |
| `QueueLaws.PollBatch` | edge/c3_push_server.py:297-308 | a poll hands out the batch size, at least one, or everything that waits |
| `QueueLaws.HandedInTurn` | edge/c3_push_server.py:297-308 | of what a poll hands out and what it leaves, higher priority stands first and age within a priority |
| `QueueLaws.ReportFate` | edge/c3_push_server.py:448-456 | a report takes exactly its command out of flight, records its code over any other, moves the card table and leaves the queue alone; one without an id does nothing |
| `QueueLaws.AlwaysRightBooks` | edge/c3_push_server.py:199-220 | over every run each command on the books stands as it was submitted, with its line, its time and the priority given or that of its line, and one in flight carries the time of its last hand-out |
| `QueueLaws.PollFate` | edge/c3_push_server.py:310-327 | over every run, told from its events alone: what the next poll does with a command in flight follows from when it was submitted, when it was last handed out and how often |
| `QueueLaws.NoneRetriedLate` | edge/c3_push_server.py:319 | over every run no poll puts a command back or hands it out again more than sixty seconds after it was submitted |
| `Liveness.BoundedCompletion` | edge/c3_push_server.py:290-327 | with n commands outstanding and nothing new, 6n + 1 polls that find every in-flight command overdue leave nothing outstanding, each command acknowledged or marked timed out |
| `Liveness.UrgentNotDelayed` | edge/c3_push_server.py:297-308 | a queued command with k rivals is handed out within 6k + 1 polls, however long the queue and whatever else arrives; rivals are the outstanding commands of higher priority, or of the same and no younger, and the later ones that must go first |
| `Liveness.OpenOvertakesData` | edge/c3_push_server.py:202-205 | an open command behind nothing but bulk data goes out on the next poll, unless something that must go first comes in between |
| `PushServer.C3PushServer.EnqueueCommand` | edge/c3_push_server.py:199-220 | appends the command at its priority and moves the mirror by the last card token of the line |
| `PushServer.C3PushServer.ReapInFlight` | edge/c3_push_server.py:310-327 | each in-flight command is kept, retried or given up by its age and tries |
| `PushServer.C3PushServer.HandleGetRequest` | edge/c3_push_server.py:290-308 | one poll: the new state of queue, in-flight table and acknowledgements, and the text of the reply |
| `PushServer.C3PushServer.HandleDeviceCmd` | edge/c3_push_server.py:440-457 | an acknowledgement takes its command out of flight, records its code and moves the mirror; one without a readable id changes nothing |
| `PushServer.C3PushServer.QueueDepth` | edge/c3_push_server.py:179-184 | the depth counts queue and in-flight table, and is zero exactly when both are empty |
| `PushController.C3PushController.Send` | edge/c3_push_controller.py:222-227 | one request: a fresh id, the line formatted with it, and that line queued |
| `PushController.C3PushController.SyncCards` | edge/c3_push_controller.py:96-112 | whatever the chunk size, one update per card is queued in list order under consecutive ids; nothing if not started |
| `PushWindows.PutsInOrder` | edge/c3_push_controller.py:96-112 | those updates are for the listed cards one after the other, each without limit |
| `PushController.C3PushController.AddCard` | edge/c3_push_controller.py:130-140 | queues one update with its validity window, or reports failure and changes nothing |
| `PushController.C3PushController.BlockCard` | edge/c3_push_controller.py:188-197 | queues one deletion, or reports failure and changes nothing |
| `PushController.C3PushController.OpenDoor` | edge/c3_push_controller.py:206-213 | queues one opening whose duration is clamped to 1..254 |
| `PushController.OpenDoorMeans` | edge/c3_push_controller.py:206-213 | that line is queued at control priority, leaves the mirror alone, and the panel opens for the clamped duration |
| `PushController.PostsAreRequests` | edge/c3_push_controller.py:222-227 | the lines so posted are those of the requests, in order and under consecutive ids |
| `PushController.SendingIsPosting` | edge/c3_push_controller.py:222-227 | what the controller does to the server is posting on the link, so the link theorems apply to it |
| `PanelLink.LosslessAgreement` | edge/c3_push_server.py:290-308 | without loss, and with card writes at data priority, the panel executes them in enqueue order though control commands overtake them; with nothing outstanding, panel table, server mirror and fold of everything enqueued are one |
| `PriorityOrder.LosslessExactly` | edge/c3_push_server.py:202-205 | for any commands at whatever priority their lines have: without loss the panel always ends with the intended table if and only if for every card the last write at data priority, if any, has the effect of its last write |
| `PriorityOrder.OvertakingBreaks` | edge/c3_push_server.py:297-299 | otherwise the run that queues everything and then drains the queue ends in a wrong table |
| `LossyLink.LossyAgreement` | edge/c3_push_server.py:310-327 | with loss, reordering and retries but no card both added and removed, full acknowledgement leaves the panel with the initial table plus all additions minus all removals |
| `LossyLink.LossyAgreementExactly` | edge/c3_push_server.py:440-457 | for any commands, card writes and door openings mixed, under any ids: full acknowledgement guarantees the intended table if and only if no card is both added and removed |
| `LossyProgress.FewLossesAreMadeGood` | edge/c3_push_server.py:310-327 | if no command loses more than five lines or acknowledgements and no poll finds one in flight older than its life, then once everything is at rest the device has reported every command, and without conflict the panel holds the table meant |
| `LossyProgress.PollsCompleteTheWork` | edge/c3_push_server.py:290-327 | from any moment of such a run 6n + 1 polls that find every in-flight command overdue settle all n outstanding commands and lead there |
| `LossyProgress.MadeGoodExactly` | edge/c3_push_server.py:320-326 | losses up to a given number per command are always made good if and only if that number is at most five |
| `LossyLink.ConflictBreaks` | edge/c3_push_server.py:324-326 | with such a card among any commands there is a run of polls, one loss and one retry that ends in a wrong table although the device reports every command |
| `MockPanel.UserLineUnderstood` | edge/emulators/c3_push_device_mock.py:78-83 | a user record executed as one line is acknowledged under its id and adds its card, whatever its dates and name; the mirror agrees if and only if the line does not hold DELETE and dates and name hold no card token, or this card's last |
| `MockPanel.CardNamedDeleteIsMisread` | edge/c3_push_server.py:218 | for the card named DELETE the mirror removes what the panel adds |
| `MockPanel.NamedCardIsMirrored` | edge/c3_push_server.py:213-218 | when a name ends in a card token of its own, the mirror moves to that card while the panel adds the record's own |
| `MockPanel.SecondCardIsMisread` | edge/c3_push_server.py:213-218 | card 77 under the name "A CardNo=9": no DELETE in the line, yet the panel adds 77 and the mirror 9 |
| `RecordDelivery.RecordAgreesExactly` | edge/emulators/c3_push_device_mock.py:46-57 | for every record as delivered, whatever its dates and name: panel and mirror agree on every table if and only if the text behind its line breaks touches no other card and its last write to this card is what the mirror has done |
| `RecordDelivery.OneLineRecordAgrees` | edge/emulators/c3_push_device_mock.py:51-54 | a record without line breaks is delivered as one line; panel and mirror agree if and only if the line does not hold DELETE and dates and name hold no card token, or this card's last |
| `RecordDelivery.BrokenNameAddsCard` | edge/c3_push_server.py:469-477 | a name with a line break and an addition of another card behind it makes the panel add that card too, even in a line without DELETE whose last card token is its own |
| `RecordDelivery.BrokenNameDropsCard` | edge/c3_push_server.py:469-477 | with a deletion of its own card there both sides drop the card, so they agree although the line holds DELETE |
| `RecordDelivery.BrokenNameOpensDoor` | edge/emulators/c3_push_device_mock.py:70-77 | with an opening there the panel opens the door for the clamped duration |
| `MockPanel.DeleteLineUnderstood` | edge/emulators/c3_push_device_mock.py:84-88 | a deletion is acknowledged under its id and both sides agree on it |
| `MockPanel.ControlLineUnderstood` | edge/emulators/c3_push_device_mock.py:70-77 | an opening is acknowledged under its id and touches neither card table |
| `MockPanel.C3PushDeviceMock.Execute` | edge/emulators/c3_push_device_mock.py:59-98 | one line changes the card table and the list of openings as parsed, and is acknowledged if it could be parsed |
| `MockPanel.C3PushDeviceMock.HandleReply` | edge/emulators/c3_push_device_mock.py:46-57 | the lines of a reply are executed and acknowledged, and the door opened, in order, up to the first line that fails |
| `MockPanel.ReplyExecuted` | edge/emulators/c3_push_device_mock.py:51-54 | from reply text to table: every line handed out takes effect, in order |
| `MockPanel.AnsweredInOrder` | edge/emulators/c3_push_device_mock.py:53-92 | each line of a reply the panel acts on is answered, in order, under its id and with its command and card |
| `MockPanel.FailureEndsReply` | edge/emulators/c3_push_device_mock.py:53-56 | a line the panel fails on ends the reply: nothing behind it is executed or answered |
| `MockPanel.OpeningsInOrder` | edge/emulators/c3_push_device_mock.py:68-75 | the door openings of a reply follow one another in the order of its lines |
| `MockPanel.OpeningInReply` | edge/emulators/c3_push_device_mock.py:68-75 | an opening handed out opens the door once, for its clamped duration |
| `TapRing.RingIsTheRule` | edge/c3_push_server.py:341-361 | over every run the set equals the ring, the ring is the last 5000 accepted keys, any 5001 consecutive accepted keys are distinct, and drains deliver accepted taps exactly once in order |
| `TapRing.ReplayExactly` | edge/c3_push_server.py:341-361 | whatever came before and whatever a body holds, replaying it at once adds nothing if and only if every key of it is among the last 5000 accepted |
| `TapRing.ReplayAddsNothing` | edge/c3_push_server.py:93-97 | which is so for every body of at most 5000 new keys |
| `TapRing.KeysTellTapsApart` | edge/c3_push_server.py:351 | no other tap of the panel has a tap's key if and only if neither its index nor its time nor its card holds the separator |
| `TapRing.TapRecordReadBack` | edge/c3_push_server.py:546-588 | the record a panel posts for a tap is read back with its card, time, index and verdict |
| `WireReadBack.EventReadBack` | edge/c3_push_server.py:546-588 | every event record reads back whole: none for nobody, else the card or the person, door, index, time, method and code, allowed exactly for the codes 0 to 4 |
| `WireReadBack.AttendanceReadBack` | edge/c3_push_server.py:370-388 | an attendance line of four columns or more reads back to its person, always allowed, at its time or else the clock, by the method of its fourth column |
| `WireReadBack.ShortAttendance` | edge/c3_push_server.py:371-376 | with two columns no method is known, with one there is no read |
| `WireReadBack.VerifyByNumber` | edge/c3_push_server.py:528-543 | a verify type is read by its number whatever zeros lead it; zeros alone name no method |
| `WireReadBack.AttendanceKeysExactly` | edge/c3_push_server.py:377 | the key of an attendance record is its own if and only if neither its time nor its person holds the separator |
| `WireReadBack.BodyLines` | edge/c3_push_server.py:370 | a body of lines that each end in a line break is cut into exactly these |
| `WireReadBack.BodyByLine` | edge/c3_push_server.py:368-373 | a body is read line by line: no line keeps another from being read |
| `WireReadBack.LineOffers` | edge/c3_push_server.py:371-388 | a line offers the read it holds, if any, under the panel, its index and time and its card, an attendance line under its time and person |
| `TapRing.EventBuffer.Remember` | edge/c3_push_server.py:352-357 | a key is new exactly when the ring does not hold it, and the oldest key makes room |
| `TapRing.EventBuffer.HandlePost` | edge/c3_push_server.py:341-393 | an rtlog or attlog body offers its readable lines to the ring in order |
| `TapRing.EventBuffer.DrainEvents` | edge/c3_push_server.py:230-234 | a drain hands out everything buffered and leaves nothing |
| `OutboxConservation.ExactlyOnePlace` | edge/offline_queue.py:62-106 | whatever the cloud answers, each event is exactly one of pending, quarantined or delivered, delivered at most once, quarantined only after exactly three rejections of it alone |
| `OutboxConservation.AlwaysSound` | edge/offline_queue.py:132-142 | the attempts on the books are the rejections the event met on its own; a rejected batch of two or more charges nobody |
| `OutboxProgress.DeliveredInOrder` | edge/offline_queue.py:71-106 | against a cloud that judges events, delivered events are always a prefix, in order, of the valid events that entered, and no valid event is ever charged |
| `OutboxOrder.TableInOrder` | edge/offline_queue.py:62-77 | over every run, even if the clock jumps: the table stands by age and then by entry, and every row is as old as the step that put it in |
| `OutboxOrder.CallSendsOldest` | edge/offline_queue.py:71-80 | a call first sends the oldest waiting events, as many as the batch allows, all of them for a negative batch; with none to send it changes nothing |
| `OutboxOrder.CallPosts` | edge/offline_queue.py:80-106 | all the requests of one call: the batch, and only if it is refused for good and holds several events each of them on its own, in order, up to the first transient failure |
| `OutboxProgress.LineIsWhatEntered` | edge/offline_queue.py:71-106 | delivered events followed by the valid ones still waiting are exactly the valid events that entered, at every moment |
| `OutboxDrain.BoundedDrain` | edge/offline_queue.py:71-106 | once transient failures stop, three calls per batch of what is pending leave nothing pending: every valid event that entered has been delivered, in order, and the quarantine holds exactly the invalid events that entered |
| `OutboxQuarantine.InvalidNeverLost` | edge/offline_queue.py:132-142 | at every moment of every run each invalid event that entered stands in the table, waiting with fewer than three rejections or quarantined with three |
| `OfflineQueue.OfflineQueue.EnqueueEvent` | edge/offline_queue.py:62-69 | a new id is inserted behind all rows created no later; a known id is ignored |
| `OfflineQueue.OfflineQueue.SyncBatch` | edge/offline_queue.py:71-106 | one call posts a batch, isolates it row by row if rejected, stops at a transient failure, and returns the number delivered |
| `OfflineQueue.OfflineQueue.PostRows` | edge/offline_queue.py:108-126 | one request with these rows and its recorded outcome |
| `OfflineQueue.OfflineQueue.PendingCount` | edge/offline_queue.py:144-146 | counts the waiting rows, zero exactly when none waits |
| `OfflineQueue.OfflineQueue.QuarantinedCount` | edge/offline_queue.py:148-152 | counts the quarantined rows, which are the rows that do not wait |
| `Roster.FindVehicleMeans` | edge/whitelist_sync.py:95-96 | a lookup succeeds exactly when some row's column holds the value |
| `Roster.FindCardMeans` | edge/whitelist_sync.py:117-120 | a card lookup returns the first row for the value, and none exactly when there is none |
| `LocalDecision.NormIgnores` | edge/whitelist_sync.py:88-90 | anything but ASCII letters and digits can be put into a plate anywhere without changing its normal form, and case does not matter |
| `LocalDecision.PlateDecision` | edge/gate_controller.py:61-67 | a plate is denied exactly if some blacklist row spells it so; else allowed exactly if a vehicle has its normal form or the first pass for it has begun and not run out; the match names the first such row |
| `LocalDecision.TagDecision` | edge/gate_controller.py:61-67 | a tag is denied exactly if listed in the column of its kind; else allowed exactly if a vehicle carries it or the first card for it has not run out; the match names the first such row |
| `LocalDecision.ClassifiedByFirst` | edge/whitelist_sync.py:144-161 | a card is booked under the first vehicle with that tag, else the first with that key, else the first card row, else under no unit |
| `RosterPush.BulkIsPermanent` | edge/whitelist_sync.py:175-186 | the bulk push names every permanent credential of the three queries once, in ascending order |
| `RosterPush.PushCardsToC3` | edge/whitelist_sync.py:163-204 | queues bulk, expiring cards and removals in this order under consecutive ids and returns the number provisioned; nothing if the panel is not connected |
| `PushWindows.PushCarriesExpiry` | edge/whitelist_sync.py:175-195 | for every card and record: the push writes it if and only if the card is permanent and the record unlimited, or the card is not permanent and some row for it expires later than now and exactly when the record ends |
| `PushWindows.WritesComeFirst` | edge/whitelist_sync.py:184-202 | a push starts with the permanent cards in ascending order, each without limit, and writes no card behind a deletion |
| `PushWindows.RecordSaysWindow` | edge/c3_push_server.py:469-477 | cut at its tabs, the line of a record says its card, its start, its end, its pin (the card if none is given) and its name (the pin if none is given) |
| `PushWindows.CountIsWritten` | edge/whitelist_sync.py:186-204 | the number a push returns is the number of cards it writes |
| `RosterPush.PushLeadsTo` | edge/whitelist_sync.py:184-202 | carried out in order, the requests turn any table into it plus permanent and still valid cards minus both blacklist columns |
| `RosterAgreement.RosterReachesPanel` | edge/whitelist_sync.py:163-204 | without loss, whatever polls, openings and acknowledgements interleave, once nothing is outstanding panel and mirror both hold that table |
| `RosterAgreement.PanelMatchesLocalCheck` | edge/gate_controller.py:61-67 | from an empty panel the pushed table admits exactly the tags the local check admits if and only if no valid card row is shadowed by an expired first row of its uid |
| `RosterAgreement.PanelDecidesLocally` | edge/gate_controller.py:61-67 | the panel at the end of such a run decides every tag as the gate would at the instant of the push |
| `RosterAgreement.UniqueUidsAreShadowFree` | edge/whitelist_sync.py:115-124 | one row per uid is enough for that agreement |
| `RosterAgreement.ProvisionedIsClassified` | edge/whitelist_sync.py:144-161 | every card the push provisions is resolved to a reader and a unit, as FASTag exactly if a vehicle carries it as such |
| `RosterAgreement.LossyPushExactly` | edge/whitelist_sync.py:184-202 | over a lossy link, with door openings in between and under any ids, full acknowledgement of a push guarantees the pushed table if and only if no blacklisted card is provisioned |
| `RosterAgreement.RequestUnderstood` | edge/c3_push_controller.py:222-227 | every request made of hash-like text is understood alike by server and panel, and only openings outrank data |
| `RosterAgreement.ReplyCarriesRequests` | edge/emulators/c3_push_device_mock.py:46-57 | a poll reply that carries requests, cut into lines, parsed and executed by the panel, has exactly their effect |
| `Normalizer.NormalizeSound` | services/anpr-service/normalizer.py:32-57 | a result is a valid plate, and one window of the cleaned text may have been that plate through the confusion tables at places of the right kind |
| `Normalizer.NormalizeComplete` | services/anpr-service/normalizer.py:32-112 | the answer is None exactly when no window of length 8 to 11 can be read as a plate |
| `Normalizer.NormalizePrefers` | services/anpr-service/normalizer.py:95-112 | a readable whole text wins; otherwise the shortest, then leftmost, readable window |
| `PlateSpelling.SeparatorsAreIgnored` | services/anpr-service/normalizer.py:34 | a character that is no ASCII letter or digit, put in or left out anywhere, changes no answer |
| `PlateSpelling.CaseIsIgnored` | services/anpr-service/normalizer.py:34 | nor does the case of a letter |
| `PlateSpelling.EverySpelling` | services/anpr-service/normalizer.py:32-42 | every spelling of a plate, with any spacing, punctuation and case, is normalized to it |
| `PlateSpelling.PlatesByShape` | services/anpr-service/normalizer.py:27-29 | a text is a plate if and only if it has one of six shapes of letters and digits, or the seventh with BH for its letters |
| `PlateSpelling.MayReadByTables` | services/anpr-service/normalizer.py:4-21 | a character may have been meant exactly if it was seen or the two tables pair it with what was seen |
| `Normalizer.PlatesUnchanged` | services/anpr-service/normalizer.py:38-42 | a clean plate is returned as it is |
| `Normalizer.NormalizeIdempotent` | services/anpr-service/normalizer.py:32-57 | normalizing twice is normalizing once |
| `Normalizer.RepairRecovers` | services/anpr-service/normalizer.py:60-92 | repair alone undoes a misreading exactly when the split tried first refuses the text |
| `Normalizer.RepairAloneRewrites` | services/anpr-service/normalizer.py:69-70 | the clean plates repair alone would rewrite, and normalization does not |
| `Normalizer.RecoveryExactly` | services/anpr-service/normalizer.py:32-57 | a misread standard plate is recovered if and only if it was not misread, or the text is no plate itself and the split tried first refuses it |
| `Normalizer.RecoveryAtUniqueLengths` | services/anpr-service/normalizer.py:4-21 | plates of 8 or 11 characters are recovered from every misreading |
| `PlateNoise.FoundExactly` | services/anpr-service/normalizer.py:50-55 | inside given noise a clean plate is found if and only if the whole text is no plate, no shorter window is, and the first readable window of its length is read as it |
| `PlateNoise.FoundInNoiseExactly` | services/anpr-service/normalizer.py:95-112 | there is noise inside which a clean plate is found if and only if no shorter part of it can be read as a plate |
| `PlateNoise.FourDigitsAreLost` | services/anpr-service/normalizer.py:102-103 | a clean plate with four digits inside any noise is always answered with another plate |
| `Normalizer.MergeFindsFirst` | services/anpr-service/normalizer.py:115-153 | merging returns the plate of the first readable block, pair, triple or concatenation, and None exactly when none is readable |
| `PlateSpelling.MergeReadsRuns` | services/anpr-service/normalizer.py:115-153 | the answer is the plate of the first readable run of blocks, shorter runs of up to three neighbours first, then leftmost, all blocks last; none exactly if no run can be read |
| `TimedDedup.PurgeOld` | edge/gate_controller.py:176-178 | the purge loop removes exactly the entries older than the given age |
| `TimedDedup.PurgeUnseen` | edge/gate_controller.py:171-178 | as long as entries live for the window, the table decides as a rule that never forgets |
| `TimedDedup.Spaced` | edge/gate_controller.py:171-178 | two accepted offers of one key lie at least the window apart |
| `TimedDedup.PurgeUnseenExactly` | edge/uhf_usb_reader.py:113-120 | purging is unobservable over all runs if and only if entries live for the window or the window is empty |
| `GateCommands.CommandGuard.OnCommand` | edge/gate_controller.py:428-456 | expired and repeated commands are refused without a trace, others recorded, with the status their action earns |
| `GateCommands.StatusExactly` | edge/gate_controller.py:441-456 | every action earns exactly its own status, and an unknown one none |
| `GateCommands.ForgettingIsUnseen` | edge/gate_controller.py:436-440 | a command acts exactly when it is not expired and its id has not acted within the last minute; forgetting older ids changes no decision |
| `GateCommands.MinuteApart` | edge/gate_controller.py:437-440 | two actions on one id lie at least a minute apart |
| `GateCommands.StampedActsOnce` | services/gate-command-service/src/mqtt-publisher.js:64-77 | a command stamped with a life below a minute acts at most once over any redelivery |
| `GateCommands.OnceExactly` | services/gate-command-service/src/mqtt-publisher.js:6 | over all runs this holds if and only if the life is below a minute, as the default is |
| `Correlation.GateController.ProcessC3Event` | edge/gate_controller.py:152-216 | alarms are always audited; a read inside the dedup window changes nothing; otherwise it is recorded and audited or left pending |
| `Correlation.GateController.HandleUsbFastag` | edge/gate_controller.py:101-149 | a USB tag is refused if blacklisted, else admitted if cloud or local check allows, with a truthful audit record |
| `Correlation.GateController.HandleAnprDetection` | edge/gate_controller.py:308-411 | one plate: the new pending table, audit record, pairing and barrier |
| `Correlation.GateController.HandleAnprEvent` | edge/gate_controller.py:414-425 | an exit gate only audits a plate, an entry gate correlates it |
| `AuditTruth.OneTruthfulTag` | edge/gate_controller.py:101-149 | a short or repeated USB frame changes nothing; any other writes exactly one truthful record and pairs nothing, and the barrier opens if and only if the tag is not listed, the cloud or the local tables let it in, and it can move |
| `AuditTruth.OneTruthfulRead` | edge/gate_controller.py:152-216 | a read at the panel never opens or pairs; a repeat changes nothing; else it is noted, older notes are kept exactly thirty seconds, and it is audited as the panel decided, or waits if a card was refused |
| `AuditTruth.OneTruthfulPlate` | edge/gate_controller.py:308-411 | a plate is audited once; the barrier opens if and only if it is not listed, the cloud or the local tables let it in, and it can move; the outcome is Granted, Denied or Review accordingly |
| `AuditTruth.LoneTagSettled` | edge/gate_controller.py:316-389 | a tag that waits alone is used up by the plate whatever is decided, and bonded to it if and only if the gate is online and the plate let in as a resident's |
| `AuditTruth.OtherTagsStay` | edge/gate_controller.py:319-339 | with no tag waiting, or with several, all stay and none is bonded |
| `AuditTruth.OfflineBarrier` | edge/gate_controller.py:391-405 | offline the barrier opens if and only if the rows of the local tables let the plate in and it can move |
| `AuditTruth.OnlyAudited` | edge/gate_controller.py:414-425 | a plate at the exit, and an alarm anywhere, is audited once and changes nothing else |
| `CorrelationRuns.OneTruthfulAudit` | edge/gate_controller.py:329-411 | each plate writes exactly one audit record, which tells the truth about admission, barrier, pairing and ambiguity; the barrier opens exactly when the plate is admitted and can move |
| `CorrelationRuns.BlacklistedIsRefused` | edge/gate_controller.py:329-339 | a plate listed literally never opens and never pairs |
| `CorrelationRuns.AmbiguityPairsNone` | edge/gate_controller.py:320-326 | two or more candidates leave all tags pending and pair none, and an admitted plate still opens |
| `CorrelationRuns.PendingTagOverrules` | edge/gate_controller.py:341-345 | the same plate with and without tags pending: they turn a refusal into an admission if and only if the cloud answers, does not allow, and the local tables do, and never the reverse; the barrier moves accordingly |
| `CorrelationRuns.BlacklistBindsExactly` | edge/whitelist_sync.py:128-136 | whatever the tables, a plate blacklisted in normal form is refused if and only if it is spelled in normal form |
| `CorrelationRuns.ReceivedPlatesAreBound` | edge/anpr_receiver.py:25-27 | every plate the receiver hands over is spelled so |
| `CorrelationRuns.ReadsPairOnce` | edge/gate_controller.py:353-376 | over every run, reads used for pairings of one tag lie at least two seconds apart: no denied read is used twice |
| `CorrelationRuns.PairJustified` | edge/gate_controller.py:312-373 | every pairing of every run has an earlier denied read of that tag inside the window, no other tag pending there, an online gate and an admitted plate, neither blacklisted nor a visitor's |
| `CorrelationRuns.ForgettingIsUnseen` | edge/gate_controller.py:213-216 | with a window of at most thirty seconds the candidates are exactly the tags whose denied read waits inside it by a rule on the events alone, which keeps no table and forgets nothing |
| `CorrelationRuns.ForgettingExactly` | edge/gate_controller.py:213-216 | over all runs, tags and times this holds if and only if the window is at most thirty seconds |
| `UsbReader.UHFUsbReader.OnKey` | edge/uhf_usb_reader.py:84-111 | one keystroke: the new buffer, and the tag the callback is given, if any |
| `UsbReader.UHFUsbReader.Emit` | edge/uhf_usb_reader.py:113-125 | a tag seen within the debounce is dropped, others are recorded and passed on |
| `UsbReader.BufferIsBurst` | edge/uhf_usb_reader.py:99-111 | after any trace the buffer holds exactly the maximal burst of hex keys that ends it |
| `UsbReader.FramesExactly` | edge/uhf_usb_reader.py:90-94 | a frame is emitted exactly at an Enter whose maximal preceding burst has an accepted length, and it is that burst |
| `UsbReader.HandTypingExactly` | edge/uhf_usb_reader.py:41-54 | input whose hex keys are all further apart than a burst emits nothing, if and only if lengths 0 and 1 are not accepted |
| `UsbReader.CalledByRule` | edge/uhf_usb_reader.py:113-120 | with a debounce of at most a minute a frame reaches the callback exactly when its tag has not reached it within the debounce |
| `UsbReader.DebounceExactly` | edge/uhf_usb_reader.py:113-120 | callbacks for one tag are always the debounce apart if and only if the debounce does not exceed a minute |

## Left out

- HTTP servers, sockets, threads, the MQTT client, sqlite and the keyboard hook: each lock-protected section or request is one atomic step, tables are sequences of rows, and the cloud's answers are parameters.
- One panel per server: the model has no map from serial numbers to devices, no registration handshake and no request for a device it has not seen.
- Clock: one reading per handler, although the code reads it again before stamping hand-outs, pending reads and audit records.
- Text: upper case, decimal and hexadecimal parsing cover ASCII; underscores, signs and other digits that Python's `int` accepts are not modelled, and events without a time field take the clock's text as a parameter.
- PushController.C3PushController.SyncCards: one step at one instant; `_drain` and the pause between chunks, in which the panel polls, are not modelled there, but `RosterAgreement.RosterReachesPanel` allows any polls between the commands.
- PushController.C3PushController.OpenDoor: `open_duration` is an integer already; `hold_open`, `restore_door` and the time-zone, holiday and first-card commands are left out.
- CommandQueue.EveryRunAccounted: an acknowledgement does not remove a copy that is queued again, as in the code, so queued and acknowledged may overlap.
- Liveness.BoundedCompletion: bounds polls, not seconds; the age limit of a command is tested only when reaping, as in the code.
- MockPanel.UserLineUnderstood: card and pin are single words, and the card holds no `&`, which would end its field of the acknowledgement; the controller passes no pin, and the card then stands in for it.
- MockPanel.DeleteLineUnderstood: the card is a single word and holds no `&`.
- PanelLink.LosslessAgreement: lines travel whole on the link; `Wire.PollReplyRoundTrip` says which do, and those of clean roster requests do (`RosterAgreement.RequestSendable`).
- PriorityOrder.LosslessExactly: priorities are left to the lines, as the controller leaves them; the server's mirror is not compared there.
- LossyProgress.FewLossesAreMadeGood: the age limit is a condition on the run; the panel and the link may take any time inside it.
- MockPanel.C3PushDeviceMock.Execute: models the simulated panel; panel-side expiry of validity windows is not modelled.
- TapRing.ReplayAddsNothing: covers bodies of new keys only, since old keys are not refreshed and can be evicted; `TapRing.ReplayExactly` has no such limit.
- TapRing.EventBuffer.HandlePost: rtstate telemetry is reduced to the alarm it raises; display buffers and uploads of other tables are left out.
- OutboxConservation.ExactlyOnePlace: event ids are not reused after delivery; the code mints them at random when the caller gives none.
- OfflineQueue.OfflineQueue.EnqueueEvent: payloads are opaque, so default fields and time formatting are left out; `sync` is one step, with no insertion between its requests.
- Roster.FindCardMeans: rows are found in table order, which is what the lookup without an order returns.
- RosterAgreement.RosterReachesPanel: card values are hash-like text without white space, separators or a capital L, and expiry times are rendered as dates.
- Correlation.GateController.HandleAnprDetection: snapshot and removal of pending tags are one step; `_try_auto_pair` is recorded as a request, and the push of the newly paired card is left out.
- Correlation.GateController.HandleUsbFastag: the hash of a tag is a parameter, and the tag arrives stripped and in upper case.
- GateCommands.CommandGuard.OnCommand: JSON decoding, the acknowledgement topic and offline publishing are left out; a malformed payload changes nothing.
- `sync_from_cloud`, heartbeats, reconnection and alerting are left out: plumbing around the tables and flags modelled here.
- Camera and OCR code, `edge/c3_controller.py`, web and mobile applications, deployment stacks and demo traffic are not part of this model.
