# Verification of the fab simulator, its wire formats and the outcome-file pipeline

This project models, in Dafny, five connected parts of the repository and proves what they promise.

* **The job protocol of the simulator** (`Fab`, `Interleaving`, `Protocol`, `Safety`, `Pairing`, `PairingLimits`, `Counters`,
  `RecipeBooks`, `Drift`, `Traces`, `Requests`, `GemProperties`, `GemAnswers`, `Host`, `HostExchange`, `Session`).
  Connections run on threads that share one state behind a mutex. Every critical section is one atomic step,
  `Interleaving.Next` takes any step of any connection, a thread may stop for good between any two steps and lose the
  last of what it made to send, and `Interleaving.Run` is any schedule. The theorems hold in every reachable state of every schedule. `GemEngine`,
  `Floor` and `Simulator` hold the same code as objects updated in place; each method is proved equal to the function
  the protocol theorems speak about.
* **SECS-II items, HSMS framing and CRC-32** (`Secs`, `SecsProperties`, `SecsCodec`, `Utf8`, `Hsms`, `HsmsChannel`,
  `Crc32`), in the code's own dialect, with the buffer and cursor code proved against a recursive specification.
* **JSON, reports and signatures** (`Json`, `JsonProperties`, `JsonNumbers`, `JsonSpelling`, `JsonCodec`, `Schema`, `Outcome`,
  `OutcomeProperties`, `WireForms`, `Signing`). Printing, parsing and rounding of doubles are parameters that keep
  the promises written down in `Json.Lawful`; the grammar of numbers is modelled in full.
* **SHA-256 and HMAC** (`Sha256`, `Sha256Example`, `Hmac`), in place, against FIPS 180-4 and RFC 2104.
* **Screening and its persisted history** (`Anomaly`, `ReportMetrics`, `Ledger`, `Intake`, `IntakeProperties`, `Screening`).

Where the code departs from its comments, or from what a caller would expect, the model follows the code and a theorem
says exactly when it matters:

* counts above 65535 are cut to 16 bits when items are written (`SecsProperties.RoundTripsExactlyWhenSized`), and streams
  from 128 on lose a bit (`Hsms.HeaderRoundTripsExactlyWhenStreamFits`);
* `element_size` gives 2 for F4 while the codec writes 4 bytes; the model has the codec's width;
* `lot_of_via` ignores the job it is asked about (`Pairing.LaunchPairsExactly`, `PairingLimits.SecondJobMovesFirstLot`);
* an unknown recipe discards the alarm and the event already made, which still use up identifiers (`Fab.Refuse`);
* a second START under constants out of range aborts a job whose runner goes on moving wafers; the wafer invariant and
  the pairing survive this;
* `RecipeStore::add` replaces a recipe before reporting the duplicate (`Floor.RecipeStore.Add`);
* an infinite or NaN number is printed as text that is not JSON, so a ledger holding one cannot be loaded any more
  (`Ledger.LedgerSurvivesExactlyWhenFinite`);
* a report that is read and then rejected enters the ledger's history and not the detector's
  (`IntakeProperties.HistoriesAgreeExactlyWhenClean`);
* `unhex` takes a plus sign as the first character of a pair (`Hmac.HexByte`).

Run `dafny verify dfyconfig.toml` to check everything.

## Model

| member | source | states |
|---|---|---|
| Safety.EveryReachableStateIsSafe | crates/tpt-fab/src/sim.rs:445-572 | in every schedule of connections, stagings, messages, backend answers and stops: no job passes the started check twice; jobs at rest are Queued, Executing, Completed or Aborted; no wafer belongs to two jobs or twice to one; each job's wafers are a prefix out of the tool, at most one in the chamber and the rest in their carrier, and all out once the job is Completed |
| Safety.OneRunnerPerJob | crates/tpt-fab/src/sim.rs:510-517 | at a reachable state, two runners past the started check for one job are the same runner |
| Safety.JobsOnlyMoveOn | crates/tpt-fab/src/gem300.rs:268-306 | over any further steps jobs and their lists are never lost, states only move on, and a Completed or Aborted job stays exactly as it is |
| Protocol.NextSound | crates/tpt-fab/src/sim.rs:439-611 | one step of any connection keeps the whole invariant on jobs, runners and wafers |
| Protocol.StageEffect | crates/tpt-fab/src/sim.rs:201-226 | staging, even when it fails part-way, leaves every existing job and wafer alone and adds at most one queued job with fresh distinct wafers |
| Protocol.StartingStep | crates/tpt-fab/src/sim.rs:445-505 | phase 1 moves only its own job, only by a permitted move, and waits for the started check only on a job it decided about |
| Protocol.CheckingSound | crates/tpt-fab/src/sim.rs:510-517 | passing the started check keeps the invariant: the job was not passed before |
| Protocol.WaferStepSound | crates/tpt-fab/src/sim.rs:525-572 | a wafer move by one runner keeps every other job's wafers where they were and its own in order |
| FabEffects.PhaseOneEffect | crates/tpt-fab/src/sim.rs:445-508 | phase 1 launches exactly a queued, registered job that may run and sends what it made; aborts exactly a live one that may not (when the alarm is defined), sending the two messages it made if the recipe is known and none if not; and otherwise changes no job and no lot and sends nothing |
| FabEffects.PhaseThreeEffect | crates/tpt-fab/src/sim.rs:574-611 | phase 3 finishes exactly a job whose move is legal, and otherwise leaves the whole state untouched |
| FabEffects.LaunchMoves | crates/tpt-fab/src/sim.rs:486-493 | the three moves of phase 1 succeed together, with three reports numbered one after another, or change nothing |
| FabEffects.RegisterWafersSucceeds | crates/tpt-fab/src/sim.rs:209-219 | registering a list succeeds if and only if it has no repeats and every name was free, and then every wafer is in its carrier with its lot |
| FabEffects.RegisterWafersFrame | crates/tpt-fab/src/gem300.rs:119-130 | registration, successful or not, touches only names that were free |
| FabEffects.ServeFloor | crates/tpt-fab/src/sim.rs:353-387 | a host message never touches a job, a lot, a wafer or the registry |
| Requests.OnlyRequestedJobsBegin | crates/tpt-fab/src/sim.rs:362-394 | in every schedule a job has left the queue only if some host asked for it by name |
| Requests.ServeStartsExactly | crates/tpt-fab/src/sim.rs:362-372 | a message starts a job exactly when it is an S2F41 START, in any case, whose first PJID is text |
| Pairing.JobsAndLotsAgree | crates/tpt-fab/src/sim.rs:478-502 | as long as at most one lot is unfinished and it has a wafer, every reachable state pairs Queued with InQueue, Executing with InProcessing, Completed with Completed, Aborted with OnHold |
| Pairing.EveryLotExplained | crates/tpt-fab/src/lot.rs:76-102 | in every schedule each lot's history is an unbroken chain of legal moves from Created to its present state, and each job has exactly one lot with its wafers |
| Pairing.LaunchPairsExactly | crates/tpt-fab/src/sim.rs:642-649 | starting a job moves its own lot if and only if that lot is the first unfinished one with a registered wafer |
| Pairing.FinishPairsExactly | crates/tpt-fab/src/sim.rs:587-594 | finishing a job moves its own lot if and only if that lot is the first unfinished one with a registered wafer |
| Pairing.NextKeepsPairs | crates/tpt-fab/src/sim.rs:613-620 | one step of any connection keeps jobs and lots paired, a second START that aborts a running job included |
| Pairing.RunKeepsBooks | crates/tpt-fab/src/sim.rs:201-226 | the books (unique lots, one owner each, carriers registered, histories explained) hold after any run, and the pairing with them |
| PairingLimits.SecondJobMovesFirstLot | crates/tpt-fab/src/sim.rs:642-649 | concrete run (a download, two staged lots, START for the second job): it takes the first job's lot into processing and leaves its own queued |
| PairingLimits.RefusedEmptyJobLeavesItsLot | crates/tpt-fab/src/sim.rs:613-620 | a refused job without wafers is aborted while its lot stays as it was |
| Gem300.MoveLotKeepsHistory | crates/tpt-fab/src/lot.rs:76-102 | a legal lot move extends an explained history by exactly that move |
| Counters.LotsProcessedCountsCompletedJobs | crates/tpt-fab/src/sim.rs:595-602 | in every schedule LOTS_PROCESSED is the number of Completed jobs, as a 32-bit counter |
| Counters.IdentifiersIncrease | crates/tpt-fab/src/gem.rs:205-246 | in every schedule the system bytes of messages the equipment starts, and the data ids of its events, strictly increase in creation order across all connections while fewer than 2^31 - 1 have been made |
| Counters.IssuedIncreases | crates/tpt-fab/src/gem.rs:312-315 | messages numbered one after another by the counter carry increasing identifiers |
| RecipeBooks.ProgramsAndRecipesAgree | crates/tpt-fab/src/sim.rs:398-419 | in every schedule program map and recipe store have the same keys; the stored program is the latest body; versions are the accepted uploads of the name, in order, numbered from 1, each checksum that of its body |
| RecipeBooks.VersionsNeverChange | crates/tpt-fab/src/recipe.rs:185-190 | once a version is in a chain no later step of any connection changes it |
| RecipeBooks.HandlePrograms | crates/tpt-fab/src/gem.rs:453-477 | a well-formed upload stores its program and queues exactly one recipe action; any other message does neither |
| Recipes.AddVersionKeepsChain | crates/tpt-fab/src/recipe.rs:185-190 | adding a version keeps numbering and checksums and leaves the chain before it as a prefix |
| Recipes.DetectDrift | crates/tpt-fab/src/recipe.rs:253-287 | the loop finds a status for every expected parameter; the worst is OutOfSpec exactly when the recipe may not run, and InSpec exactly when every finding is |
| Drift.DownloadedRecipeRunsExactlyInBand | crates/tpt-fab/src/sim.rs:464-479 | a downloaded recipe runs if and only if the temperature offset is within 6, the pressure offset within 8, and the time factor within 0.9 to 1.1, where a factor that is not positive or not a number counts as 1 |
| Drift.JobsRunExactlyInBand | crates/tpt-fab/src/sim.rs:623-639 | in every reachable state the same condition decides for every job whose recipe is known |
| GemProperties.ConstantsReadBack | crates/tpt-fab/src/gem.rs:373-398 | a constant set by S2F15 is read by S2F13 as the last value a well-formed pair gave it, every other one as before |
| GemProperties.DownloadReturnsLatestUpload | crates/tpt-fab/src/gem.rs:479-500 | in every reachable state S7F5 answers with the latest accepted upload, or empty text when there was none |
| GemProperties.EverythingIsListedInOrder | crates/tpt-fab/src/gem.rs:344-357 | a request for everything lists every value once in ascending order of identifiers |
| HostExchange.ReplyAnswersItsRequest | crates/tpt-fab/src/gem.rs:250-305 | every reply has its request's stream and system bytes and the next function; only odd functions are answered |
| Traces.AcceptedRun | crates/tpt-fab/src/sim.rs:486-610 | a run left alone whose plans are all accepted reports exactly 6001, 6001, 6002 for the job, 7002 for the lot, two 5001 per wafer in order with its locations, then 6003 and 7003, and ends Completed |
| Traces.RefusedRun | crates/tpt-fab/src/sim.rs:547-610 | a refusal at wafer k gives exactly the launch, two reports for each wafer before it, one for it, alarm 9002, 6004 and 7004, and ends Aborted with the lot OnHold |
| Traces.SameAnswersSameRun | crates/tpt-fab/src/sim.rs:537-560 | from any state and place, two backends that give the same answers to the plans the run asks about give the same messages, identifiers included, the same end state and the same place |
| Traces.AcceptingBackendsAgree | crates/tpt-fab/src/sim.rs:537-560 | any two backends that accept every plan give the same run from any state and place |
| Traces.ReachableJobRuns | crates/tpt-fab/src/sim.rs:439-611 | from any reachable state with at most one lot ever unfinished, a connection left alone after START with an accepting backend sends exactly that trace after what it had sent and finishes the job and its own lot |
| Traces.ReachableJobAborts | crates/tpt-fab/src/sim.rs:547-610 | from any such state, a refusal at wafer k gives exactly the abort trace after what had been sent, the job Aborted and its own lot OnHold |
| RecipeBooks.AlarmsStayDefined | crates/tpt-fab/src/sim.rs:166-167 | in every schedule exactly the two alarms defined at the start are defined |
| Traces.AloneIsARun | crates/tpt-fab/src/sim.rs:439-611 | running alone is one of the schedules |
| Traces.MoveNoticesAre5001 | crates/tpt-fab/src/gem300.rs:134-152 | the wafer reports are two per wafer, all 5001, naming the wafers in list order |
| HostExchange.RequestGetsItsOwnReply | crates/tpt-fab/src/sim.rs:729-752 | whatever other connections do, a request whose system bytes no earlier request on its connection had (events may have had them, acknowledged or not) reads off the wire everything unread into the inbox, once and in order, and then the very reply the equipment made; everything it causes comes after that reply and none of it is a reply |
| HostExchange.ClientRequestGetsItsOwnReply | crates/tpt-fab/src/sim.rs:695-752 | the same for the next request of a client, whatever it requested, sent or acknowledged before, while fewer than 2^32 numbers are out |
| HostExchange.NextRequestIsFresh | crates/tpt-fab/src/sim.rs:695-704 | the number a client takes next belongs to no request of its that has arrived |
| HostExchange.OnlyEventsFollow | crates/tpt-fab/src/sim.rs:388-396 | while no request arrives on it and nothing is lost, a connection's output only grows by events and alarms |
| Host.RequestFindsReply | crates/tpt-fab/src/sim.rs:741-751 | a request returns the first message that answers it, queues those before it once and in order, and leaves every byte after it |
| Host.HostClient.Request | crates/tpt-fab/src/sim.rs:729-752 | the loop over the byte stream returns, queues and leaves exactly what the specification says, however the bytes are cut |
| Host.HostClient.NextEvent | crates/tpt-fab/src/sim.rs:756-775 | the inbox is emptied in order; what comes off the wire is acknowledged with its own system bytes, which takes no new number |
| Host.HostClient.Send | crates/tpt-fab/src/sim.rs:700-704 | one frame with a new number, and no reply awaited |
| Host.CountedGrows | crates/tpt-fab/src/sim.rs:695-698 | a frame with the next number keeps the numbering invariant of the client |
| Host.EventTakenForReplyExactly | crates/tpt-fab/src/sim.rs:747-749 | an event or alarm with a request's system bytes is taken for its reply exactly when the request's function is 10 or 0 |
| Session.ServeConnection | crates/tpt-fab/src/sim.rs:254-311 | the connection loop over the byte stream answers and hands over exactly what the session rules say, however the bytes are cut |
| Session.SelectThenSend | crates/tpt-fab/src/sim.rs:271-296 | a host that selects and then sends in-range messages is accepted and exactly those messages are handled, in order |
| Session.SelectThenSendBytes | crates/tpt-fab/src/sim.rs:254-311 | the same from the bytes on the wire |
| Session.UnselectedConnectionIsSilent | crates/tpt-fab/src/sim.rs:254-311 | in every schedule fed by what the session lets through, a connection that never selects runs no job and sends nothing |
| Session.NothingHandledUnselected | crates/tpt-fab/src/sim.rs:297-302 | without a select request nothing is ever handled |
| Session.AcceptedAtMostOnce | crates/tpt-fab/src/sim.rs:273-280 | a connection is accepted at most once |
| Simulator.FabState.RunProcessJob | crates/tpt-fab/src/sim.rs:439-611 | the runner, executed on the shared objects with nobody else moving, ends in the state and with the messages the interleaving semantics gives a runner left alone |
| Simulator.FabState.Prepare | crates/tpt-fab/src/sim.rs:445-505 | phase 1 on the shared objects equals its specification: new state, messages to send, messages made |
| Simulator.FabState.Conclude | crates/tpt-fab/src/sim.rs:574-605 | phase 3 on the shared objects equals its specification |
| Simulator.FabState.HandleData | crates/tpt-fab/src/sim.rs:353-387 | the critical section of a host message equals its specification, action by action |
| Simulator.FabState.StageLotAndJob | crates/tpt-fab/src/sim.rs:201-226 | staging on the shared objects equals its specification, the partial effects of a failure included |
| Simulator.FabState.Transfer | crates/tpt-fab/src/sim.rs:527-536 | a wafer move and its report equal their specification |
| Simulator.FabState.constructor | crates/tpt-fab/src/sim.rs:141-182 | binding sets up the initial state every run starts from |
| GemEngine.GemEquipment.HandleMessage | crates/tpt-fab/src/gem.rs:250-305 | the engine's fields and reply after a message are those of its specification |
| GemEngine.GemEquipment.NewEquipmentConstants | crates/tpt-fab/src/gem.rs:373-398 | the pair-by-pair loop stores, acknowledges and reports as specified |
| GemEngine.GemEquipment.MakeEventReport | crates/tpt-fab/src/gem.rs:225-246 | an event takes the present counter as data id and the next but one as system bytes |
| GemEngine.GemEquipment.MakeAlarm | crates/tpt-fab/src/gem.rs:205-222 | an alarm is recorded and reported, or nothing changes when it is not defined |
| Floor.ProcessJobManager.Transition | crates/tpt-fab/src/gem300.rs:268-306 | a job moves and reports exactly when it is registered, known and the move is legal; otherwise nothing changes |
| Floor.SubstrateManager.MoveSubstrate | crates/tpt-fab/src/gem300.rs:134-152 | one wafer's location is replaced and the report names where it came from |
| Floor.SubstrateManager.Register | crates/tpt-fab/src/gem300.rs:119-130 | a wafer is registered exactly when its name was free |
| Floor.LotTracker.Transition | crates/tpt-fab/src/lot.rs:131-137 | the first lot with the identifier moves and records the move, or nothing changes |
| Floor.LotTracker.Register | crates/tpt-fab/src/lot.rs:123-129 | a lot is added exactly when no lot has its identifier |
| Floor.RecipeStore.Add | crates/tpt-fab/src/recipe.rs:224-230 | a duplicate is reported although the new recipe has already replaced the old |
| Floor.ObjectRegistry.Create | crates/tpt-fab/src/gem300.rs:49-56 | an object is created exactly when its identifier was free |
| SecsProperties.RoundTrip | crates/tpt-fab/src/secs.rs:144-183 | decoding an encoding followed by anything returns the item and stops at its end, for every tree with counts up to 65535 |
| SecsProperties.RoundTripsExactlyWhenSized | crates/tpt-fab/src/secs.rs:163-176 | an item comes back from its bytes if and only if no count in it exceeds 65535 |
| SecsProperties.StrictPrefixRejected | crates/tpt-fab/src/secs.rs:244-315 | every strict prefix of an encoding is rejected |
| SecsProperties.EncodingsSeparate | crates/tpt-fab/src/secs.rs:179-183 | encodings followed by anything determine the item and where it ends |
| SecsProperties.DecodedIsTyped | crates/tpt-fab/src/secs.rs:244-315 | on every byte string a decoded tree is well typed and has at most half as many nodes as bytes used |
| SecsProperties.ReencodeGrowth | crates/tpt-fab/src/secs.rs:220-315 | encoding a decoded tree again takes no more bytes than were read, plus at most four for each ill-formed part of a text; none on valid UTF-8 |
| SecsProperties.ReencodeIsStable | crates/tpt-fab/src/secs.rs:163-183 | encoding what was decoded and decoding it again gives the same tree |
| SecsProperties.DecodeLocal | crates/tpt-fab/src/secs.rs:244-315 | a decode looks at no byte beyond those it reports as used |
| SecsCodec.Cursor.DecodeItem | crates/tpt-fab/src/secs.rs:244-315 | the cursor decoder ends in bounds with the item and position of the specification, or fails exactly when it does |
| SecsCodec.Cursor.ReadLength | crates/tpt-fab/src/secs.rs:220-242 | the length reader equals its specification |
| SecsCodec.EncodeInto | crates/tpt-fab/src/secs.rs:163-176 | the buffer grows by exactly the item's encoding |
| SecsCodec.WriteData | crates/tpt-fab/src/secs.rs:144-161 | the buffer grows by exactly the item's payload |
| Utf8.LossyOfEncode | crates/tpt-fab/src/secs.rs:271 | lossy decoding gives every string back from its UTF-8 bytes |
| Utf8.LossyGrowth | crates/tpt-fab/src/secs.rs:271 | lossy decoding lengthens bytes by at most two for each ill-formed part |
| Utf8.WellFormedExactly | crates/tpt-fab-aggregate/src/file.rs:64 | bytes hold no ill-formed part exactly when they are the bytes of their lossy decoding |
| Hsms.HeaderRoundTripsExactlyWhenStreamFits | crates/tpt-fab/src/secs.rs:337-362 | a header survives the wire if and only if its stream is below 128 |
| Hsms.ReceiveOfFrame | crates/tpt-fab/src/hsms.rs:229-253 | the first frame of a stream is read back exactly, whatever follows |
| Hsms.DecodeOfFrame | crates/tpt-fab/src/hsms.rs:239-252 | decoding an encoded frame gives it back |
| Hsms.StreamRoundTrip | crates/tpt-fab/src/hsms.rs:277-294 | frames sent one after another are received as exactly those frames in order |
| Hsms.CutStream | crates/tpt-fab/src/hsms.rs:277-294 | however a connection dies, what was received is exactly the frames that arrived whole |
| Hsms.MessageRoundTrip | crates/tpt-fab/src/secs.rs:427-435 | a message with an in-range item, or none, is rebuilt from its frame |
| Hsms.MessageStreamRoundTrip | crates/tpt-fab/src/sim.rs:322-338 | codec, framing and stream together carry every in-range message unchanged |
| HsmsChannel.ReadExact | crates/tpt-fab/src/hsms.rs:296-313 | the buffer is filled with the next bytes however they are cut, exactly when there are enough |
| HsmsChannel.Channel.Recv | crates/tpt-fab/src/hsms.rs:277-294 | receiving depends only on the bytes: the frame, the end of the stream, or an unreasonable length |
| Crc32.Compute | crates/tpt-fab/src/secs.rs:439-449 | the bitwise loop equals the specification |
| Crc32.BitStepLinear | crates/tpt-fab/src/secs.rs:443-446 | one bit step is linear over exclusive or |
| Crc32.BitStepsInjective | crates/tpt-fab/src/secs.rs:443-446 | bit steps lose nothing: equal registers after them were equal before |
| Crc32.WindowsSeparate | crates/tpt-fab/src/secs.rs:439-449 | from one register, two windows of four bytes lead to the same register if and only if they are equal |
| Crc32.BurstDetected | crates/tpt-fab/src/secs.rs:439-449 | two equal-length bodies that differ only within four consecutive bytes have different checksums, and only then |
| JsonProperties.ParsesBackExactlyWhenFinite | crates/tpt-fab-aggregate/src/json.rs:62-117 | a value survives printing and parsing if and only if all its numbers are finite; any other prints as text that does not parse |
| JsonProperties.ValueRoundTrip | crates/tpt-fab-aggregate/src/json.rs:146-290 | every value with finite numbers is read back from its text, nothing more and nothing less, before anything that cannot extend a number |
| JsonProperties.StringRoundTrip | crates/tpt-fab-aggregate/src/json.rs:125-139 | every string, control characters included, is read back from its quoted form |
| JsonProperties.NumberRoundTrip | crates/tpt-fab-aggregate/src/json.rs:198-211 | the greedy scanner takes exactly the printed number when no number character follows |
| JsonProperties.ValueRejected | crates/tpt-fab-aggregate/src/json.rs:72-78 | a value with an infinity or NaN anywhere prints as text that is rejected |
| JsonProperties.PrintInjective | crates/tpt-fab-aggregate/src/json.rs:62-103 | different values have different text |
| JsonNumbers.LawsCanBeKept | crates/tpt-fab-aggregate/src/json.rs:207-210 | the promises assumed of number printing and parsing are consistent, with doubles that are not integers |
| JsonCodec.Output.Write | crates/tpt-fab-aggregate/src/json.rs:68-103 | the growing string ends with exactly the value's text |
| JsonCodec.Parser.Value | crates/tpt-fab-aggregate/src/json.rs:173-187 | the advancing parser returns the value and position of the specification, or fails exactly when it does |
| JsonCodec.Parser.Chars | crates/tpt-fab-aggregate/src/json.rs:213-246 | the string loop, escapes included, equals its specification |
| JsonCodec.Parser.Number | crates/tpt-fab-aggregate/src/json.rs:198-211 | the number scanner equals its specification |
| JsonCodec.ParseDocument | crates/tpt-fab-aggregate/src/json.rs:106-117 | a document is parsed as specified, trailing characters refused |
| OutcomeProperties.ReportRoundTripsExactlyWhenStorable | crates/tpt-fab-aggregate/src/outcome.rs:235-428 | a written report is read back unchanged if and only if it says the current version, no identifier is empty, all numbers are finite, and its counts survive as doubles |
| OutcomeProperties.OrdinaryReportsAreStorable | crates/tpt-fab-aggregate/src/outcome.rs:369-372 | every finite report of the current version with identifiers and counts up to 2^53 is such a report |
| OutcomeProperties.ReadOfWritten | crates/tpt-fab-aggregate/src/outcome.rs:322-428 | what reading makes of a written report, the rounding of its counts and empty identifiers included |
| OutcomeProperties.FieldsFound | crates/tpt-fab-aggregate/src/outcome.rs:235-313 | each field of a written report is found under its own name, the signature only when there is one |
| Outcome.TrackRoundTrip | crates/tpt-fab-aggregate/src/outcome.rs:76-96 | every track is read back from its wire name |
| Outcome.ConsentRoundTrip | crates/tpt-fab-aggregate/src/outcome.rs:175-191 | every consent scope is read back from its wire name |
| Outcome.Load | crates/tpt-fab-aggregate/src/outcome.rs:322-428 | the reading loops equal the specification |
| Schema.VersionRoundTrip | crates/tpt-fab-aggregate/src/schema.rs:29-48 | every version is read back from its text |
| Schema.EnsureCurrentSettles | crates/tpt-fab-aggregate/src/schema.rs:56-70 | whatever passes says the current version and passes again unchanged |
| Schema.MigrateInPlace | crates/tpt-fab-aggregate/src/schema.rs:75-97 | the in-place migration touches the first notes field and every version field, as specified |
| Schema.MigrateNotesAt | crates/tpt-fab-aggregate/src/schema.rs:77-88 | only the first process_notes is changed, and only if it is text |
| Signing.SigningBytesSeparateReports | crates/tpt-fab-aggregate/src/signature.rs:15-21 | storable reports have the same signing bytes if and only if they agree in every field but the signature |
| Signing.SignedReportVerifies | crates/tpt-fab-aggregate/src/signature.rs:25-76 | sign, write, read, verify: the report comes back as signed and verifies under every policy with the same key |
| Signing.ValidExactly | crates/tpt-fab-aggregate/src/signature.rs:45-76 | a report is valid exactly when it is unsigned and that is accepted, or its key is known and its code is the code of its contents |
| Signing.SharedSignatureMeansSameContents | crates/tpt-fab-aggregate/src/signature.rs:45-76 | two storable reports valid under one signature agree in every field, or the code collides on their two texts |
| Signing.SigningTextOmitsSignature | crates/tpt-fab-aggregate/src/signature.rs:15-21 | what is signed is the report as it would be written without a signature |
| Signing.ReportFile.Sign | crates/tpt-fab-aggregate/src/signature.rs:25-32 | signing changes only the signature |
| Sha256.Sha256 | crates/tpt-fab-aggregate/src/hash.rs:11-86 | the loops in place compute the SHA-256 of FIPS 180-4 for every input |
| Sha256.PadInto | crates/tpt-fab-aggregate/src/hash.rs:30-36 | the padding loop gives the padded message, with the fewest zero bytes, ending in the 64-bit length |
| Sha256.FillSchedule | crates/tpt-fab-aggregate/src/hash.rs:38-52 | the schedule array, filled from itself, is the message schedule |
| Sha256.CompressInPlace | crates/tpt-fab-aggregate/src/hash.rs:53-79 | the working-variable loop and the additions are one compression |
| Sha256.PaddingInjective | crates/tpt-fab-aggregate/src/hash.rs:30-36 | below 2^61 bytes different messages have different padded forms |
| Sha256.LengthWrapsExactly | crates/tpt-fab-aggregate/src/hash.rs:30 | the recorded length is the length exactly below 2^61 bytes |
| Hmac.HmacSha256 | crates/tpt-fab-aggregate/src/hash.rs:89-111 | the pads combined in place give the two-pass code of RFC 2104 for short and long keys |
| Hmac.KeysActThroughTheirBlock | crates/tpt-fab-aggregate/src/hash.rs:92-96 | a long key acts as its hash, a short one as itself with zeros after it |
| Hmac.UnhexOfHex | crates/tpt-fab-aggregate/src/hash.rs:114-129 | hexadecimal text is read back as its bytes |
| Anomaly.MajorityHoldsMedian | crates/tpt-fab-aggregate/src/anomaly.rs:41-58 | if more than half of the values lie in a range, so does the median, whatever the others are |
| Anomaly.MajorityBoundsMad | crates/tpt-fab-aggregate/src/anomaly.rs:61-69 | then the median absolute deviation is between zero and the width of the range |
| Anomaly.OutliersAreFlagged | crates/tpt-fab-aggregate/src/anomaly.rs:76-90 | then every value further outside than the scaled threshold times the width is flagged, a constant history and infinite values included |
| Anomaly.FlaggedExactly | crates/tpt-fab-aggregate/src/anomaly.rs:136-153 | with enough history, a finite value is flagged exactly when the threshold is negative or it is further from the median than the threshold times the scaled deviation |
| Anomaly.SortIsSorted | crates/tpt-fab-aggregate/src/anomaly.rs:54-58 | the sorted copy is sorted and holds the same values |
| Anomaly.SortedUnique | crates/tpt-fab-aggregate/src/anomaly.rs:54-58 | there is only one sorted arrangement |
| Anomaly.AnomalyDetector.Screen | crates/tpt-fab-aggregate/src/anomaly.rs:130-165 | a report is judged by the history before it and recorded either way |
| Anomaly.AnomalyDetector.WithHistory | crates/tpt-fab-aggregate/src/anomaly.rs:179-195 | the seeding loops observe every persisted value in order |
| Anomaly.ReplayRestores | crates/tpt-fab-aggregate/src/anomaly.rs:179-195 | a persisted history, replayed, is the history |
| ReportMetrics.MetricsTyped | crates/tpt-fab-aggregate/src/anomaly.rs:206-229 | every metric of a report is a value a double can have |
| IntakeProperties.SplitRunsAgree | crates/tpt-fab-intake/src/lib.rs:211-251 | deliveries of clean files may be split into runs at any points with the same decisions, history and ledger as one run |
| IntakeProperties.HistoriesAgreeExactlyWhenClean | crates/tpt-fab-intake/src/lib.rs:240-246 | detector and ledger agree after a run if and only if no file was read and then rejected, and no metric overflowed |
| IntakeProperties.RestartAfterRun | crates/tpt-fab-intake/src/lib.rs:125-134 | a restart after a run brings back the very same state if and only if every file of the run was clean |
| IntakeProperties.RestartIsExactWhenInStep | crates/tpt-fab-intake/src/ledger.rs:45-82 | a restart brings back the very same state if and only if the ledger's history is the detector's |
| IntakeProperties.RejectedReportSeparatesHistories | crates/tpt-fab-intake/src/lib.rs:174-182 | concrete report: refused for its consent, it enters the ledger's history and not the detector's |
| IntakeProperties.SignedDeliveryIsScreened | crates/tpt-fab-intake/src/lib.rs:140-206 | a signed, storable, sane report that may be processed is never rejected, arrives as signed, and is flagged exactly when screening finds something |
| IntakeProperties.VerifiedReadIsRead | crates/tpt-fab-aggregate/src/file.rs:63-70 | the reader takes exactly what the text says, if the signature is good; its second version check changes nothing |
| Ledger.LedgerSurvivesExactlyWhenFinite | crates/tpt-fab-intake/src/ledger.rs:106-132 | a saved ledger is loaded as it was if and only if its history is finite; with one value that is not, the file cannot be loaded at all |
| Ledger.Load | crates/tpt-fab-intake/src/ledger.rs:53-81 | the loading loop equals its specification |
| Ledger.IntakeLedger.Observe | crates/tpt-fab-intake/src/ledger.rs:90-103 | every metric is appended, finite or not |
| Intake.IntakeQueue.ProcessFile | crates/tpt-fab-intake/src/lib.rs:140-206 | one file is decided, and history extended, as specified |
| Intake.IntakeQueue.ProcessFiles | crates/tpt-fab-intake/src/lib.rs:225-251 | a directory run decides as specified, and shelves every file in the folder of its decision without losing or overwriting any |
| Intake.Shelves.CollisionSafe | crates/tpt-fab-intake/src/lib.rs:259-268 | the loop ends, at the first candidate name that is free |
| IntakeProperties.FreshQueueIsInStep | crates/tpt-fab-intake/src/lib.rs:117-122 | a first run starts with detector and ledger in step |
| JsonCodec.Serialize | crates/tpt-fab-aggregate/src/json.rs:62-66 | serializing into a fresh string gives the value's text |
| Floor.ObjectRegistry.Destroy | crates/tpt-fab/src/gem300.rs:59-64 | an object is removed exactly when it is there |
| Intake.TakenAreFiles | crates/tpt-fab-intake/src/lib.rs:259-268 | candidate names are distinct, so there is always a free one |
| Traces.ReachableJobRefused | crates/tpt-fab/src/sim.rs:453-508 | from any reachable state, a connection left alone after START for a live job that may not run sends exactly alarm 9001 and 6004 after what it had sent when the recipe is known and the constants are out of their bands, nothing when the recipe is unknown; the job ends Aborted and the connection serves on |
| Traces.DriftRefusal | crates/tpt-fab/src/sim.rs:479-508 | the same from any state with a live, registered job |
| Traces.StartImpossible | crates/tpt-fab/src/sim.rs:445-452 | any other job that cannot be launched closes the connection without a message, jobs and lots unchanged |
| GemAnswers.StatusAnswered | crates/tpt-fab/src/gem.rs:344-357 | in every reachable state S1F3 reads each variable it asks for: 2004 is the number of Completed jobs mod 2^32, 2002 and 2003 the names of the control and communication states; a placeholder for anything else |
| GemAnswers.AllStatusListed | crates/tpt-fab/src/gem.rs:344-357 | asked for nothing in particular, S1F3 reads all four variables in ascending order |
| GemAnswers.SwitchedByMessages | crates/tpt-fab/src/gem.rs:168-182 | in every reachable state S1F15 leaves the equipment HostOffline and not communicating, S1F17 leaves it OnlineRemote, S1F13 communicating, and every other message leaves both states alone |
| GemAnswers.ConstantsReadBackLater | crates/tpt-fab/src/gem.rs:359-398 | what a served S2F15 sets, S2F13 reads after any further run of all connections without another S2F15: the last well-formed pair for the constant, or its value before |
| GemAnswers.SettingsAcknowledged | crates/tpt-fab/src/gem.rs:373-398 | S2F15 is acknowledged pair by pair, 0 exactly for a pair that sets a constant |
| GemAnswers.ProgramsAnswered | crates/tpt-fab/src/gem.rs:438-500 | in every reachable state S7F5 reads the latest accepted upload of a name, S7F1 is told 5 exactly when there was one, and S7F3 is acknowledged with 0 exactly when it is one |
| GemAnswers.OtherReplies | crates/tpt-fab/src/gem.rs:317-342 | identity, acknowledgement of going off and on line, of the clock and the terminal, and of a command: 0 exactly when it names one |
| GemAnswers.RepliesExactly | crates/tpt-fab/src/gem.rs:250-305 | exactly the thirteen data messages are answered |
| GemAnswers.ReplyHeader | crates/tpt-fab/src/gem.rs:250-305 | every reply has the equipment's device, the request's stream and system bytes and the next function, and asks for no reply |
| GemAnswers.ClockText | crates/tpt-fab/src/gem.rs:284-296 | the clock text after any message |
| GemAnswers.TerminalLines | crates/tpt-fab/src/gem.rs:502-525 | the terminal's lines after any message |
| GemAnswers.EventMessage | crates/tpt-fab/src/gem.rs:225-246 | an event report as it goes out, data id, event number, names and values |
| GemAnswers.MoveMessage | crates/tpt-fab/src/sim.rs:527-536 | a wafer's move as it goes out, both places by name |
| GemAnswers.PlacesByName | crates/tpt-fab/src/sim.rs:527-536 | the places a wafer passes through, by name |
| GemAnswers.AlarmMessage | crates/tpt-fab/src/gem.rs:205-222 | an alarm as it goes out, and that it is recorded as set |
| Gem300.JobMoves | crates/tpt-fab/src/gem300.rs:268-306 | exactly these job moves are legal, with these events |
| Gem300.LotMoves | crates/tpt-fab/src/lot.rs:76-92 | exactly these lot moves are legal, with these events |
| Drift.ClassifiedExactly | crates/tpt-fab/src/recipe.rs:46-59 | a measurement is in specification up to the tolerance, marginal up to twice it, and out beyond; one that is not finite is out |
| Drift.FoundExactly | crates/tpt-fab/src/recipe.rs:253-287 | what each expected parameter is found to be, missing and unlike ones included |
| Session.SessionSoFar | crates/tpt-fab/src/sim.rs:254-311 | after any frames that do not end it, a connection has answered each select, link test and early data with the right frame and system bytes, in order, has handed over exactly the messages after its first select, and goes on from there |
| Session.SessionEnds | crates/tpt-fab/src/sim.rs:254-311 | a separate request, data that cannot be read, or a message that does not keep the connection is the last thing that matters |
| SecsProperties.NumberBytes | crates/tpt-fab/src/secs.rs:144-161 | byte i of the j-th number on the wire is the i-th digit of its two's complement to base 256, most significant first |
| SecsProperties.EncodedNumber | crates/tpt-fab/src/secs.rs:144-176 | an encoded number, byte by byte |
| SecsProperties.EncodedCount | crates/tpt-fab/src/secs.rs:163-176 | a count above 255 is written high byte first |
| SecsProperties.ReadCount | crates/tpt-fab/src/secs.rs:220-242 | a count of several bytes is their value, the first weighing most |
| SecsProperties.DecodedNumber | crates/tpt-fab/src/secs.rs:243-315 | the j-th number read is the value of its bytes, reduced to the range of its type |
| SecsProperties.FormatBytes | crates/tpt-fab/src/secs.rs:46-63 | the format byte every item opens with |
| Hsms.FrameLayout | crates/tpt-fab/src/hsms.rs:229-237 | every byte of a frame: length, device, stream with the reply bit, function, session type, system bytes, body |
| Hsms.HeaderRead | crates/tpt-fab/src/secs.rs:350-362 | what ten header bytes mean |
| Basics.BigEndianAt | crates/tpt-fab/src/secs.rs:155-159 | byte i of n is the digit of the value with n - 1 - i digits after it |
| Basics.FromBigEndianWeighs | crates/tpt-fab/src/secs.rs:232-240 | bytes read back as the sum of their weighed values |
| Utf8.CharBytes | crates/tpt-fab/src/secs.rs:148 | the bytes of a character, by the size of its number |
| Crc32.CheckValue | crates/tpt-fab/src/secs.rs:439-449 | the check value of the CRC |
| Floats.BitPatterns | crates/tpt-fab/src/sim.rs:623-639 | some doubles and floats, an infinity and a NaN, from their bits |
| Sha256.PadBytes | crates/tpt-fab-aggregate/src/hash.rs:30-36 | every byte of the padding, the bit length high byte first |
| Sha256Example.HashOfAbc | crates/tpt-fab-aggregate/src/hash.rs:11-86 | the known answer for "abc", proved through all 64 rounds |
| Hmac.MacOfPads | crates/tpt-fab-aggregate/src/hash.rs:89-111 | the code is two hashes behind the key block combined with 0x36 and with 0x5c, byte by byte |
| Hmac.HexAt | crates/tpt-fab-aggregate/src/hash.rs:114-117 | two digits a byte, the high one first |
| JsonNumbers.NumeralIsRead | crates/tpt-fab-aggregate/src/json.rs:198-211 | every decimal literal, with or without sign, point, fraction and exponent, denotes all its digits scaled by the exponent less the digits after the point |
| JsonNumbers.ReadExactlyNumerals | crates/tpt-fab-aggregate/src/json.rs:198-211 | exactly the decimal literals have a value |
| JsonNumbers.NumeralInText | crates/tpt-fab-aggregate/src/json.rs:198-211 | a literal in a JSON text is read as the double nearest to what it denotes |
| JsonSpelling.DocumentRead | crates/tpt-fab-aggregate/src/json.rs:106-290 | every way of writing a value, with any white space, escapes and numbers, at any nesting, is read as that value |
| JsonSpelling.AcceptedExactly | crates/tpt-fab-aggregate/src/json.rs:106-290 | a text is accepted if and only if it spells a value, and is read as the value it spells |
| JsonSpelling.PieceRead | crates/tpt-fab-aggregate/src/json.rs:213-246 | each escape, and each plain character, is read as the character it means |
| WireForms.ReadExactly | crates/tpt-fab-aggregate/src/outcome.rs:322-428 | a report is read exactly as its fields say, name by name: what must be there, what may be missing, and what is refused |
| WireForms.Names | crates/tpt-fab-aggregate/src/outcome.rs:45-181 | the names of tracks, consents and folders, and the version |
| WireForms.TrackNames | crates/tpt-fab-aggregate/src/outcome.rs:84-96 | exactly these texts are tracks, the prefix as often as it stands there |
| WireForms.ConsentNames | crates/tpt-fab-aggregate/src/outcome.rs:184-191 | exactly these texts are consents |
| WireForms.MigrationKeeps | crates/tpt-fab-aggregate/src/schema.rs:75-97 | migration keeps every other field, says the current version, and turns a text of notes into one note |
| WireForms.LegacyNoteRead | crates/tpt-fab-aggregate/src/schema.rs:75-97 | what a migrated text of notes is read as |
| WireForms.LedgerNames | crates/tpt-fab-intake/src/ledger.rs:106-123 | each list of a saved ledger stands under its own name |
| Screening.MedianRanks | crates/tpt-fab-aggregate/src/anomaly.rs:41-58 | the median is the value of middle rank, or half way between the two |
| Screening.RankedOnce | crates/tpt-fab-aggregate/src/anomaly.rs:41-58 | only one value has a given rank |
| Screening.FindingsExactly | crates/tpt-fab-aggregate/src/anomaly.rs:130-153 | a metric is reported, under its own name and with its signed score, exactly when its value is there, its own history is long enough, and it is further from the median than the threshold times the scaled deviation, or infinite, or off a constant history |
| Screening.SignedDeliveryIsJudged | crates/tpt-fab-intake/src/lib.rs:140-206 | a signed, storable, sane report is Flagged exactly when one of its metrics is outlying against that metric's history, and Accepted otherwise |
| Screening.OutlyingDeliveryIsFlagged | crates/tpt-fab-intake/src/lib.rs:184-206 | a signed report with a metric beyond the range of most of its history, by more than the slack, is Flagged |
| Screening.DeliveredFile | crates/tpt-fab-intake/src/lib.rs:140-206 | what becomes of a file that says a report under a good signature: rejected, flagged or accepted, and what enters the history |
| Screening.UndeliveredFile | crates/tpt-fab-intake/src/lib.rs:140-162 | every other file is rejected and leaves the history alone |
| Screening.AbsorbedExactly | crates/tpt-fab-aggregate/src/anomaly.rs:155-163 | each history grows by its own metric, if there is one and it is finite |
| Screening.MetricsMean | crates/tpt-fab-aggregate/src/anomaly.rs:206-229 | rounding apart, the metrics are the share of good units, the average distance from the drawing and the average ratio to what was designed |

## Left out

- The E116 collector: nothing in the protocol reads what it gathers.
- Reason and log texts, `Display` output, authors and time stamps of lots, recipes and objects; ledger reasons and times are parameters.
- Sockets, timeouts (T3 to T8), thread creation and file system errors: a stream is a list of deliveries that ends, a directory a list of files sorted by name, and a thread may stop at any point.
- Vendor adapters: the default registry, which passes every message through.
- The litho and process crates: a backend is any function that accepts or refuses.
- Cohort aggregation, privacy noise, incentives, dataset parsing: easy next to the rest.
- Named events: only their numbers are used.
- Anomaly.Median: medians, deviations and scores are computed in exact reals, because the properties are about order and range, not rounding; the metrics themselves are rounded.
- Drift.DownloadedRecipeRunsExactlyInBand: offsets and deviations are exact reals, so a band edge moves by at most the rounding of one operation.
- ReportMetrics.MetricsTyped: the sign of a zero divisor is taken as positive, because negative zero is not told apart from zero.
- Counters.LotsProcessedCountsCompletedJobs: the counter wraps at 2^32, as a build without overflow checks does.
- Hmac.UnhexOfHex: text with characters of more than one byte is refused by the model; the original may stop there.
- Simulator.FabState.RunProcessJob: runs without interference; interference between critical sections is the subject of the protocol theorems, over the same functions.
- Schema-0.1 files with a signature: migration changes what was signed, so the signing theorems are about the current version.
- The published SEMI E5 and E37 tables, which the code's own dialect differs from.
