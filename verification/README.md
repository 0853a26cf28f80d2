# Verification model of the gateway firmware

The gateway reads a battery monitor, publishes telemetry over cellular or WiFi, and must not lose data or brick itself
when power, card or link fail. This project models the parts of it that make those promises and proves them with Dafny.
`dafny verify dfyconfig.toml` checks everything.

| files | part of the firmware |
|---|---|
| `Spool`, `SpoolRows`, `SpoolRuns`, `SpoolResets`, `SpoolProgress` | store-and-forward of telemetry rows: a spool file, a byte cursor in a sidecar, replay across reboots, what it costs to start over, and that the backlog goes out |
| `Csv`, `CommaText` | the telemetry row builder |
| `MqttAck` | QoS 1 publishes that wait for their acknowledgement, against the MQTT event handler |
| `SpoolDelivery` | the two together: replay answered by those publishes |
| `CJson`, `JsonParser`, `JsonRoundTrip`, `JsonStream` | the streaming JSON encoder, with a parser for sections 3 to 7 of RFC 8259 as its partner |
| `Redact`, `RedactTrees`, `RedactedDetails` | the text-level redactor of the diagnostic journal |
| `TextLines`, `JournalFiles`, `EventReport` | the journal on disk, its tail repair and rotation, and the host's reader |
| `EventRing`, `RateLimiter`, `EventQueue` | the journal in RAM: ring, rate limiter, and the queue to the writer task |
| `JournalOrder` | from the producers through the queue and the files to the reader |
| `Ota`, `OtaTask`, `OtaSafety`, `OtaResume`, `OtaRollback` | firmware updates across reboots, power cuts and rollbacks |
| `AttemptMarker`, `RollbackEvidence` | the marker that reports a rollback to the broker |
| `Texts`, `Ascii`, `Options` | shared by the others |
| `ModemRestart`, `Gnss` | the modem supervisor's restart requests, and its position parser |

## How it is modelled

- Code that changes state in place is a class or a method over an array, proved equal to a function of the old state
  (`SpoolTask`, `Directory`, `Ring`, `Limiter`, `Stream`, `Updater`, `Receiver`, `RedactJson`, `SerializeCsv`,
  `SplitInPlace`, `BuildReport`). The promises are then proved about that function over whole runs.
- Where several tasks, or power cuts, interleave (`SpoolRuns`, `EventQueue`, `MqttAck`, `Ota`, `RollbackEvidence`,
  `ModemRestart`) a run is a sequence of small steps, and a theorem speaks of every sequence of enabled steps.
- What the card, the network, flash, NVS, the clock and the broker do is a parameter of the step or method.
- Text is a `string` of byte values. Formatted numbers are opaque text.

## Where the code does not do what one might expect

For each of these the input is given, and the exact condition under which things go right is proved for all inputs.

- `spool_reset` unlinks the file and then rewrites the cursor, and looks at neither result. A stale cursor skips the next
  row after a reboot. After a failed unlink the old rows are sent again and, in the same boot, a new row is deleted
  unsent: RAM takes the file for empty, so a short row makes its size smaller than the old rows, and re-sending a few of
  those drains it. Every row stays safe if and only if each time the spool started over the unlink worked and no old
  cursor was left (`RowsAreSafeIff`).
- A short journal write without a power cut, or a repair that fails after one, leaves a torn tail. The next record is a
  line of its own if and only if there is no tail or its append rotates (`TornTailGluesNextRecord`). The next boot
  removes neither a glued nor an archived tail, since repair looks at the end of events.jsonl only, and an archive is
  never edited (`ArchivesAreNeverEdited`); a reader meets that line until its file is rotated away.
- The journal's redactor compares keys byte by byte, its reader in the lower case of the decoded text. The reader
  accepts what the redactor left if and only if they agree on every key (`RedactedTextReadsBack`); they do on ASCII keys,
  and do not on one spelled with the Kelvin sign, whose lower case is a plain k (`KelvinKeyIsRefused`).
- Sequence numbers are assigned under the mutex but queued after it is released, so the journal file follows the
  numbers if and only if there is at most one producer (`FileOrderNeedsOneProducer`), while `tools/event_report.py`
  refuses a file that does not. With one producer it always loads (`OneProducerJournalLoads`).
- The MQTT handler compares the message id and then sets the event bit. A publish can succeed unacknowledged if and only
  if the bit is set for a publisher that has cleared it since and is not acknowledged (`StepIsSoundIff`,
  `StaleBitMisleads`; a run from the start in `DividedHandlerFails`). An acknowledgement that arrives before the wait is
  armed does not end it. Without stale bits, success is due to an acknowledgement during one's own wait unless another
  message took over the id of a publish that was answered early (`SuccessIsFromTheWait`), and every such reuse can end
  in success (`ReuseEndsTheWait`; a run from the start in `EarlyAnswerSucceedsByReuse`).
- The modem task takes the restart flag before it publishes RESETTING. A restart is lost to the accounting if and only if
  another begins while it still waits for the modem (`RestartsAreConserved`; a run in `DividedPickUpFails`).
- The redactor takes an escaped quote at the very end of its input for a closing one: text cut off inside a string is
  refused if and only if it does not end so (`UnterminatedIsRefusedIff`).
- The outage report subtracts uptimes, also across a reboot. A duration is the time the outage took if and only if the
  boots it began and ended in started at one moment (`DurationIsElapsedIff`).
- A resume record's three keys are not written together. The record can be trusted throughout if and only if it could at
  the start and held no other release's length between 2 bytes and the image's size (`ResumeRecordIsHonest`; a run in
  `MixedRecordIsReached`). The read-back hash protects the boot choice in any case (`OnlyVerifiedImagesBoot`).
- The no-retry guard looks for ABORTED only, and at whatever version the slot's bytes name. A failed version is tried
  again if and only if its slot was recorded INVALID (`RetriedUnlessAborted`). A version that was never tried can be
  refused for good, by a broken link as well as by a power cut: over every run without a trial, exactly when the slot
  was recorded ABORTED, no image was made bootable in it since, and what was written there names the version
  (`UntriedReleaseIsBarredIff`; a run without a power cut in `BrokenDownloadBars`).
- The repository's README.md:229-235 says the attempt is persisted before the reboot, and its marker cleared only after
  the broker acknowledged that rollback. Power lost after the image has become bootable and before both of the marker's
  keys are written starts a trial that no marker names, and a late acknowledgement of an earlier rollback erases a new
  marker. A reverted trial is reported if and only if both keys were written and no such acknowledgement came after the
  first of them, or the missing ones already named the same versions and none came at all (`RevertedTrialIsReportedIff`,
  `AckErasesWhatItCarried`, `LateAckErasesNewMarker`).

## Model

| member | source | states |
|---|---|---|
| Spool.SpoolTask.LoadState | main/datalog.c:311-336 | size and cursor are read once after boot; a missing or unreadable cursor is 0, one past the end is the end |
| Spool.SpoolTask.SaveCursor | main/datalog.c:338-366 | the sidecar holds the cursor, is unreadable, or is unchanged, as the rewrite ends |
| Spool.SpoolTask.Reset | main/datalog.c:368-374 | file, size, cursor and sidecar start over, as far as the unlink and the rewrite succeed |
| Spool.SpoolTask.Append | main/datalog.c:376-424 | a row and its newline go behind the file, all or nothing, after a reset when more than 50 MB are pending |
| Spool.SpoolTask.ReplayRow | main/datalog.c:464-490 | one round: reads up to 639 bytes or a newline, publishes unless blank, moves the cursor only past what was acknowledged |
| Spool.SpoolTask.ReplayTick | main/datalog.c:428-509 | which rows a tick sends, and the spool it leaves, for every answer of card and broker |
| Spool.SpoolTask.HandleSnapshot | main/datalog.c:513-530 | a row that fits the buffer is published live or spooled, any other is dropped |
| SpoolRows.ReplayOnRows | main/datalog.c:462-490 | on a file of rows of 1 to 639 bytes, replay sends the next rows byte for byte, including the 639-byte row whose newline comes back alone |
| SpoolRuns.RunsFollowTheTask | main/datalog.c:376-509 | the spool of a run is the one the datalog task's own functions compute, and a tick logs exactly what it sent |
| SpoolDelivery.CursorNeverPassesTheBroker | main/datalog.c:473-478 | over any run of the spool with clean resets, answered by any run of the publish protocol without a stale bit, every spooled row is at the broker in a message of its own, discarded by the cap, or in the file at or after the saved cursor |
| SpoolRuns.NoSpooledRowIsLost | main/datalog.c:311-509 | over any run of appends, ticks, failed publishes and power cuts with clean resets every spooled row is acknowledged, discarded by the cap, or in the file at or after the saved cursor |
| SpoolRuns.ReplayIsExactAndInOrder | main/datalog.c:460-490 | every acknowledged publish carries the exact bytes of one spooled row, and within a boot rows go out in order, each at most once |
| SpoolRuns.RebootRepeatsAtMostTwo | main/datalog.c:428-509 | when cursor writes succeed, no boot repeats more than two acknowledged rows |
| Spool.CapCountsPendingBytes | main/datalog.c:382-389 | with at most 52,428,800 bytes between cursor and end the file is kept and the line goes behind it; with more it starts over |
| SpoolRuns.CapMeasuresUnacknowledgedRows | main/datalog.c:376-424 | an append discards exactly the rows never acknowledged, and only when more than 50 MB of rows are not acknowledged from where replay stands; the whole new state in either case |
| SpoolRuns.OnlyTheCapDiscards | main/datalog.c:382-389 | a run whose appends never find more than 50 MB between the cursor and the end of the file discards no row |
| SpoolProgress.BacklogGoesOut | main/datalog.c:428-509 | after any run with clean resets, ticks with card and broker up, at most as many as rows are left, get every row acknowledged that the cap did not discard, and empty the file |
| Spool.IdleTickChangesNothing | main/datalog.c:430-436 | without anything pending, a broker or a readable file a tick sends nothing and changes nothing |
| SpoolResets.RowsAreSafeIff | main/datalog.c:368-374 | every row is safe at every moment of a run, and whatever follows with clean resets, if and only if each reset of the run was clean |
| SpoolResets.StepIsSafeIff | main/datalog.c:368-374 | each append or tick that starts over uncleanly has a continuation, with a card that works, that ends with a row neither acknowledged nor discarded nor pending |
| SpoolResets.HiddenIsLost | main/datalog.c:492-506 | a row behind old rows that RAM does not count is deleted unsent within the same boot |
| Csv.Snprintf | main/datalog.c:137-146 | formatted text is written as far as it fits, terminated, and never past the buffer; the result is its full length |
| Csv.SerializeCsv | main/datalog.c:124-158 | the result is below the buffer size if and only if row and terminator fit, and then the buffer holds exactly that row |
| Csv.RowReadsBack | main/datalog.c:97-158 | the columns are the 23 fixed ones, then up to 16 cells, then up to 8 temperatures, and the row splits at its commas into just these if and only if none contains a comma |
| MqttAck.SuccessMeansDelivered | main/mqtt.c:676-730 | in every interleaving that sets no stale bit, success means that this very message's acknowledgement was handled between its sending and the return: during the wait, unless it came before the wait was armed |
| MqttAck.StepIsSoundIff | main/mqtt.c:235-247 | a step breaks what success relies on if and only if it sets the bit for a publisher that has cleared it and is not acknowledged |
| MqttAck.SetBitSucceeds | main/mqtt.c:702-713 | once a waiting publish's bit is set it goes on to success, whatever the other tasks do |
| MqttAck.StaleBitMisleads | main/mqtt.c:463-519 | every such step has a continuation in which an unacknowledged publish succeeds |
| MqttAck.UndividedSuccessMeansDelivered | main/mqtt.c:245-247 | with the handler's comparison and its setting of the bit undivided, success always means delivered |
| MqttAck.SuccessIsFromTheWait | main/mqtt.c:676-730 | in every interleaving without a stale bit and without the reuse of an id whose publish was answered early, success means that the message's own acknowledgement was handled during its wait |
| MqttAck.StepIsPromptIff | main/mqtt.c:702-713 | of all steps that set no stale bit, exactly such a reuse puts something under way that could end the wait of a publish answered before it |
| MqttAck.ReuseEndsTheWait | main/mqtt.c:702-713 | every such reuse has a continuation without a stale bit in which the publish succeeds without an acknowledgement during its wait |
| MqttAck.EarlyAnswerSucceedsByReuse | main/mqtt.c:702-713 | a run from the start in which a publish answered early succeeds through a message that took over its id |
| MqttAck.DividedHandlerFails | main/mqtt.c:245-247 | a run from the start in which a divided handler lets a publish succeed for a message the broker never got |
| JsonRoundTrip.RoundTrip | main/webui_json_stream.c:65-188 | parsing the encoder's text by RFC 8259 gives back the tree, non-finite numbers as null |
| JsonRoundTrip.EncodingIsInjective | main/webui_json_stream.c:108-168 | trees that encode alike mean the same |
| JsonStream.Stream.Flush | main/webui_json_stream.c:18-34 | a full or last chunk is handed over once; after a refusal nothing is |
| JsonStream.Stream.Write | main/webui_json_stream.c:36-55 | delivered and buffered bytes grow by exactly the data, or by a prefix when the sink refuses |
| JsonStream.Stream.String | main/webui_json_stream.c:65-106 | the bytes of the quoted and escaped string |
| JsonStream.Stream.Value | main/webui_json_stream.c:108-168 | the bytes of the pure encoding of the whole tree |
| JsonStream.Stream.ObjectMembers | main/webui_json_stream.c:170-188 | the members of an object, with the comma flag carried on |
| JsonStream.Stream.ObjectFragments | main/webui_json_stream.c:190-212 | fragments encode as one object of all their members, empty fragments included |
| JsonStream.Respond | main/webui.c:506-520 | for every sink: on success the chunks are the encoding, 512 bytes each but the last; on refusal a prefix in full chunks, the refused call being the last |
| JsonStream.RespondFragments | main/webui.c:525-548 | the same for a status built of fragments, any of which may fail to allocate |
| Redact.SkipString | main/event_journal_core.c:29-45 | where a string ends, or that it does not |
| Redact.SkipValue | main/event_journal_core.c:47-77 | where the value after a sensitive key ends |
| Redact.SensitiveKey | main/event_journal_core.c:13-27 | the loop over the listed keys finds exactly the keys whose lower case is listed |
| RedactedDetails.SensitiveMeansSpelledLike | main/event_journal_core.c:13-27 | a key is sensitive if and only if it has the length and, up to the case of ASCII letters, the letters of one of the reader's keys |
| RedactedDetails.ReaderHidesWhatIsSensitive | tools/event_report.py:12-23 | the reader takes every such key for a listed one, and of the ASCII keys no other |
| Redact.AppendBytes | main/event_journal_core.c:79-94 | bytes are appended only if they and the terminator fit |
| Redact.RedactJson | main/event_journal_core.c:96-155 | succeeds if and only if the scan's text and its terminator fit, and then the buffer is that text |
| RedactTrees.TextRedactionIsTreeRedaction | main/event_journal_core.c:96-155 | for every JSON text, with any white space, the scan is the text of the tree with each sensitive key's value replaced at any depth |
| RedactTrees.UnterminatedIsRefusedIff | main/event_journal_core.c:114-117 | text that stops inside a string is refused if and only if its last byte is not an escaped quote |
| RedactedDetails.ScanOfEncoding | main/event_journal.c:212-250 | on the encoder's compact text the scan is the encoding of the redacted tree |
| RedactedDetails.EscapedKeySensitivity | main/event_journal_core.c:14-27 | comparing a key's raw spelling finds exactly the keys whose decoded text is sensitive |
| RedactedDetails.RedactedTextReadsBack | tools/event_report.py:42-50 | encoded, redacted and parsed again, details are the redacted tree; it passes the reader's check if and only if redactor and reader agree on its keys, and so whenever the keys are ASCII |
| RedactedDetails.KelvinKeyIsRefused | tools/event_report.py:44-46 | a key with the Kelvin sign in place of its k is left alone by the redactor and refused by the reader |
| JournalFiles.CrashAtAnyByte | main/event_journal_core.c:169-211 | whatever part of a record's line reached the file, repair keeps exactly the whole records, truncates exactly when it must, and is idempotent |
| JournalFiles.Directory.RepairTail | main/event_journal_core.c:169-211 | repairs the active file, or reports the failed call and leaves the file alone |
| JournalFiles.Directory.Start | main/event_journal.c:410-421 | a boot repairs only with a card in place, and goes on after a failure |
| JournalFiles.Directory.RotateFiles | main/event_journal_core.c:229-244 | the unlink and rename of each generation, stopped by the first failure |
| JournalFiles.Directory.Append | main/event_journal_core.c:246-288 | rotation when the record would pass the limit, then the record and its newline |
| JournalFiles.AppendIsOkIff | main/event_journal_core.c:246-288 | an append reports success if and only if every call it made succeeded, and then the record and its newline are on the card |
| JournalFiles.RotationKeeps | main/event_journal_core.c:229-244 | however far rotation gets, a reader finds a gap-free suffix that ends with the newest record |
| JournalFiles.RotationDropsOldestArchive | main/event_journal_core.c:229-244 | all a rotation takes from a reader is the oldest archive, once its unlink has gone through |
| JournalFiles.JournalIsContiguousSuffix | main/event_journal_core.c:229-288 | over every run with failing and interrupted operations, reading archives downwards and then the active file gives a contiguous suffix of the records that contains the newest, and no file exceeds the limit |
| JournalFiles.TornTailGluesNextRecord | main/event_journal_core.c:246-288 | for any files, what a reader finds after the next append: the record is a line of its own if and only if there is no torn tail or the append rotates, and no boot repairs anything then |
| JournalFiles.ArchivesAreNeverEdited | main/event_journal_core.c:229-244 | an archive's text is one that its own or a younger generation had before |
| EventReport.LoadEvents | tools/event_report.py:53-85 | loads if and only if every line is acceptable and each boot's numbers increase; otherwise names the first line that breaks this |
| EventReport.BlankLinesAreSkipped | tools/event_report.py:58-67 | lines of white space count for nothing anywhere, a malformed or unacceptable one stops the reader |
| EventReport.JournalLoads | tools/event_report.py:27-39 | whatever rotations and crashes happened, a journal whose records were acceptable and in order loads, as a gap-free suffix with the newest record |
| JournalOrder.OneProducerJournalLoads | tools/event_report.py:53-85 | with one producer in each boot the journal always loads, whatever was dropped, failed, rotated or interrupted |
| EventReport.BuildReport | tools/event_report.py:88-133 | completed outages are exactly the pairs of a first loss and its recovery, in order, with boot, sequence numbers and duration; open ones exactly the links that are down; event, boot and per-key counts and the timeline are the journal's |
| EventReport.DurationIsElapsedIff | tools/event_report.py:115-123 | an outage's duration is the time it took if and only if the boots it began and ended in started at one moment |
| RateLimiter.Limiter.IsRateLimited | main/event_journal.c:81-118 | decision and new table for every table, key and clock |
| RateLimiter.TableInvariant | main/event_journal.c:81-118 | over every sequence of calls the slots' keys stay distinct and each slot dates its key's last acceptance |
| RateLimiter.SuppressedOnlyAfterAcceptance | main/event_journal_core.c:157-167 | an event is suppressed only if its key was accepted less than the interval earlier |
| RateLimiter.AcceptedEventsAreSpaced | main/event_journal.c:81-118 | with a monotone clock and at most 24 keys, accepted events of a key are at least the later one's interval apart |
| RateLimiter.SuppressedIff | main/event_journal.c:81-118 | with a monotone clock and at most 24 keys an event is suppressed if and only if its key was last accepted less than the interval earlier |
| RateLimiter.NewKeyForgetsIff | main/event_journal.c:102-117 | a new key displaces a slot's key if and only if every slot is used and the sequence number picks that slot |
| EventRing.Ring.Push | main/event_journal.c:262-268 | the ring holds the last min(n, 48) records with consecutive numbers |
| EventRing.Ring.Emit | main/event_journal.c:251-269 | under the mutex an event is suppressed, or numbered and put into the ring |
| EventRing.NewestIs | main/event_journal.c:348-386 | a reader gets the last events there were, up to 48, or up to as many as it asks for |
| EventRing.Ring.Visit | main/event_journal.c:348-386 | visits the newest `limit` records, oldest first |
| EventQueue.EventsAreConserved | main/event_journal.c:151-288 | in every interleaving each event is written, failed, queued, in a task's hands or counted as dropped, and the drop counter is busy losses, evictions and rejections |
| EventQueue.InitConserved | main/event_journal.c:393-410 | the accounting starts balanced for any number of producers |
| EventQueue.FullQueueDecides | main/event_journal.c:271-283 | in every interleaving an event meets a queue with room and goes in last, or a queue of 24: then one that is not critical is rejected and only a critical one evicts |
| EventQueue.RejectedIff | main/event_journal.c:271-288 | over every run a non-critical event is rejected if and only if it met a full queue, a critical one if and only if there was nothing to evict or the freed place was taken |
| EventQueue.QueueIsFifo | main/event_journal.c:275-283 | events leave the queue in the order they entered it, so an eviction takes the oldest |
| EventQueue.CallsAreCounted | main/event_journal.c:245-288 | every call is counted once as emitted, rate limited or lost to a busy mutex, and `queued` counts what entered the queue |
| EventQueue.FileOrderNeedsOneProducer | main/event_journal.c:262-271 | the journal file follows the sequence numbers in every interleaving if and only if there is at most one producer |
| EventQueue.OneProducerIsTakenInOrder | main/event_journal.c:151-160 | with one producer the writer takes events in the order of their numbers |
| OtaTask.SlotSha256 | main/ota.c:608-634 | the chunked read-back hashes exactly the first `len` bytes of flash, or fails when one of them cannot be read |
| OtaTask.Updater.ResumeLoad | main/ota.c:527-547 | a resume length is used only if version and hash match and it is short of the image |
| OtaTask.Updater.ResumeSave | main/ota.c:513-525 | the three keys are written one after the other, up to the first failure |
| OtaTask.Updater.Download | main/ota.c:710-724 | the passive slot gets the chunks at their positions, and the record is saved every 128 KB |
| OtaTask.Updater.Install | main/ota.c:750-779 | a slot becomes the boot choice if and only if it reads back, to the manifest's hash, and the structure check passes |
| OtaTask.Updater.AttemptUpdate | main/ota.c:650-779 | one attempt, as steps of the model; when it succeeds, exactly, and that the slot then holds the resumed prefix and the received chunks |
| OtaTask.Updater.TryDownloads | main/ota.c:789-820 | an image is installed if and only if one of up to four attempts succeeds on what the failed ones before it left, and the link came back before each but the first |
| OtaTask.SavesKeepUp | main/ota.c:710-724 | while keys can be written the record names this release and a position less than 128 KB behind what has arrived |
| OtaTask.TransferRecords | main/ota.c:726-741 | a broken transfer records exactly where it stopped, unless nothing arrived; a complete one adds nothing |
| OtaTask.MismatchStartsOver | main/ota.c:701-707 | an image that is not the manifest's is forgotten, so the next attempt starts from scratch |
| OtaTask.BrokenDownloadGoesOn | main/ota.c:726-741 | a broken download goes on where it stopped, with the new chunks behind what has arrived |
| OtaTask.Updater.RunUpdate | main/ota.c:781-841 | restarts if and only if some attempt of up to four installs the image and both keys of the marker are written; otherwise the running slot is the boot choice |
| OtaTask.Updater.AttemptSave | main/ota.c:570-586 | the marker's two keys, up to the first failure |
| OtaTask.Updater.Start | main/ota.c:1102-1143 | what a boot makes of the marker: a trial's stays, a reverted one is reported, any other is discarded |
| OtaTask.Updater.AcknowledgeEvidence | main/ota.c:1151-1163 | marker and evidence go together, or neither when the erase fails |
| OtaTask.Updater.RunCheck | main/ota.c:844-938 | a check changes nothing unless version, rollback guard and trial allow an update, and restarts if and only if they do and the update goes through |
| OtaTask.Updater.RollbackSelfTest | main/ota.c:946-992 | the image is confirmed if and only if some round reaches the server and marks the slot |
| OtaSafety.AConfirmedImageRemains | main/ota.c:781-1000 | over all boots, checks, installs, self-tests and power cuts, also from a board just flashed over the cable, some slot holds a confirmed image, and while an image is on trial the other slot still holds the one it was installed from |
| OtaSafety.OnlyVerifiedImagesBoot | main/ota.c:750-779 | whatever a stale resume record said, the slot that boots next hashes to its manifest's digest |
| OtaResume.ResumeRecordIsHonest | main/ota.c:503-547 | with one release on offer, the record names at every moment a length whose slot prefix is the image's, if and only if it did at the start and held no other release's length that matters |
| OtaResume.MixedRecordMisleads | main/ota.c:519-523 | power lost between names and length leaves the record naming more than has arrived if and only if it held a longer length that a resume would use |
| OtaResume.MixedRecordIsReached | main/ota.c:519-523 | a run that gets there from every starting state with such a length |
| OtaRollback.RolledBackVersionIsNotRetried | main/ota.c:916-926 | a version whose slot is recorded ABORTED is never downloaded again while the manifest stays |
| OtaRollback.NoSecondTrial | main/ota.c:844-938 | a release whose trial a reset ended is in the other slot, and nothing under the same manifest touches either slot again |
| OtaRollback.UntriedReleaseIsBarredIff | main/ota.c:916-926 | over every run without a trial, a wanted release ends up barred if and only if the slot was recorded ABORTED, no image was made bootable in it, and what was written there names the release |
| OtaRollback.BrokenDownloadBars | main/ota.c:801-812 | a run without a power cut that ends so: a link that breaks after the first chunk and does not come back |
| OtaRollback.RevertedTrialIsReportedIff | main/ota.c:570-586 | wherever power is lost and whenever an earlier rollback is acknowledged, a reverted trial is reported if and only if both keys were written and no acknowledgement came after the first, or the missing ones named it already and none came at all |
| OtaRollback.MarkerDecides | main/ota.c:1118-1143 | a reverted trial is reported if and only if the marker at the restart into it named its two versions |
| OtaRollback.RetriedUnlessAborted | main/ota.c:916-926 | after a failed trial the version is downloaded again if and only if its slot was recorded INVALID |
| OtaRollback.ConfirmedTrialIsOver | main/ota.c:946-992 | a confirmed image is what boots from then on, and its marker is gone and reported by no boot |
| OtaRollback.RestoreReturnsToTheSameImage | main/ota.c:824-833 | when the attempt cannot be recorded, the confirmed running image boots again, unchanged |
| AttemptMarker.BootReadsMarker | main/ota.c:1118-1143 | a marker stays during its trial and after its revert, which alone is reported; any other boot discards it |
| RollbackEvidence.InstallRecordsBoth | main/ota.c:570-586 | an install records what it replaces and what it installs, only as a pair |
| RollbackEvidence.OtherStatusTellsOnly | main/mqtt.c:248-258 | any status tells the broker of the rollback, but the acknowledgement of another one leaves the marker |
| RollbackEvidence.DisconnectForgetsAwaited | main/mqtt.c:220-222 | after a disconnect no late acknowledgement erases the marker before the next connection |
| RollbackEvidence.RunIsConsistent | main/ota.c:1118-1143 | detected evidence is the marker's, and is what the awaited message carries |
| RollbackEvidence.EvidencePersists | main/ota.c:1118-1163 | over any number of reboots and reconnects the marker stays until a status carrying it was acknowledged |
| RollbackEvidence.DetectedEvidenceIsDelivered | main/mqtt.c:579-588 | detected evidence goes out with the next connection, and its acknowledgement tells the broker, erases the marker and ends the reports |
| RollbackEvidence.OnlyTheAwaitedAckErases | main/mqtt.c:248-258 | within a boot only the awaited acknowledgement or a passed self-test erases the marker |
| RollbackEvidence.AckErasesWhatItCarried | main/mqtt.c:579-588 | the erased marker is the one the message carried if and only if no other target was installed since boot |
| RollbackEvidence.LateAckErasesNewMarker | main/mqtt.c:248-258 | otherwise the new attempt's marker is erased unreported |
| ModemRestart.RequestsAreConserved | main/modem.c:210-235 | in every interleaving accepted requests are the restarts begun and the one pending |
| ModemRestart.RestartsAreConserved | main/modem.c:1253-1397 | in every interleaving, restarts begun are those completed, failed, in progress, and begun on top of a waiting one; so the balance holds if and only if none of the last kind happened |
| ModemRestart.RestartsEndAsCounted | main/modem.c:1290-1387 | in every interleaving the completed restarts are the answers of a modem that one waits for, the failed ones the refused reset commands and the timeouts of a wait |
| ModemRestart.OutcomeIsPublished | main/modem.c:1346-1387 | a restart answered in time is published as complete, one that is not as an error, one still waiting as such |
| ModemRestart.AnswerIsRemembered | main/modem.c:1346-1355 | only a modem that does not count as answering is probed, and not in the round of its reset |
| ModemRestart.StepLosesRestartIff | main/modem.c:1261-1269 | a step loses a restart if and only if it begins another while one waits |
| ModemRestart.UndividedPickUpsLoseNothing | main/modem.c:1253-1269 | with an undivided pick-up none is lost |
| ModemRestart.DividedPickUpFails | main/modem.c:1253-1269 | a run from the start in which a request accepted inside the pick-up starts a second restart on top of the first |
| Gnss.SplitInPlace | main/modem.c:975-986 | at most 24 fields, each left as a C string in the line's own buffer |
| Gnss.FindAnchor | main/modem.c:988-994 | the first lone N or S that is neither the first nor the last field |
| Gnss.SumCounts | main/modem.c:998-1003 | the sum of the satellite-count fields before the latitude |
| Gnss.Receiver.ParseInfo | main/modem.c:973-1032 | the new fix, or the old position when the line has none |
| Gnss.CountsDoNotMoveThePosition | main/modem.c:966-1032 | any number of satellite counts, within 24 fields, gives the same position and exactly their sum |
| Gnss.NoFixKeepsThePosition | main/modem.c:988-1010 | a line has a fix if and only if it has a lone N or S with a field for the latitude before it and seven fields behind it; otherwise the position stays and nothing counts as used |
| Gnss.UtcReads | main/modem.c:1021-1028 | ddmmyy and hhmmss with any fraction become one time stamp |
| Gnss.AtoiReadsBack | main/modem.c:998-1003 | a printed count reads back as its number, signed or not, whatever follows it |
| Gnss.FormatsAgree | main/modem.c:947-964 | ddmm.mmmm and decimal degrees of one place give the same degrees, the whole degrees plus a sixtieth of the minutes |

## Left out

- HTTP handlers, sockets, the dashboard, the watchdog task and `main/wifi.c`: plumbing around the modelled parts.
- FreeRTOS, esp_modem, esp-mqtt, esp_https_ota, NVS, FAT and cJSON: their effects are parameters, not code.
- `sd_append` and `sd_flush` (main/datalog.c): buffering of the daily CSV, which feeds no property here.
- `main/ota_policy_core.c` and `tools/recovery_policy.py`: single decisions without state (the firmware does not call the second).
- `main/bms.c`, `main/board_battery.c`, `main/led.c`, `main/timesync.c`, `main/sdcard.c`: drivers and unit conversions, whose behaviour is that of the hardware and of floating point.
- Exclusive use of the UART between AT commands and PPP: it depends on library behaviour that is not part of this model.
- 32-bit wrap-around of counters, sequence numbers and file offsets: integers are unbounded.
- Memory exhaustion other than in status fragments, and the text of log lines, wall-clock fields and error messages.
- Spool files: appends are all-or-nothing, the sidecar's number is rewritten, left or lost as a whole, and a closed file is durable; the runs of `SpoolRuns` further assume that starting over is one step, which `RowsAreSafeIff` shows to be needed.
- Spool: live rows overtake the backlog, so order is stated among spooled rows only; a failed publish may still have reached the broker.
- MqttAck: message ids are not reused while unacknowledged, and the client reports each acknowledgement once (section 2.3.1 of MQTT 3.1.1); replacing the client when the configuration changes is not a step. Handler and publishers otherwise interleave freely.
- JournalFiles: in the runs, short writes happen only when power fails and the repair at the next boot then works, with the card in place; what follows otherwise is shown separately (`TornTailGluesNextRecord`).
- Ota: flash behind the write position reads as erased, erasing a key namespace and marking a slot are atomic, and setting the boot choice back to the running slot keeps it confirmed; a failing NVS commit counts as a failing write; transport recovery and HTTP errors only appear as failing steps.
- RollbackEvidence: one MQTT client lives as long as a boot; a client replaced in between could reuse the awaited id.
- Gnss: `atof` is a parameter and reals are exact, so rounding and the 32-bit range of `atoi` are not modelled; `ParseInfo` reads fields as strings once the line is split.
- EventReport: the decoded line is a parameter (schema, boot, sequence, redaction verdict), and a record is assumed to have the fields the report reads.
- Redact.RedactJson: keys are compared by their raw spelling as the code does; that this misses no listed key written by the encoder is `EscapedKeySensitivity`.
