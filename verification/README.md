# ExoSnap diagnostics: a verified model

A Dafny model of the stateful policy objects behind ExoSnap's diagnostics: what they keep in every
reachable state, and what they answer over whole runs. Time and measured values are reals, counters
are natural numbers (reduced modulo 2^32 where the program narrows them), strings are sequences.

Where the program updates fields step by step, the model is a class whose methods do the same, proved
against a function of the whole state (`Observed`, `Written`, `Rotated`, `Next`, ...). The theorems are
then about that function over any number of calls. Where several threads meet, the model is a state
machine whose steps are the locked sections and atomic accesses, and the theorems hold for every
interleaving.

`dafny verify dfyconfig.toml` checks the whole project.

## The parts

- `FiringRuns`, `SessionLedger`, `LedgerHistory`, `LedgerConservation`, `DiagnosticsController`: the
  session's record of measured problems. The online tracker is compared with an offline reading that
  only knows maximal runs of firing evaluations; the controller adds the reset per session, the freeze
  and the rule that one snapshot is one measurement.
- `EditDistance`, `CommandLineFlags`: the two-row edit distance against cheapest edit scripts, the
  nearest-flag search and the argv validator, over the program's own table of 75 options.
- `AppLog`, `AppLogDelivery`, `LogEntryModel`: the bounded history, its delivery to subscribers under any
  interleaving of writers, and the log page's own copy.
- `LogRotation`, `LogOutages`: the rename cascade under arbitrary file-system failures, the size counter,
  and the once-per-outage reports.
- `PresentProtocol`, `PresentAccumulator`, `PresentSession`: starting and stopping the present trace with
  consumer threads that may outlive their session, and the totals of an attribution window.
- `WindowCaptureStall`, `WindowTargetFacts`, `WindowEvidence`: the stall monitor against a declarative
  reading of its trace, the verdicts drawn from window facts, and the evidence the probe accumulates.
- `AudioSourceDegradation`, `NoticeBoard`, `RecordingNotices`: the latch behind the lost-audio notice, and how
  the application shows the stall and audio notices: when they go up, what takes them down, and that neither
  outlives its recording.
- `PipelineDrops`: the drops shown between two snapshots.
- `Wrappers`, `Sequences`, `EngineTypes`: an option type, the ends of a sequence, and the engine's enumerations.

## Where the code does less than it says

Each of these is a theorem: the code is modelled as it is, the exact condition under which the promise holds
is proved, and a run shows that the other case occurs.

- The log page drops evicted rows before it appends the batch, so one batch of more entries than the history
  holds leaves it longer than the history until the next clear (`PageIsHistoryIff`, `BurstOutgrowsHistory`);
  attaching while a batch waits has its own condition (`AttachedMidBatchIff`).
- The size counter is meant to describe the file. A line whose flush fails comes out with a later one and is
  never counted, until the file is opened again (`CounterIsSizeIff`, `LateFlushIsUncounted`).
- `isFileLoggingHealthy` is documented to recover with the next success; a successful write does not clear
  it, only a reopen does (`HealthAgreesIff`, `HealthStaysBad`).
- A trace that ended on its own leaves the session counted as open: `Start` then answers true and starts
  nothing until `Stop` (`EndedTraceNeedsStop`, `ATraceCanEndUnnoticed`).
- The sample's last process id is overwritten by every counted present (`LastProcessIff`, `LastProcessIsLost`).
- The note about unattributed presents is not once per attribution window. A window can be noted twice
  (`AtMostOneNoteIff`, `OneWindowNotedTwice`), and one of foreign presents only can go without
  (`ForeignWindowNotedIff`, `ForeignWindowUnnoted`), since the latch outlives the boundary.
- The audio monitor's header promises one Clear when a new session begins; the monitor itself gives none
  (`OpeningNeverClears`, `NewSessionGivesNoClear`). The application makes up for it twice over: it takes the
  notice down when the page is left (`AudioNoticeEndsWithItsRecording`), and the snapshot it posts before a
  new session draws the Clear (`EndIsAnnounced`).
- The state change to stopping is posted before the recording is told to stop, so a live snapshot behind it
  can put the audio notice up again away from a recording (`NoticeElsewhereIff`, `LateSnapshotRaises`); the
  next change to another such state, or a snapshot of its own session that is not live, takes it down.

Three more conditions are facts about the types, not about inputs this program produces:

- A clear made on another thread queues its signal, and a batch that comes before it is wiped although its
  entries stay in the history (`MirrorIsHistoryIff`, `ForeignClearLosesAnEntry`). The one caller here clears
  from the log page, on the log's own thread.
- An occurrence starts its worst value at zero, so one that measured only negative values after the entry was
  earned reads zero (`OccurrenceWorstIsMaxIff`, `OccurrenceWorstCanMiss`). The checks here measure counts,
  latencies and ratios, for which every occurrence shows its maximum (`OccurrenceWorstIsMax`).
- The capture card's 32-bit drop count loses whole multiples of 2^32 lost between two consecutive snapshots
  (`DropsTelescope`, `ALargeStepIsLost`); at five snapshots a second no recording loses that many frames.

## Model

| member | source | states |
|---|---|---|
| EditDistance.NoCheaperScript | app/cli/CommandLineFlags.cpp:112-129 | no script of keeps, substitutions, insertions and deletions from `a` to `b` costs less than the distance |
| EditDistance.CheapestScript | app/cli/CommandLineFlags.cpp:112-129 | a script of exactly that cost exists, for all strings |
| EditDistance.DistanceIsCheapest | app/cli/CommandLineFlags.cpp:109-129 | the table's recurrence is the cost of a cheapest edit script |
| EditDistance.CheapestIsUnique | app/cli/CommandLineFlags.cpp:109-129 | only one number is the cheapest cost |
| EditDistance.Triangle | app/cli/CommandLineFlags.cpp:112-129 | the triangle inequality, by composing scripts |
| EditDistance.Metric | app/cli/CommandLineFlags.cpp:112-129 | zero iff equal, symmetric, triangle inequality, at least the difference of the lengths and at most the longer one |
| EditDistance.FillRow | app/cli/CommandLineFlags.cpp:118-125 | given the row above, the in-place pass leaves the next row of the table |
| EditDistance.ComputeEditDistance | app/cli/CommandLineFlags.cpp:112-129 | the two swapped rows end with the cost of a cheapest script |
| CommandLineFlags.FindIsFirst | app/cli/CommandLineFlags.cpp:101-107 | lookup finds the first flag of that name, and nothing only if there is none |
| CommandLineFlags.FindFlag | app/cli/CommandLineFlags.cpp:101-107 | the scan returns that flag |
| CommandLineFlags.BudgetIff | app/cli/CommandLineFlags.cpp:134-140 | a flag within two edits, or within a third of the length, is near enough, and no other is |
| CommandLineFlags.NearestFlag | app/cli/CommandLineFlags.cpp:131-146 | empty iff no flag is within two edits or one edit in three characters; otherwise the first of the flags at minimum distance |
| CommandLineFlags.ValidateCommandLine | app/cli/CommandLineFlags.cpp:156-184 | accepts iff no argument is an unknown option, values and what follows a bare "--" not counting; the error names the first one and its nearest flag |
| CommandLineFlags.RegisteredFlagValidates | app/cli/CommandLineFlags.cpp:167-183 | every flag of the table, with a value when it takes one, is accepted, whatever the value looks like |
| CommandLineFlags.ValidateOwnCommandLine | app/cli/CommandLineFlags.cpp:156-184 | the same over the program's own table, acceptance and error both |
| FiringRuns.RunsExact | app/diagnostics/SessionLedger.h:13-16 | the list of runs holds exactly the maximal runs, in order, with gaps between them |
| SessionLedger.SessionLedger.constructor | app/diagnostics/SessionLedger.h:106-109 | a new ledger is empty |
| SessionLedger.SessionLedger.Reset | app/diagnostics/SessionLedger.cpp:27-32 | discards everything and takes the new generation |
| SessionLedger.SessionLedger.FindEntry | app/diagnostics/SessionLedger.cpp:34-37 | the index of the first entry of that id |
| SessionLedger.SessionLedger.Observe | app/diagnostics/SessionLedger.cpp:48-140 | one evaluation makes of the ledger what `Observed` says id by id, and keeps ids unique and disjoint from the waiting ones |
| SessionLedger.SessionLedger.ObserveOne | app/diagnostics/SessionLedger.cpp:76-132 | one result touches its entry, waits, or enters |
| SessionLedger.SessionLedger.ObserveFacts | app/diagnostics/SessionLedger.cpp:49-74 | the compensated facts after the results of one evaluation |
| SessionLedger.SessionLedger.QuietFacts | app/diagnostics/SessionLedger.cpp:72-74 | facts that did not fire go inactive, the rest stay |
| SessionLedger.SessionLedger.CloseQuiet | app/diagnostics/SessionLedger.cpp:134-137 | exactly the active entries that did not fire are closed at `now` |
| SessionLedger.SessionLedger.DropQuiet | app/diagnostics/SessionLedger.cpp:138-139 | waiting ids that did not fire are forgotten |
| SessionLedger.SessionLedger.Freeze | app/diagnostics/SessionLedger.cpp:142-150 | open occurrences are closed at the end time, facts go inactive, waiting ids are forgotten, entries stay |
| SessionLedger.ObservedIsTidy | app/diagnostics/SessionLedger.cpp:86-131 | an evaluation keeps one entry an id and no id both entered and waiting |
| LedgerHistory.ObservedOneId | app/diagnostics/SessionLedger.cpp:76-140 | what an evaluation does to one id depends on that id's state and result alone, in whatever order the results come |
| LedgerHistory.StreamReads | app/diagnostics/SessionLedger.cpp:76-84 | the stream of an id holds exactly its results that are measured problems, for an id on the allow-list, with the times of their evaluations |
| LedgerHistory.ReplayMeetsOffline | app/diagnostics/SessionLedger.cpp:75-140 | after any evaluations the ledger knows of each id exactly what its maximal runs call for: count, occurrences with start and end, worst values and their texts, totals, times and wording; or that it waits; or nothing |
| LedgerHistory.FreezeMeetsOffline | app/diagnostics/SessionLedger.cpp:142-150 | the same after a freeze, with the open run ended at the freeze time |
| LedgerHistory.RecordedExact | app/diagnostics/SessionLedger.h:54-59 | the recorded runs are exactly the maximal runs not before the first one of two evaluations |
| LedgerHistory.EntryIffLongRun | app/diagnostics/SessionLedger.h:61-63 | an id has an entry iff some maximal run of it has at least two evaluations |
| LedgerHistory.MaxOverIsMax | app/diagnostics/SessionLedger.cpp:11-23 | the offline maximum is attained and bounds every measured value |
| LedgerHistory.WorstIsMax | app/diagnostics/SessionLedger.h:36-41 | an entry's worst value is the largest measured from its first recorded run on, and absent iff nothing was measured |
| LedgerHistory.WorstTextIsFirst | app/diagnostics/SessionLedger.cpp:11-23 | the text of an entry is that of the first evaluation that reached the worst value; where that one came without a text, the first one given without a number after it; where nothing was measured, the first one given at all from the first recorded run on, and empty iff there is none |
| LedgerHistory.OccurrenceWorstIsMaxIff | app/diagnostics/SessionLedger.cpp:88-97 | each occurrence of an entry shows the largest value measured in its run iff that is not negative or, for the first one, the two evaluations of the entry measured something; an unmeasured run shows zero |
| LedgerHistory.OccurrenceWorstIsMax | app/diagnostics/SessionLedger.cpp:94-97 | so where nothing negative is measured, every occurrence shows the attained maximum of its run, and zero when nothing was measured |
| LedgerHistory.OccurrenceWorstCanMiss | app/diagnostics/SessionLedger.cpp:88-97 | a trace of the ledger, firing twice, quiet, firing with -5, whose second occurrence reads 0 |
| LedgerConservation.ReachableKeeps | app/diagnostics/SessionLedger.cpp:48-150 | for non-decreasing times, every reachable ledger has unique ids, `count == \|occurrences\| >= 1`, ordered disjoint occurrences, entries sorted by first sight, totals equal to the closed lengths, and waiting ids that fired exactly once |
| LedgerConservation.ActiveTimeFits | app/diagnostics/SessionLedger.cpp:39-46 | an entry's active time is the sum of its stretches and at most the time since it was first seen |
| LedgerConservation.FreezeIsIdempotent | app/diagnostics/SessionLedger.cpp:142-150 | freezing again at any time changes nothing |
| LedgerConservation.EntriesStay | app/diagnostics/SessionLedger.h:56-59 | no evaluation or freeze removes or moves an entry, and counts never fall |
| LedgerConservation.FreezeIsAnEmptyEvaluation | app/diagnostics/SessionLedger.cpp:142-150 | a freeze leaves the ledger an evaluation without any result would |
| LedgerConservation.EventsMeetOffline | app/diagnostics/SessionLedger.cpp:48-150 | for evaluations and freezes in any order the ledger holds of each id what its maximal runs call for, a freeze ending the open run and forgetting what waits |
| LedgerConservation.FactsCountRuns | app/diagnostics/SessionLedger.cpp:49-74 | a compensated fact counts its maximal runs without debounce and is active while it fires |
| LedgerConservation.FactsTellTheirStream | app/diagnostics/SessionLedger.cpp:49-74 | a compensated fact has an entry iff it ever fired, worded and first seen by its first result, last seen at its last, with the worst value and text of all of them and none of what belongs to a measured problem |
| DiagnosticsController.DiagnosticsController.SetConfig | app/diagnostics/DiagnosticsController.cpp:1483-1486 | makes evaluations count and touches nothing else |
| DiagnosticsController.DiagnosticsController.SetLiveSnapshot | app/diagnostics/DiagnosticsController.cpp:1548-1559 | freezes the ledger exactly on the edge out of recording, at the new snapshot's time |
| DiagnosticsController.DiagnosticsController.FreezeLedger | app/diagnostics/DiagnosticsController.cpp:1565-1567 | freezes at the live snapshot's time |
| DiagnosticsController.DiagnosticsController.Evaluate | app/diagnostics/DiagnosticsController.cpp:1686-1707 | resets on a new generation, observes a snapshot at most once, and gives the recording verdict of the ledger it leaves; which evaluations observe is `LedgerMovesIff` |
| DiagnosticsController.DiagnosticsController.ComputeRecordingVerdict | app/diagnostics/DiagnosticsController.cpp:807-840 | blocked by blockers, ready iff none and the ledger is empty, with the counts of entries and active ones |
| DiagnosticsController.VerdictMeans | app/diagnostics/DiagnosticsController.cpp:807-840 | blocked iff some result is a blocker, ready iff none is and there is no entry; the counts are those of the blockers, of the entries and of the open ones |
| DiagnosticsController.LedgerMovesIff | app/diagnostics/DiagnosticsController.cpp:1686-1698 | on every run an evaluation of a configured, live session observes iff its generation or its time differs from that of the last live evaluation, or there was none; it resets iff the generation does; a freeze comes exactly with the snapshot that ends the recording, at its own time, or when asked for |
| DiagnosticsController.AlwaysReads | app/diagnostics/DiagnosticsController.cpp:1686-1698 | on every run each field of the controller is read off the calls: the snapshot in force, whether it was configured, the last measurement and its session |
| DiagnosticsController.TwoSnapshotsMakeAnEntry | app/diagnostics/DiagnosticsController.cpp:1689-1698 | two live snapshots of one session taken at different times and evaluated one after the other leave an entry for each problem that fires at both, and the verdict is not Ready |
| DiagnosticsController.ReevaluationIsIdle | app/diagnostics/DiagnosticsController.cpp:1689-1698 | once a snapshot is observed, any number of evaluations, configurations and redeliveries of it leave the ledger as it is |
| DiagnosticsController.LedgerIsOfOneGeneration | app/diagnostics/DiagnosticsController.cpp:1686-1698 | on every run the ledger is what the events since its last reset make of an empty one, all observations among them being of its own generation |
| DiagnosticsController.LedgerIsOfTheLiveSession | app/diagnostics/DiagnosticsController.cpp:1686-1698 | after an evaluation in a live session that generation is the live one |
| DiagnosticsController.EntriesOutlast | app/diagnostics/DiagnosticsController.cpp:1548-1567 | within a session entries keep place and id and counts only grow, whatever is called |
| DiagnosticsController.NeverReadyAgain | app/diagnostics/DiagnosticsController.cpp:824-834 | once an entry exists, no evaluation of that session reads Ready; it reads Warn iff there is no blocker |
| DiagnosticsController.BuildMarks | app/diagnostics/DiagnosticsController.cpp:1020-1031 | the marks are the occurrences of every entry, in order |
| DiagnosticsController.MarkTellsItsOccurrence | app/diagnostics/DiagnosticsController.cpp:1020-1031 | each occurrence has its own mark, behind those of the entries before it, with the name of its entry and its own start, end and worst value |
| DiagnosticsController.CountsAreOccurrences | app/diagnostics/DiagnosticsController.cpp:1020-1031 | on every run, times in any order, each entry counts its occurrences |
| DiagnosticsController.MarksOfARun | app/diagnostics/DiagnosticsController.cpp:1020-1035 | the marks of a session number the sum of its entries' counts |
| DiagnosticsController.RunIsTidy | app/diagnostics/DiagnosticsController.cpp:1686-1698 | the precondition of the next evaluation holds after every run |
| DiagnosticsController.RunMeetsOffline | app/diagnostics/DiagnosticsController.cpp:1686-1698 | on every run of the controller the ledger holds of each id what the maximal runs of its observed stream call for; that stream is read off the calls: which snapshots were evaluated, live and new, and when the recording ended |
| AppLog.AppLog.constructor | app/diagnostics/AppLog.cpp:294-303 | a new log is empty, numbers from one, and lets everything through |
| AppLog.AppLog.AppendToHistory | app/diagnostics/AppLog.cpp:284-292 | pushes one entry and drops from the front exactly what no longer fits |
| AppLog.AppLog.Write | app/diagnostics/AppLog.cpp:397-427 | a line below the minimum, or without one, changes nothing; any other is the newest entry of history and batch, exactly as given and with the next number; the oldest entry goes if the history was full, and a delivery has to be posted iff there can be one and none is on its way |
| AppLog.PassesIff | app/diagnostics/AppLog.cpp:85-91 | with a minimum, that severity and those above it pass, listed; without one nothing does |
| AppLog.WrittenRecords | app/diagnostics/AppLog.cpp:397-427 | what `Write` comes to, field by field |
| AppLog.AppLog.Clear | app/diagnostics/AppLog.cpp:443-451 | empties history and batch and forgets the scheduled delivery |
| AppLog.AppLog.DeliverPending | app/diagnostics/AppLog.cpp:596-612 | takes the whole batch and its eviction count, once |
| AppLog.WrittenIsWindow | app/diagnostics/AppLog.cpp:284-292 | a write keeps the history a window of consecutive numbers |
| AppLog.EntriesInSequenceRange | app/diagnostics/LogViewPolicy.cpp:56-67 | the loop selects, in order, exactly the entries whose number lies between the two ends, given in either order |
| AppLog.SelectionOnlyShrinks | app/diagnostics/LogViewPolicy.cpp:56-67 | whatever is written, cleared or delivered, a selection of numbered entries becomes a suffix of itself |
| AppLog.RangeOnlyShrinks | app/diagnostics/LogViewPolicy.h:30-40 | so a range below the next number shrinks and never slides onto other entries |
| AppLogDelivery.MirrorFollowsHistory | app/diagnostics/AppLog.cpp:397-459 | under any interleaving with clears on the log's own thread, the history is mirror plus batch less what was evicted, outside the gap of a clear; the mirror alone when nothing waits |
| AppLogDelivery.NoLostWakeUp | app/diagnostics/AppLog.cpp:405-426 | a waiting entry always has a delivery posted or about to be, stale deliveries or not |
| AppLogDelivery.CatchesUp | app/diagnostics/AppLog.cpp:596-612 | without another write or clear, the remaining steps are boundedly many in any order, leave the history alone, and when none is left the mirror is level iff nothing was overtaken |
| AppLogDelivery.HistoryIsWindow | app/diagnostics/AppLog.cpp:284-292 | on every run the history is at most `max_entries` consecutive numbers ending just below the next |
| AppLogDelivery.HistoryIsWhatWasRecorded | app/diagnostics/AppLog.cpp:397-413 | on every run the history is the newest `max_entries` of the lines written since the last clear that the minimum then in force let through, each as it was written, numbered from one over the whole run |
| AppLogDelivery.BatchIsWhatWasRecorded | app/diagnostics/AppLog.cpp:411-414 | and what waits is all of those since the last clear or delivery |
| AppLogDelivery.MirrorIsHistoryIff | app/diagnostics/AppLog.cpp:443-459 | with clears on any thread, once nothing waits and every signal has come, the mirror is the history iff no late signal overtook a batch taken since the last clear |
| AppLogDelivery.OwnClearsAreNotOvertaken | app/diagnostics/AppLog.cpp:453-455 | clears on the log's own thread alone never leave a signal to come late |
| AppLogDelivery.ForeignClearLosesAnEntry | app/diagnostics/AppLog.cpp:456-458 | a run in which the signal of a clear made elsewhere wipes an entry the history keeps |
| LogEntryModel.LogEntryModel.ResetTo | app/quick/ExoSnap/Quick/LogEntryModel.cpp:105-113 | takes over a list and the largest number in it |
| LogEntryModel.LogEntryModel.OnEntriesAppended | app/quick/ExoSnap/Quick/LogEntryModel.cpp:115-145 | drops at most its own rows from the front and appends the unseen entries |
| LogEntryModel.LogEntryModel.OnLogCleared | app/quick/ExoSnap/Quick/LogEntryModel.cpp:147-151 | empties the page |
| LogEntryModel.UnseenIsNews | app/quick/ExoSnap/Quick/LogEntryModel.cpp:121-129 | what a batch appends are its entries that are unnumbered or numbered above all that was seen and all before them, in order |
| LogEntryModel.FollowsIff | app/quick/ExoSnap/Quick/LogEntryModel.cpp:131-144 | the page ends up with the mirror's rows iff the batch evicts no more rows than it has |
| LogEntryModel.PageIsHistoryAndOffset | app/quick/ExoSnap/Quick/LogEntryModel.cpp:115-151 | over whole runs with clears on any thread, once everything has come, page and history end alike and the page is longer by the rows its batches evicted beyond those it had, less those a late signal wiped |
| LogEntryModel.PageIsHistoryIff | app/quick/ExoSnap/Quick/LogEntryModel.cpp:115-151 | with clears on the log's own thread, when nothing waits the page is the history iff no batch delivered since the last clear has more entries than the history can hold |
| LogEntryModel.BurstOutgrowsHistory | app/quick/ExoSnap/Quick/LogEntryModel.cpp:131-144 | for a history of any size, a run that leaves the page with one row more than the history |
| LogEntryModel.RedeliveryIsNoNews | app/quick/ExoSnap/Quick/LogEntryModel.cpp:121-129 | entries already seen change nothing |
| LogEntryModel.AttachedMidBatchIff | app/quick/ExoSnap/Quick/LogEntryModel.cpp:73-78 | attaching while entries wait: the next delivery leaves the page right iff its news evict no more than it took over and nothing was evicted before or everything goes |
| LogRotation.LogFile.constructor | app/diagnostics/AppLog.cpp:131-146 | a closed log over files left by earlier runs |
| LogRotation.LogFile.ReportSinkFailure | app/diagnostics/AppLog.cpp:119-127 | reports a failure unless one stands |
| LogRotation.LogFile.OpenLogFile | app/diagnostics/AppLog.cpp:131-146 | opens for append, or reports; a success ends the outage |
| LogRotation.LogFile.ShiftBackups | app/diagnostics/AppLog.cpp:172-177 | the downward loop leaves the files where the cascade of removes and renames puts them |
| LogRotation.LogFile.Push | app/diagnostics/AppLog.cpp:235-242 | a prefix of what is held back gets to the disk |
| LogRotation.LogFile.Close | app/diagnostics/AppLog.cpp:170-170 | one more flush of what is held back, and the rest dropped |
| LogRotation.LogFile.Rotate | app/diagnostics/AppLog.cpp:168-199 | shifts, reopens, takes the size from the file and latches a shift that did not help |
| LogRotation.LogFile.EnsureOpen | app/diagnostics/AppLog.cpp:201-218 | opens when closed and rotates a file that is already too large |
| LogRotation.LogFile.Write | app/diagnostics/AppLog.cpp:220-249 | one line: open, buffer, flush, count, rotate, with each failure's outcome; what a failed flush holds back stays buffered for the next |
| LogRotation.RenameKeepsOrder | app/diagnostics/AppLog.cpp:173-177 | a rename onto a free name keeps the files' text in order |
| LogRotation.ShiftDropsOldest | app/diagnostics/AppLog.cpp:172-177 | whatever is refused, one shift loses the text of the top slot or, if that cannot be removed, nothing |
| LogRotation.ShiftUnobstructed | app/diagnostics/AppLog.cpp:172-177 | with nothing refused, slot 0 is free and every slot holds what the one below it held |
| LogRotation.LineDropsOldest | app/diagnostics/AppLog.cpp:220-249 | one line loses exactly the top slots its rotations remove: with them in front, what the log has is what it had followed by the line, if the file accepted it |
| LogRotation.BelowCapNothingIsLost | app/diagnostics/AppLog.cpp:243-246 | a line that leaves the open file below the cap loses nothing |
| LogRotation.RunDropsOnlyTopSlots | app/diagnostics/AppLog.cpp:168-249 | for any slots and failures, the top slots that the rotations removed, the files oldest first and what the open file holds back are together exactly the initial text and every accepted line |
| LogRotation.CloseLosesNothing | app/diagnostics/AppLog.cpp:168-170 | the file is only ever closed with nothing held back, so it makes no difference what a close flushes or drops |
| LogOutages.RunIsCounted | app/diagnostics/AppLog.cpp:179-198 | whatever fails, the live file and what it holds back are the counter and the lines whose flush failed since it was opened; the rotation latch stands iff the counter is at or over the cap |
| LogOutages.CounterIsSizeIff | app/diagnostics/AppLog.cpp:228-243 | the counter is the open file's size iff all lines whose flush failed since it was opened are still held back; once something was flushed, iff there is none |
| LogOutages.LateFlushIsUncounted | app/diagnostics/AppLog.cpp:239-243 | a run in which a line whose flush failed comes out with the next one and is never counted |
| LogOutages.LiveStaysBelowCap | app/diagnostics/AppLog.cpp:243-246 | without obstructed rotations the live file and what it holds back stay below the cap and the lines whose flush failed since it was opened; below the cap where none has |
| LogOutages.EveryOutageIsReportedOnce | app/diagnostics/AppLog.cpp:118-146 | whatever fails, each maximal outage of the file and each maximal stretch of failed rotations is reported once, and each end of an outage once |
| LogOutages.SinkDownIff | app/diagnostics/AppLog.cpp:119-146 | the flag is down iff some attempt failed and no open succeeded since |
| LogOutages.HealthAgreesIff | app/diagnostics/AppLog.h:73-80 | flag and documentation agree except after a line written while the flag was down |
| LogOutages.HealthStaysBad | app/diagnostics/AppLog.cpp:228-243 | a refused line and one that is written leave the flag at unhealthy |
| PresentProtocol.OpenMeansConsuming | app/diagnostics/PresentMonEtwSession.cpp:133-143 | `IsOpen` implies that the latest generation's consumer is between its two stores |
| PresentProtocol.BetweenOperations | app/diagnostics/PresentMonEtwSession.cpp:54-88 | between operations open, joinable, backend set and signal set are one thing |
| PresentProtocol.UiNeverStuck | app/diagnostics/PresentMonEtwSession.cpp:261-316 | `Start` never assigns over a joinable thread, a join only follows a published end, and the UI thread can always go on |
| PresentProtocol.EachThreadReleasedOnce | app/diagnostics/PresentMonEtwSession.cpp:279-307 | each spawned thread is held, or was joined or detached exactly once |
| PresentProtocol.ClosedNeverLogs | app/diagnostics/PresentMonEtwSession.cpp:271-278 | a consumer that returned because it was closed never logs an unrequested end |
| PresentProtocol.UnrequestedEndIsLogged | app/diagnostics/PresentMonEtwSession.cpp:70-81 | at its check a consumer logs iff no stop was requested, and then the trace did end alone |
| PresentProtocol.DetachedCannotInterfere | app/diagnostics/PresentMonEtwSession.cpp:61-87 | no step of an earlier generation changes what the session's operations can see or do |
| PresentProtocol.UiComesBack | app/diagnostics/PresentMonEtwSession.cpp:280-316 | in any interleaving with consumers and traces, `Start` and `Stop` end within six steps of the UI thread, which always has one to take |
| PresentProtocol.EndedTraceNeedsStop | app/diagnostics/PresentMonEtwSession.cpp:21-23 | an open session can become readable without `Stop` iff its consumer has not stopped; `Start` changes nothing |
| PresentProtocol.ATraceCanEndUnnoticed | app/diagnostics/PresentMonEtwSession.cpp:64-88 | a run in which the first trace ends by itself and the session still counts as open |
| PresentAccumulator.PresentAccumulator.Observe | app/diagnostics/PresentAccumulator.h:25-34 | folds one present into the totals |
| PresentAccumulator.PresentAccumulator.Reset | app/diagnostics/PresentAccumulator.h:38-40 | returns to the empty totals |
| PresentAccumulator.TotalsAreCounts | app/diagnostics/PresentAccumulator.h:17-34 | the totals count all presents, the discarded ones, and the unequal neighbours among the classified modes |
| PresentSession.PresentSession.constructor | app/diagnostics/PresentMonEtwSession.cpp:14-19 | a new session is closed and measures nothing |
| PresentSession.PresentSession.Start | app/diagnostics/PresentMonEtwSession.cpp:21-60 | an opening start begins with empty totals and no sample |
| PresentSession.PresentSession.SetTargetProcessId | app/diagnostics/PresentMonEtwSession.cpp:91-97 | every call empties totals, sample and the last timestamp |
| PresentSession.PresentSession.Stop | app/diagnostics/PresentMonEtwSession.cpp:308-321 | empties what belongs to the trace and keeps the attribution |
| PresentSession.PresentSession.DrainOne | app/diagnostics/PresentMonEtwSession.cpp:191-237 | one drained event: related ones are counted and replace the sample |
| PresentSession.PresentSession.Latest | app/diagnostics/PresentMonEtwSession.cpp:149-259 | no sample while nothing is consuming or the target exited; otherwise the sample after draining, and when the batch is noted |
| PresentSession.SampleCountsTheWindow | app/diagnostics/PresentMonEtwSession.cpp:227-236 | an available sample's totals are, modulo 2^32, the counts over exactly the related events drained since the last boundary |
| PresentSession.RunMeasures | app/diagnostics/PresentMonEtwSession.cpp:175-247 | totals, last timestamp, attributed process, mode, tearing and interval of every run are those of that window: the interval is the time between its last two events, and none where it cannot be told |
| PresentSession.ModeOfCode | app/diagnostics/PresentModeMapping.cpp:11-26 | codes 1 and 2 are exclusive fullscreen, 3 and 8 independent flip, 4 to 6 composed, and all others unknown |
| PresentSession.RelatedIff | app/diagnostics/PresentMonEtwSession.cpp:204-207 | an event counts iff the target is process 0, its own process, or in its list of related ones |
| PresentSession.ReadingCountsItsBatch | app/diagnostics/PresentMonEtwSession.cpp:238-242 | a reading counts all events of its batch and those that concern the target, modulo 2^32 |
| PresentSession.OpenAndTarget | app/diagnostics/PresentMonEtwSession.cpp:91-97 | on every run the session is open iff a start opened it and no stop came since, and its target is the last one set |
| PresentSession.BatchingIsIrrelevant | app/diagnostics/PresentMonEtwSession.cpp:191-237 | any two ways to cut the same events into batches leave the same totals, timestamp and sample, but for the counts of the last batch |
| PresentSession.LastProcessIff | app/diagnostics/PresentMonEtwSession.cpp:199-236 | the sample names the last drained process iff that event was not counted or had no process |
| PresentSession.LastProcessIsLost | app/diagnostics/PresentMonEtwSession.cpp:223-236 | a counted present at the end of a batch leaves no process named |
| PresentSession.NoteLatchIff | app/diagnostics/PresentMonEtwSession.cpp:245-255 | the note's latch stands iff some batch was all foreign and no present was attributed since |
| PresentSession.AtMostOneNoteIff | app/diagnostics/PresentMonEtwSession.cpp:245-255 | a window is noted at most once iff no attributed batch stands between two foreign ones of which the first follows, in or before the window, no foreign one since the last attributed |
| PresentSession.ForeignWindowNotedIff | app/diagnostics/PresentMonEtwSession.cpp:245-255 | a window without attributed batches gets its one note iff it has a foreign batch and none came before it since the last attributed one |
| PresentSession.OneWindowNotedTwice | app/diagnostics/PresentMonEtwSession.cpp:245-255 | foreign, attributed, foreign is noted twice in one window |
| PresentSession.ForeignWindowUnnoted | app/diagnostics/PresentMonEtwSession.cpp:245-255 | a run in which a window of foreign presents only is not noted, the latch being up at its boundary |
| WindowCaptureStall.WindowCaptureStallMonitor.Observe | app/diagnostics/WindowCaptureStall.cpp:43-89 | the new state and signal of one sample |
| WindowCaptureStall.WindowCaptureStallMonitor.ApplyVerdict | app/diagnostics/WindowCaptureStall.cpp:91-101 | answers an open question, and only an open one |
| WindowCaptureStall.WindowCaptureStallMonitor.Reset | app/diagnostics/WindowCaptureStall.cpp:103-111 | forgets everything |
| WindowCaptureStall.AlwaysHasBaseline | app/diagnostics/WindowCaptureStall.cpp:48-80 | on every trace the baseline is a sample from which session, eligibility and frame count have stood still |
| WindowCaptureStall.StarvedIff | app/diagnostics/WindowCaptureStall.cpp:81-88 | `Starved` iff nothing has moved for ten seconds while frames were expected of a window or display, and no question was asked since the last progress, new session or reset |
| WindowCaptureStall.WithoutProgressIsLongest | app/diagnostics/WindowCaptureStall.cpp:63-81 | the time without progress is that since the earliest sample that stands still up to this one, and none where something moved or no frames were expected |
| WindowCaptureStall.RecoveredIff | app/diagnostics/WindowCaptureStall.cpp:72-79 | `Recovered` iff this is the first progress after a confirmed stall |
| WindowCaptureStall.PhaseAlwaysSays | app/diagnostics/WindowCaptureStall.h:183-189 | the phase tells exactly whether a question stands, is unanswered, or was confirmed |
| WindowCaptureStall.EpisodesAreConfirmedStalls | app/diagnostics/WindowCaptureStall.h:171-175 | the episodes are the stalls confirmed in the session |
| WindowTargetFacts.CoversEveryPixel | app/diagnostics/WindowTargetFacts.cpp:15-20 | on a monitor with an area, the edge comparison says that no pixel of it is exposed |
| WindowTargetFacts.FullscreenShapedIff | app/diagnostics/WindowTargetFacts.cpp:8-34 | fullscreen-shaped iff valid, visible, neither minimized nor cloaked, leaving no pixel of the monitor exposed, with no sizing-frame bit and at most one of the two caption bits |
| WindowTargetFacts.StalledIff | app/diagnostics/WindowCaptureStall.cpp:19-37 | reported iff the window looks that way; legitimate iff it is gone, hidden, minimized or cloaked |
| WindowTargetFacts.CauseIff | app/diagnostics/WindowCaptureStall.cpp:9-17 | minimized is claimed iff it is, and exclusive fullscreen iff the window looks that way and one of the two observations says so |
| WindowTargetFacts.CauseRefinesOnly | app/diagnostics/WindowCaptureStall.h:119-124 | the fullscreen observation never changes the verdict, and a claimed cause is one that is reported |
| WindowEvidence.WindowEvidenceAccumulator.Reset | app/diagnostics/WindowEvidenceAccumulator.cpp:5-14 | the fields are those of the events so far with this reset |
| WindowEvidence.WindowEvidenceAccumulator.Update | app/diagnostics/WindowEvidenceAccumulator.cpp:16-40 | the fields are those of the events so far with this sample, which begins a subscription when there is none |
| WindowEvidence.WindowEvidenceAccumulator.Evidence | app/diagnostics/WindowEvidenceAccumulator.cpp:42-54 | the latest kind, whether a new frame came in the latest fullscreen stretch, and two clocks that have run for any `d` iff the subscription is that old and no new frame came for that long |
| WindowEvidence.AlwaysReads | app/diagnostics/WindowEvidenceAccumulator.cpp:5-40 | on every trace each field is its quantified fact: the last numbered sample, the last new frame, a new frame in the latest fullscreen stretch |
| WindowEvidence.ClocksMean | app/diagnostics/WindowEvidenceAccumulator.cpp:42-52 | the two clocks say how old the subscription is and that no new frame came for that long |
| WindowEvidence.ProvenBlackIff | app/diagnostics/WindowTargetFacts.cpp:36-63 | ProvenBlack iff the window looks fullscreen, in terms of its pixels and style bits, and either nothing is there two seconds into the subscription, or a held frame with no new one in the latest stretch nor in the last two seconds; Suspected iff it looks so, nothing is proven, and there is a signal |
| WindowEvidence.StillPictureIsNotBlack | app/diagnostics/WindowTargetFacts.h:53-58 | a frame in the latest stretch rules the freeze out however long the picture then stays still |
| AudioSourceDegradation.AudioSourceDegradationMonitor.Observe | app/diagnostics/AudioSourceDegradation.cpp:10-57 | the new state and signal of one sample |
| AudioSourceDegradation.AudioSourceDegradationMonitor.Reset | app/diagnostics/AudioSourceDegradation.cpp:59-67 | drops latch and count, keeps the generation |
| AudioSourceDegradation.HeardOfIff | app/diagnostics/AudioSourceDegradation.cpp:30-38 | a lost source is heard of iff a valid snapshot of a recording, paused or not, reports at least one, and then with its count and kinds |
| AudioSourceDegradation.HighWater | app/diagnostics/AudioSourceDegradation.cpp:60-63 | the generation kept is the highest seen, resets or not |
| AudioSourceDegradation.HighWaterOnlyRises | app/diagnostics/AudioSourceDegradation.cpp:60-63 | it never goes back |
| AudioSourceDegradation.StaleSamplesDoNotMatter | app/diagnostics/AudioSourceDegradation.cpp:11-19 | the state is the one reached without the samples of finished recordings, resets anywhere |
| AudioSourceDegradation.StaleSamplesAreSilent | app/diagnostics/AudioSourceDegradation.cpp:11-19 | and those samples signal nothing |
| AudioSourceDegradation.LatchIsTheLastHeard | app/diagnostics/AudioSourceDegradation.cpp:30-55 | the latch is what the last heard sample reported, empty when there is none since a reset |
| AudioSourceDegradation.AnnouncedIff | app/diagnostics/AudioSourceDegradation.h:62-70 | Raise iff a degraded set differs from the standing one, Clear iff a standing set is gone, nothing otherwise |
| AudioSourceDegradation.EpisodesAreOutages | app/diagnostics/AudioSourceDegradation.cpp:49-53 | the episodes are the changes from healthy to degraded in the recording |
| AudioSourceDegradation.OpeningNeverClears | app/diagnostics/AudioSourceDegradation.cpp:24-46 | the first sample of another recording raises what it reports or says nothing, and never clears what stood for the last one |
| AudioSourceDegradation.NewSessionGivesNoClear | app/diagnostics/AudioSourceDegradation.h:62-70 | two recordings fed to the monitor back to back get no Clear |
| NoticeBoard.ShownIsLatchIff | app/quick/ExoSnap/Quick/QuickApplication.cpp:2593-2622 | notice and latch agree iff, since both last took a value, either both or neither of them alone has let go of it |
| RecordingNotices.RecordingNotices.OnStateChanged | app/quick/ExoSnap/Quick/QuickApplication.cpp:756-796 | a fresh start resets both monitors and takes both notices down, leaving takes the notices down, a resume does neither |
| RecordingNotices.RecordingNotices.ObserveStall | app/quick/ExoSnap/Quick/QuickApplication.cpp:2433-2532 | the stall monitor sees the snapshot, a starved capture is answered at once, and the notice follows |
| RecordingNotices.RecordingNotices.ObserveAudio | app/quick/ExoSnap/Quick/QuickApplication.cpp:2584-2622 | the audio monitor sees the snapshot and the notice follows its signal |
| RecordingNotices.RecordingNotices.OnDiagnostics | app/quick/ExoSnap/Quick/QuickApplication.cpp:861-862 | one snapshot for both |
| RecordingNotices.RunIsSane | app/quick/ExoSnap/Quick/QuickApplication.cpp:2459-2503 | between events no starved capture is left unanswered |
| RecordingNotices.MonitorsFollowTheirTraces | app/quick/ExoSnap/Quick/QuickApplication.cpp:2433-2471 | in every run each monitor is where its own trace leaves it |
| RecordingNotices.WhatMovesMean | app/quick/ExoSnap/Quick/QuickApplication.cpp:2462-2532 | exactly when each notice goes up, is taken down, is dropped by a new session or is hidden by a state change, in terms of the snapshot's fields and the state; a stall notice goes up iff a recording of a known source has stood still for ten seconds and its window looks fullscreen, or its display is off or missing |
| RecordingNotices.NoticesAreExactIff | app/quick/ExoSnap/Quick/QuickApplication.cpp:756-796 | each notice shows what its monitor holds iff, since the last thing put up, a new session was opened over it and the page was left, or neither |
| RecordingNotices.AudioAlwaysReads | app/quick/ExoSnap/Quick/QuickApplication.cpp:2584-2622 | on every run the audio monitor holds the newest session seen and what its last snapshot since the start reported |
| RecordingNotices.PutsUpIff | app/quick/ExoSnap/Quick/QuickApplication.cpp:2584-2622 | the audio notice goes up iff a snapshot of no older session reports a set of lost sources that the last one of its session since the start did not |
| RecordingNotices.AudioNoticeEndsWithItsRecording | app/quick/ExoSnap/Quick/QuickApplication.cpp:778-785 | when the page is left between sessions, a shown audio notice is of the session of all later snapshots, not left since, and exactly what the monitor holds |
| RecordingNotices.StallNoticeEndsWithItsRecording | app/quick/ExoSnap/Quick/QuickApplication.cpp:778-785 | likewise a shown stall notice, which its monitor still reports |
| RecordingNotices.EndIsAnnounced | app/services/RecordingCoordinator.cpp:3283-3292 | a snapshot of the old session that is not live draws the one Clear owed and leaves nothing to drop |
| RecordingNotices.NoticeElsewhereIff | app/quick/ExoSnap/Quick/QuickApplication.cpp:778-785 | away from a recording the audio notice shows iff some snapshot since the page was left reported a new set of lost sources, and of those heard since, those of its session still report one and those of newer sessions do not |
| RecordingNotices.LateSnapshotRaises | app/services/RecordingCoordinator.cpp:1573-1579 | a run in which a live snapshot queued behind the state change puts it up |
| PipelineDrops.PipelineCardBuilder.Reset | app/diagnostics/DiagnosticsController.cpp:1240-1245 | forgets the baseline |
| PipelineDrops.PipelineCardBuilder.BuildLive | app/diagnostics/DiagnosticsController.cpp:1309-1318 | the drops since the last snapshot of the session |
| PipelineDrops.OpeningShowsNone | app/diagnostics/DiagnosticsController.cpp:1305-1314 | the first snapshot of a session shows no drops |
| PipelineDrops.DropsTelescope | app/diagnostics/DiagnosticsController.cpp:1305-1318 | over a session with a growing counter the shown drops never exceed the loss, and are all of it iff no step outran 32 bits |
| PipelineDrops.ALargeStepIsLost | app/diagnostics/DiagnosticsController.cpp:1315-1316 | a step of exactly 2^32 lost frames shows none |

## Left out

- Win32, ETW, DXGI and COM probes: their results are arguments of the model.
- The recommendation engine's checks: an evaluation is any list of results, and the allow-list of live-measured ids is a set.
- Repeated admitted ids within one evaluation: `Observe` requires them distinct, as the engine's checklist provides them.
- Times that run backwards: the ledger's conservation laws require non-decreasing times, since only the active total is clamped.
- Report, bundle, benchmark and zip writers, JSON and hashing: plumbing over libraries.
- UI wording: headlines, sublines, tile and label texts; the recording verdict keeps its state and counts.
- The readiness verdict outside a recording, and top issues: finite case tables.
- The controller's reset of the capture card on leaving a recording: the card is modelled by itself.
- Log timestamps, trimming, formatting, the Qt message handler, case-insensitive search, and behaviour after quitting has begun.
- Newline translation of the text-mode log file, and `resetForTesting` and path overrides.
- Log file errors other than a refused open, remove, rename, write or flush; a file buffer that flushes by itself when it is full.
- The attributed process's handle and the line logged at its death: whether it has exited is an argument.
- AppLogDelivery: the order of the log thread's event queue; queued deliveries and signals may run in any order.
- The sample's lists of process ids.
- Memory order of the atomics: steps are sequentially consistent; the five-second wait either sees the end or times out.
- The visual scenarios that seed a page state or a notice for screenshots.
- The dropping of older sessions' snapshots before they are queued: the notices' theorems hold without it, given that the page is left between sessions.
- Wrap-around of the program's own 32-bit occurrence and episode counts and of 64-bit sequence numbers.
- The engine's frame-rate and queue verdicts of the pipeline cards: threshold tables.
- Auto-record, production bootstrap, the live-verify dispatcher: timers, event loops and command tables.
