# A verification model of the gfm application layer

gfm is a file manager for macOS with a background indexer. Its application layer runs workers that read
untrusted files, recognize text, build an incremental content index and keep small persistent stores, all of
it cancellable at any moment. This project models the protocols and text formats of that layer in Dafny and
proves what they keep, over whole runs and against every schedule of cancellations, refusals and answers of
the surroundings.

`dafny verify dfyconfig.toml` checks the whole project.

## How the surroundings are modelled

* **Cancellation** is sticky, so a token is one number: how many polls still pass. Every run takes that number
  and the number of polls its opaque sub-steps make as inputs; a lemma about all inputs is a lemma about every
  cancellation point.
* **A checked store write** polls, renames the temporary file over the store, and polls once more. That last
  poll is why a write can report failure although the store was replaced (`Control.StoreFile.WriteChecked`).
* **Access effects** (volume discovery, volume gate, permission refresh, evaluation, bookmark lookup, metadata
  probes) are answered by an adversary that may answer the same question differently at every position of the
  trace.
* **Processes and clocks** are scripted: the child's wait answers and the drift of the monotone clock are
  arbitrary functions, and the supervisor is a function of them and of the token.
* Recognition and extraction results are inputs of a run.
* **Preconditions** of operations are the source's types: `U32_MAX`, `U64_MAX` and `U128_MAX` bounds are its
  integer widths, and a queue of distinct candidates is what its queue reader always yields
  (`OcrStores.ReadQueueIsDistinct`). Lemmas about one situation say which:
  `WriteProbe.EndsAtExistingPathIff` is about hosts whose root and current directory exist and whose metadata can
  be read, `ContentRuns.RetriedJobIsFreshIff` about a retry that sees the same snapshot (another snapshot is left to
  `ContentDelta.NextIsFreshIff`), `OcrRuns.FailingCandidateAttempts` about runs that all replace the quarantine
  (`AttemptsWithinBudget` is about any runs), and `Admission.PreflightAgreesWithAdmission` about worker names that do
  not spell the marker phrase (`AdmissionSeesVolumeBlock` is about every name).

## The modules

| module | what it models |
|---|---|
| `Numbers`, `Text`, `Utf8` | saturating counters; the chained-replace escape and its reader, decimal numerals, splitting, trimming; UTF-8 (section 3 of RFC 3629) |
| `StoreFormat` | the line format the persisted stores share |
| `Control` | the cancellation token and checked store writes |
| `Fingerprint` | the keys the stores are indexed by |
| `QuarantineStore`, `ExtractionRuns` | the extraction quarantine, its text, one quarantined run, any sequence of runs |
| `Diagnostics` | escaped, bounded failure reasons |
| `Supervisor` | the poll loop around the worker process, and its caller that owns the scratch files |
| `Sandbox` | the sandbox profile, a reader for it, and what it decides |
| `OcrRecognition`, `OcrWorker`, `OcrRuns`, `OcrStores` | recognizing one candidate, one OCR run on two stores, any sequence of runs, the text of the stores |
| `Intents`, `Paths`, `Access`, `AccessLaws`, `AccessPolls`, `AccessReports`, `Admission` | the access protocol as an effect trace, its laws, the report constructors, worker admission |
| `ContentDelta`, `ContentJob`, `ContentRuns` | the incremental index, one background job with its retries, the stores over attempts, jobs and restarts |
| `Recovery` | what a restart recovers from the journal and the progress store |
| `RetryProbe` | the attempt counter of the retry probe |
| `VolumeRow` | the volume-access row of the index commands |
| `WriteProbe` | the walk to an existing place to write |

## Where the code does less than one might expect

Each of these is kept as the code has it and given its exact condition for all inputs; where the condition is
not itself a list of the inputs concerned, another lemma gives one.

* A cancelled extraction run can still change its store: the token may run out between the rename and the last
  poll. `ExtractionRuns.CancelledFailureStore` says that for a failing worker this is the only way,
  `CancelledRunCanPersist` gives an input.
* The threshold stored with an extraction quarantine wins over the one a later caller passes
  (`ExtractionRuns.StoredThresholdIsFixed`, with `BlockedIffStreak` for the decision and `StoredThresholdWins` for
  an input).
* A content job that stops between writing its records and its content, and is retried, can complete with an
  index that keeps the old terms of a changed file. `ContentRuns.RetriedJobIsFreshIff` gives the exact
  condition, `RetryLosesUpdate` a job of two attempts that the pool reports as completed.
* Callers recognize a volume block by searching the admission's reason for a phrase, which a worker's own name
  can contain (`Admission.AdmissionSeesVolumeBlock`, `MarkerCanBeSpoofed`). Preflight and admission evaluate a
  read-only system root each for themselves, and agree exactly if those two evaluations do
  (`Admission.PreflightAgreesWithAdmission`).
* The write-probe walk ends at the empty path for a relative path of several names none of whose leading
  directories exists (`WriteProbe.EndsAtExistingPathIff`, `WalkCanEndNowhere`).
* A cancellation first seen inside the supervisor's pause leaves the child running. `Supervisor.ExitIff` says when
  that is, for every script and token; `ChildCanSurvive` gives a script. The scratch files go nevertheless, since
  the caller drops them on every way out (`Supervisor.RunWorker`).
* The OCR report's `quarantined` counts both blocked candidates and those that reach the threshold in this run,
  which are counted by their status as well. The printed counters add up to the queue if and only if no candidate
  does the latter (`OcrRuns.CompletedRunCounts`, `CountersAddUpIff`; `CountersCanExceed` gives a run).
* The optional read of the recognition cache is probed without a preflight of its own. A job report that reaches it
  has gated exactly the directories of its write targets and of its queue, so the directory of the cache was gated
  if and only if it is one of these (`AccessReports.CacheProbe`; `CacheProbeIsUngated` gives the reports where it
  was not).
* The reason columns of a volume row print a missing reason, one made of whitespace other than tabs and line ends,
  and a literal `-` alike (`VolumeRow.ReasonColumn`), and an empty diagnostic and `-` print alike (`Diagnostics.EscapedTailCollision`).

## Model

| member | source | states |
|---|---|---|
| `Text.ChainIsOnePass` | crates/app/src/index.rs:1457-1463 | the four chained whole-string replaces are one left-to-right pass: none rewrites the output of an earlier one |
| `Text.EscapeFieldRoundTrip` | crates/content/src/quarantine.rs:321-350 | the store reader undoes the escape for every text, and an escaped text holds no raw tab, line feed or carriage return |
| `Text.SplitJoin` | crates/content/src/quarantine.rs:233-236 | splitting at a separator gives back the joined pieces when none holds it |
| `Text.ParseDec` | crates/content/src/quarantine.rs:378-382 | a printed number parses back exactly if it fits the integer width, and fails otherwise |
| `Utf8.EncodeInjective` | crates/app/src/extract.rs:421-433 | different texts have different encodings |
| `Utf8.BoundaryCutsCharacters` | crates/app/src/extract.rs:427-432 | a byte position that passes the boundary test falls between two characters |
| `Utf8.BoundaryWithinThree` | crates/app/src/extract.rs:427-432 | walking back from any position meets a boundary within three bytes |
| `Utf8.DecodeEncode` | crates/content/src/ocr.rs:938-952 | decoding an encoded text gives the text |
| `Utf8.EncodeDecode` | crates/content/src/ocr.rs:938-952 | bytes the decoder accepts are the encoding of its result, so overlong and surrogate forms are refused |
| `Control.Cancellation.Check` | crates/jobs/src/cancel.rs:54-60 | a poll passes exactly while polls are left; failures are sticky |
| `Control.Cancellation.CheckTimes` | crates/jobs/src/cancel.rs:54-60 | a row of polls passes exactly if all of them do, and a failed row leaves the token spent |
| `Control.StoreFile.WriteChecked` | crates/content/src/quarantine.rs:141-200 | the store is the old or the new value, new exactly if the polls up to the rename passed and the file system agreed; success needs one more poll |
| `Control.WriteNeeds` | crates/content/src/quarantine.rs:141-200 | which number of polls a write needs to replace its store, and one more to succeed |
| `Fingerprint.CacheKeyInjective` | crates/content/src/report.rs:98-108 | a cache key stands for one path in one state, for all paths, colons and digits included |
| `Fingerprint.QueueKeyInjective` | crates/content/src/ocr.rs:50-56 | a queue key stands for one candidate |
| `StoreFormat.ReadingsAreFiled` | crates/content/src/ocr.rs:354-398 | whatever a readable store file holds, each entry is filed under its own key and the threshold fits |
| `StoreFormat.StoreRoundTrip` | crates/content/src/quarantine.rs:141-283 | a written store reads back as the same entries and threshold in any entry order, if each entry is read back from its own cells |
| `StoreFormat.ReadableIff` | crates/content/src/quarantine.rs:206-283 | a text is readable if and only if its first line is the header, every other line is a number line that parses, an entry that parses or begins with an empty cell, and the last schema line holds the format's number; a text without lines and one with another header fail as such |
| `StoreFormat.ThresholdIs` | crates/content/src/quarantine.rs:206-283 | the threshold read is that of the last threshold line, and there is none exactly if no line is one |
| `StoreFormat.StoreLayout` | crates/content/src/quarantine.rs:141-186 | the lines of a written store: header, schema, threshold if the format has one, and one line per entry in order, which splits into the row name and the entry's cells |
| `QuarantineStore.ExtractionQuarantine.BeforeExtract` | crates/content/src/quarantine.rs:82-94 | a key is refused exactly if its recorded failures reach the threshold |
| `QuarantineStore.ExtractionQuarantine.RecordFailure` | crates/content/src/quarantine.rs:286-312 | one failure is added to the key's entry, nothing else changes, and the answer is the entry exactly if it now blocks |
| `QuarantineStore.ExtractionQuarantine.RecordSuccess` | crates/content/src/quarantine.rs:128-135 | the key's entry is gone and nothing else changes |
| `QuarantineStore.QuarantineRoundTrip` | crates/content/src/quarantine.rs:141-283 | a written extraction quarantine reads back as the same quarantine, whatever its paths, keys and reasons hold |
| `QuarantineStore.QuarantineLayout` | crates/content/src/quarantine.rs:141-186 | the written extraction quarantine line by line: the literal header, schema 1, the threshold, and key, path, kind, count and reason of every entry in their columns |
| `QuarantineStore.ReadThreshold` | crates/content/src/quarantine.rs:206-283 | without a threshold line an extraction quarantine has threshold two; otherwise the last line counts, and zero reads as one |
| `QuarantineStore.EntryReadsIff` | crates/content/src/quarantine.rs:242-269 | which cells read as an entry, and as which |
| `QuarantineStore.OperationsKeepWellFormed` | crates/content/src/quarantine.rs:75-135 | every operation keeps a quarantine one that can be written and read back |
| `ExtractionRuns.RunQuarantinedWorker` | crates/app/src/extract.rs:315-360 | one run, as a function of the store: its answer, the store it leaves and whether the worker was launched, for every cancellation point and refusal |
| `ExtractionRuns.RunAnswers` | crates/app/src/extract.rs:315-360 | which polls and refusals give which answer of a run |
| `ExtractionRuns.RecordedEntry` | crates/app/src/extract.rs:342-358 | the entry a recorded failure leaves: path, kind, reason and one failure more |
| `ExtractionRuns.BlockedMeansInert` | crates/app/src/extract.rs:336-341 | a blocked file launches nothing and writes nothing; nothing else is refused once the decision is reached |
| `ExtractionRuns.AnsweredRunEffect` | crates/app/src/extract.rs:342-360 | a success clears the entry, a failure adds exactly one, no other entry moves, and the answer reports the block exactly when the count reaches the threshold |
| `ExtractionRuns.TimedOutIsStored` | crates/app/src/extract.rs:391-419 | a worker the supervisor gave up on is stored as a timeout, whatever its path and its diagnostics name |
| `ExtractionRuns.UnansweredRunStore` | crates/app/src/extract.rs:342-360 | a run without an answer leaves the store as it was, except when the token runs out between the rename and the last poll |
| `ExtractionRuns.CancelledFailureStore` | crates/app/src/extract.rs:350-358 | a cancelled run of a failing worker changes the store if and only if its file was not blocked and the token ran out exactly there |
| `ExtractionRuns.CancelledRunCanPersist` | crates/content/src/quarantine.rs:187-195 | an input for which it does |
| `ExtractionRuns.StoreCountsStreaks` | crates/app/src/extract.rs:315-360 | over any sequence of runs the store holds, for every key, exactly the failures recorded since its last recorded success |
| `ExtractionRuns.StoredThresholdIsFixed` | crates/app/src/extract.rs:370-383 | the threshold of a store never changes, whatever later callers pass |
| `ExtractionRuns.StoredThresholdWins` | crates/app/src/extract.rs:370-383 | a caller asking for five failures that is refused after one |
| `ExtractionRuns.BlockedIffStreak` | crates/app/src/extract.rs:336-341 | after any sequence of runs, a run is blocked exactly if its key's streak has reached the threshold in force |
| `ExtractionRuns.RepeatedFailures` | crates/app/src/extract.rs:315-360 | a file that keeps failing is launched until its count reaches the threshold and never after |
| `ExtractionRuns.FromNoStore` | crates/content/src/quarantine.rs:75-80 | from no store and a caller's threshold, a failing file is launched the smaller of the number of runs and the threshold, where zero counts as one |
| `ExtractionRuns.FirstRun` | crates/app/src/extract.rs:370-383 | the first persisted run creates a store with the caller's threshold, at least one, and its failure is answered as blocking if and only if that is one |
| `ExtractionRuns.ChangedFileIsNotCounted` | crates/app/src/extract.rs:315-360 | runs on one fingerprint never count against another fingerprint of the same path |
| `ExtractionRuns.ReachableStoreReadsBack` | crates/app/src/extract.rs:370-383 | every store a sequence of runs leaves is read back as the value the next run starts from |
| `ExtractionRuns.WorkerFailureIsBounded` | crates/app/src/extract.rs:391-433 | the classified reason is one line of at most 24 + 2 + 4096 bytes, for every message |
| `ExtractionRuns.FailureClasses` | crates/app/src/extract.rs:391-419 | the class of a worker's message by the words it holds: timeout before encrypted before corrupt, else a crash, and the reason of each |
| `ExtractionRuns.CaseDoesNotMatter` | crates/app/src/extract.rs:391-392 | messages that differ in letter case only are classified alike |
| `ExtractionRuns.StoredReasonsStayBounded` | crates/app/src/extract.rs:350-358 | whatever the workers print, no sequence of runs stores a longer or a broken reason |
| `Diagnostics.EscapeDiagnosticTail` | crates/app/src/extract.rs:760-778 | the loop computes the one-pass escape that the lemmas below are about |
| `Diagnostics.ControlTakesTwoDigits` | crates/app/src/extract.rs:771-773 | every control character left for the hexadecimal form takes exactly two digits, which name it |
| `Diagnostics.EscapedTailHasNoControl` | crates/app/src/extract.rs:760-778 | no control character survives the escape |
| `Diagnostics.EscapedTailDecodes` | crates/app/src/extract.rs:760-778 | the escape of every non-empty text can be undone |
| `Diagnostics.EscapedTailCollision` | crates/app/src/extract.rs:761-763 | two texts print alike exactly if they are equal or are the empty text and a dash |
| `Diagnostics.CutDecodesToPrefix` | crates/app/src/extract.rs:421-433 | however an escaped text is cut, its complete tokens decode to a prefix of the original |
| `Diagnostics.WorkerFailureReason` | crates/app/src/extract.rs:421-433 | the byte-wise backward walk terminates and keeps the encoding of the longest prefix of whole characters that fits |
| `Diagnostics.LongestFitIsLongest` | crates/app/src/extract.rs:427-432 | that prefix fits and no longer one does |
| `Diagnostics.FailureReasonPromises` | crates/app/src/extract.rs:421-433 | a reason has at most prefix + 2 + 4096 bytes, stays on one line, loses at most three bytes to the boundary, and decodes to a prefix of the trimmed message |
| `Supervisor.PollPause` | crates/app/src/extract.rs:800-811 | a pause goes through if and only if all the polls it makes undisturbed pass, and then ends when the undisturbed pause does |
| `Supervisor.PausePolls` | crates/app/src/extract.rs:800-811 | a pause makes at most one poll per millisecond slice of its delay and one more |
| `Supervisor.SteadyPause` | crates/app/src/extract.rs:800-811 | with a clock that moves only in sleeps, a pause of n milliseconds ends on time after n + 1 polls |
| `Supervisor.SteadyLooks` | crates/app/src/extract.rs:633-679 | with such a clock the looks at the child are exactly five milliseconds and seven polls apart |
| `Supervisor.KillAndReap` | crates/app/src/extract.rs:787-798 | the group is killed, and the answer is whether some wait within the limit sees the child done before one fails |
| `Supervisor.ReapedIff` | crates/app/src/extract.rs:787-798 | a kill reaps the child if and only if some wait finds it gone after waits that all found it running before the deadline |
| `Supervisor.Supervise` | crates/app/src/extract.rs:607-680 | for every script of waits and clock drifts and every token, the exit and the number of pauses are those of the plain form; output is read only after the child exited uncancelled; the child is left running exactly on a cancelled pause; which exits kill it and remove the files |
| `Supervisor.ExitIff` | crates/app/src/extract.rs:633-679 | the loop leaves by a given way, reaped or not, if and only if some look ends it that way: done, a wait error or the elapsed timeout seen at a look whose earlier looks saw a running child and whose poll passes; or the first failing poll at a look, or strictly between two looks; and a killed child counts as reaped if and only if a wait within 250 ms of the kill finds it gone |
| `Supervisor.PausesAreBounded` | crates/app/src/extract.rs:633-679 | all pauses but the last fit into the timeout, so there are at most ceil(timeout / 5 ms) |
| `Supervisor.ChildCanSurvive` | crates/app/src/extract.rs:664-664 | a script and a token that leave the child running |
| `Supervisor.Prepare` | crates/app/src/extract.rs:266-288 | the three scratch entries are created in order, a poll before each, up to the first failed poll or refused creation; on success all three are there |
| `Supervisor.RunWorker` | crates/app/src/extract.rs:141-196 | the worker is launched exactly if every earlier poll and step passes, and then all three scratch entries had been created; whatever happens none of them is left at the end; the child is left running exactly if the supervision was cancelled inside a pause |
| `Sandbox.SandboxEscapeIsOnePass` | crates/app/src/extract.rs:1033-1037 | the two chained replaces are one pass |
| `Sandbox.ProfileReadsBack` | crates/app/src/extract.rs:958-1007 | a quoted-literal reader gets exactly the intended rule list from the profile text, for every path |
| `Sandbox.WriteRulesDecide` | crates/app/src/extract.rs:997-1005 | the write rules let through the two output files' data and the state directory only |
| `Sandbox.StrictReadRulesDecide` | crates/app/src/extract.rs:977-996 | the strict read rules let through the listed paths only |
| `Sandbox.ProfileDecidesPolicy` | crates/app/src/extract.rs:958-1007 | read with the last matching rule winning, the written profile decides every request as the plain policy of its mode does |
| `OcrRecognition.RecognizePdf` | crates/app/src/content.rs:1634-1695 | the page loop returns the plain form of the pages, or the cancelled failure at the first failed poll with no page recognized after it; the render directory is gone at every exit |
| `OcrRecognition.PdfReportStatus` | crates/app/src/content.rs:1680-1694 | a PDF is recognized if and only if some recognized page has a line |
| `OcrRecognition.FirstFailureIsFirst` | crates/app/src/content.rs:1672-1694 | the reported failure is the first page that is neither recognized nor empty |
| `OcrRecognition.RecognizedText` | crates/app/src/content.rs:1680-1688 | with a line on some recognized page, the lines are those of the recognized pages, those of each page at its offset, and the text lays them out with one line feed in between, so it splits back into them if none holds a line feed |
| `OcrRecognition.UnrecognizedReport` | crates/app/src/content.rs:1689-1694 | without one, the report is the first page that is neither recognized nor empty, else empty with no text |
| `OcrRecognition.WithoutPages` | crates/app/src/content.rs:1646-1659 | a rasterization that is not available is reported with its own status and reason |
| `OcrWorker.OcrRun.RecordReport` | crates/app/src/content.rs:1488-1519 | a report moves the candidate into the cache and out of the quarantine, or adds one failure and counts it as quarantined if it now blocks |
| `OcrWorker.OcrRun.ProcessCandidate` | crates/app/src/content.rs:1460-1520 | one candidate takes the step the run's specification prescribes, or stops the run |
| `OcrWorker.OcrRun.ProcessQueue` | crates/app/src/content.rs:1460-1520 | the candidate loop is the specified sweep |
| `OcrWorker.Persist` | crates/app/src/content.rs:1521-1531 | the cache is written before the quarantine, each all-or-nothing, and the run completes only behind both |
| `OcrWorker.RunOcrWorker` | crates/app/src/content.rs:1440-1532 | the whole worker on two store files is the run function that the laws are about |
| `OcrRuns.StorePairs` | crates/app/src/content.rs:1440-1532 | whatever stops a run and wherever, it leaves the stores old/old, new/old or new/new; new/new if completed; untouched if some recognition was cut short by the token |
| `OcrRuns.StepByKey` | crates/app/src/content.rs:1460-1520 | one candidate changes its own key as the plain form says and no other key |
| `OcrRuns.SettledRunByKey` | crates/app/src/content.rs:1440-1532 | a run that replaces the quarantine is its plain form on every queued key and leaves every other key alone; attempted are exactly the candidates neither cached nor blocked |
| `OcrRuns.SettledOutcome` | crates/app/src/content.rs:1460-1519 | what becomes of every queued candidate, from the stores before and its attempt: cached and blocked ones, a missing file with the file system's message, a screenshot by its one report, a PDF by its pages; the text cached, or the kind, reason and count of the failure |
| `OcrRuns.RunGetsAsFarAs` | crates/app/src/content.rs:1520-1532 | how far a run behind its last candidate gets, by its refusals and the number of polls that pass: the cache is replaced, then the quarantine, then the run completes |
| `OcrRuns.UndisturbedRunCompletes` | crates/app/src/content.rs:1440-1532 | a run that nothing refuses and whose token lasts completes, whatever the recognizer reports |
| `OcrRuns.CompletedRunSeparates` | crates/app/src/content.rs:1460-1524 | after a completed run no queued candidate is both cached and quarantined, whatever stores it started from |
| `OcrRuns.CacheGrows` | crates/app/src/content.rs:1460-1524 | no run, completed or not, loses or alters a recognition |
| `OcrRuns.CachedNeverAttempted` | crates/app/src/content.rs:1461-1470 | once cached, a candidate never reaches the recognizer again in any later run |
| `OcrRuns.RunSpendsBudget` | crates/app/src/content.rs:1460-1524 | a settled run spends one remaining attempt of a queued candidate, or all of them when it is recognized; no other run gives any back |
| `OcrRuns.AttemptsWithinBudget` | crates/app/src/content.rs:1440-1532 | over any sequence of runs the settled attempts of a candidate plus what is left never exceed its budget |
| `OcrRuns.AtMostTwice` | crates/app/src/content.rs:3266-3302 | from missing stores a candidate is attempted by at most two settled runs |
| `OcrRuns.FailingCandidateAttempts` | crates/app/src/content.rs:3266-3302 | a candidate that keeps failing is attempted in exactly as many settled runs as its budget pays for |
| `OcrRuns.CompletedRunCounts` | crates/app/src/content.rs:1460-1530 | every printed line and every counter of a completed run, from the stores before it: the quarantine counter is the blocked candidates plus those that reach the threshold in this run, so the counters exceed the queue by exactly the latter |
| `OcrRuns.CompletedRows` | crates/app/src/content.rs:1460-1490 | a completed run prints one line per candidate in queue order: cached, blocked with its stored failure, or the report of its attempt |
| `OcrRuns.CountersAddUpIff` | crates/app/src/content.rs:1389-1402 | the printed counters add up to the queue if and only if no queued candidate reaches the threshold in this run |
| `OcrRuns.CountersCanExceed` | crates/app/src/content.rs:1506-1519 | a run of one candidate that is printed as failed and as quarantined |
| `OcrStores.HexRoundTrip` | crates/content/src/ocr.rs:928-961 | the hexadecimal form of any bytes decodes to them |
| `OcrStores.RecognitionIsFaithful` | crates/content/src/ocr.rs:91-104 | a recognition is read back from its cells, whatever its path and its text hold |
| `OcrStores.FailureIsFaithful` | crates/content/src/ocr.rs:664-681 | a failure entry is read back from its cells |
| `OcrStores.CacheLayout` | crates/content/src/ocr.rs:295-348 | the written cache line by line: literal header, schema 1, and the named cells of every recognition |
| `OcrStores.FailuresLayout` | crates/content/src/ocr.rs:530-589 | the same for the failure quarantine, with its threshold |
| `OcrStores.ReadFailureThreshold` | crates/content/src/ocr.rs:595-655 | a failure quarantine without a threshold line is refused; otherwise the last line counts, and zero reads as one |
| `OcrStores.CandidateIsFaithful` | crates/content/src/ocr.rs:58-71 | a queued candidate is read back from its cells |
| `OcrStores.ReadQueueIsDistinct` | crates/content/src/ocr.rs:205-251 | whatever a queue file holds, duplicate rows included, a run meets each candidate once |
| `OcrStores.ReadFailuresIsWellFormed` | crates/content/src/ocr.rs:595-655 | whatever a failure file holds, its threshold is one the attempt budget accepts |
| `OcrStores.RunsKeepWellFormed` | crates/app/src/content.rs:1440-1532 | every sequence of runs keeps both stores filed under their keys and within the integer widths |
| `OcrStores.ReachableStoresReadBack` | crates/content/src/ocr.rs:354-398 | every pair of stores any sequence of runs leaves is read back as the values the next run starts from |
| `Access.Session.AccessChecked` | crates/app/src/archive.rs:853-868 | the access loop computes the specified trace and result, dropping its guards in order on every failure |
| `Access.Session.Drop` | crates/app/src/archive.rs:853-868 | dropping guards releases their accesses in order |
| `AccessLaws.StartAccessLaw` | crates/mac/src/security/bookmark.rs:526-556 | starting a bookmark access holds what it returns, or nothing more than before |
| `AccessLaws.RetainedAccessLaw` | crates/app/src/access.rs:457-504 | the same for a retained access, for every cancellation point and answer |
| `AccessLaws.AccessEntryLaw` | crates/app/src/access.rs:244-278 | the same for the preflight of one entry |
| `AccessLaws.AccessAllOrNothing` | crates/app/src/archive.rs:853-868 | for any entry list and adversary: one guard per entry, in order, holding exactly their accesses, or a failure with every started access released |
| `AccessLaws.GuardIsEarned` | crates/app/src/access.rs:244-320 | a guard comes only after a passing volume gate, a permission refresh and an allowing evaluation, in that order, without a failed poll; its volume, if any, was mounted, reachable, with its interface available, and for a write or an operation writable or a system root that the evaluation at the gate allowed; and it holds exactly one started non-stale access of the right mode, looked up behind a passing gate of the bookmark store, if a bookmark is required |
| `AccessLaws.GatePassesIff` | crates/app/src/access.rs:327-391 | a gate passes if and only if there is no containing volume or it is usable for the intent |
| `AccessLaws.BlockIsNamed` | crates/app/src/access.rs:327-391 | which of the four blocks a refusal names |
| `AccessLaws.CalmLoopGoes` | crates/app/src/archive.rs:853-868 | where nothing is refused every entry is granted |
| `AccessPolls.LoopIsWatched` | crates/app/src/access.rs:244-320 | every effect of the loop stands behind a passed poll and in front of another, or of the releases of a failing loop |
| `AccessLaws.FailsAtFirstBadEntry` | crates/app/src/archive.rs:853-868 | a failing loop fails at a definite k: the entries before it were granted, entry k was not (past the last one it is the final poll), and nothing but entry k was evaluated or looked up from there on |
| `AccessReports.ReportSession.Push` | crates/app/src/content.rs:4225-4303 | the polls, discoveries, gates, probes and the push of one request, effect by effect, leave the trace and the entries that the laws below are about, and no entry on a failure |
| `AccessReports.ReportSession.PushChecked` | crates/app/src/content.rs:4014-4028 | an entry is pushed with the volume discovered for it between two polls |
| `AccessReports.ReportSession.ProbeChecked` | crates/app/src/content.rs:4414-4443 | poll, discovery, poll and gate of the parent, poll, probe, poll, and the path to ask for |
| `AccessReports.ReportSession.PushAll` | crates/app/src/content.rs:4152-4186 | a list of requests of any length is fulfilled in order up to the first failure |
| `AccessReports.CheckedWriteProbeOrderly` | crates/app/src/content.rs:4414-4443 | a write target is probed only behind the discovery and a passing gate of its parent's volume |
| `AccessReports.FulfilOrderly` | crates/app/src/index.rs:1337-1348 | every kind of request keeps that order and stops at a failed poll |
| `AccessReports.ReportsAreOrderly` | crates/app/src/content.rs:4225-4306 | so does every report, however many segments or write targets it lists |
| `AccessReports.ConstructorsAreOrderly` | crates/app/src/content.rs:4152-4306 | the segment, job and index reports keep that order and stop at a failed poll, for every adversary |
| `AccessReports.SegmentReportEntries` | crates/app/src/content.rs:4152-4186 | a finished segment report: the manifest if there is one, to read; the output archive, to write, or its parent; and every segment at its place, to read |
| `AccessReports.JobReportEntries` | crates/app/src/content.rs:4225-4306 | a finished job report: the root, the write targets and the queue, the recognition cache if and only if its probe, the only probe for reading, found it, and the journal, each at its place |
| `AccessReports.IndexReportEntries` | crates/app/src/index.rs:1550-1569 | a finished index report: the root, then every write target or its parent |
| `AccessReports.ReportIsTidy` | crates/app/src/content.rs:4152-4306 | a report discovers and probes only directly behind a passed poll and in front of another, and probes nothing for reading but what is optional |
| `AccessReports.ReportGates` | crates/app/src/content.rs:4225-4306 | a report gates nothing but the parents of its write targets |
| `AccessReports.ReportPasses` | crates/app/src/content.rs:4225-4306 | a finished report passed the gate of the parent of every write target |
| `AccessReports.ReportListsEveryWant` | crates/app/src/index.rs:1550-1569 | a finished report without optional requests has one entry per request, in order: a write entry is the target if its probe met a directory and else its parent, with a name of at most 255 bytes for the content commands |
| `AccessReports.ReportVolumesAreDiscovered` | crates/app/src/content.rs:4014-4028 | every entry of a finished report carries the volume that was discovered for its own path |
| `Paths.ParentOrCwdIs` | crates/app/src/main.rs:737-742 | a path is its parent with one name more, unless nothing is left in front of its last name or there is no name; then it is the current directory |
| `AccessReports.CacheProbeIsUngated` | crates/app/src/content.rs:4237-4284 | a job report on surroundings that refuse nothing, its write targets in other directories, probes the recognition cache although neither it nor its parent was gated before |
| `AccessReports.CacheProbe` | crates/app/src/content.rs:4237-4284 | a job report that gets as far as its recognition cache probes it having passed the gate of a path if and only if that path is the directory of a write target or of the queue, and having gated nothing else |
| `Admission.RefusalHoldsMarker` | crates/mac/src/security.rs:282-328 | a refusal that is not the volume's holds the marker phrase exactly if the worker's name brings it |
| `Admission.AdmissionSeesVolumeBlock` | crates/app/src/access.rs:100-128 | callers see a volume block if and only if the containing volume is not usable for the path and intent, or a refused worker's name spells the phrase |
| `Admission.UnusableVolumeRefuses` | crates/mac/src/security.rs:282-328 | a volume that is not usable refuses the admission, and the reason names the first of its faults |
| `Admission.UsableVolumeDecides` | crates/app/src/access.rs:100-128 | otherwise the decision on the path is the answer, with the reason of each decision |
| `Admission.MarkerCanBeSpoofed` | crates/app/src/access.rs:216-220 | a worker name that fools the test without any volume |
| `Admission.PreflightAgreesWithAdmission` | crates/app/src/access.rs:306-391 | for a worker whose name does not spell the phrase, the preflight's gate fails exactly when the admission reports a volume block, if and only if their two evaluations of a consulted read-only system root agree |
| `Admission.FanoutSubject` | crates/app/src/access.rs:202-214 | the subject keeps the longest leading run of requests that fits its budget and says so when it drops some |
| `Admission.SubjectSplits` | crates/app/src/access.rs:202-214 | cut at its semicolons, a subject is its name and then one worker and intent per kept request, in order |
| `ContentDelta.NextIsFreshIff` | crates/index/src/content.rs:84-136 | an attempt leaves the index of a full rebuild if and only if the old index was in step on every id |
| `ContentDelta.ConsistencyServesEverySnapshot` | crates/index/src/content.rs:84-136 | from an index that holds what the saved records yield at the stored versions, every snapshot gets the index of a full rebuild, an upgraded extractor included |
| `ContentDelta.OnlyConsistencyServes` | crates/index/src/content.rs:359-368 | no other index serves every snapshot |
| `ContentDelta.ChangedOutcomes` | crates/index/src/content.rs:137-163 | when extraction outcomes change, the index is that of a rebuild exactly if no unchanged file stopped yielding text and every one that started to was retried from the quarantine |
| `ContentJob.Job.Attempt` | crates/app/src/content.rs:4671-4737 | an attempt writes its stores in order up to the first stop, and sends its report only behind all of them |
| `ContentJob.AttemptErrorIs` | crates/app/src/content.rs:4671-4737 | an attempt finishes, is cancelled or fails exactly as its setup and the first write that does not go on say |
| `ContentJob.StoreIsReplacedIff` | crates/app/src/content.rs:4703-4736 | a store carries an attempt's stamp if and only if its write was reached and got as far as its rename |
| `ContentJob.Job.ExecuteRetriable` | crates/jobs/src/lib.rs:1542-1631 | status, number of attempts and whether a report was sent are those of the retry rule; the slot holds the last attempt; the stores are those of exactly these attempts |
| `ContentJob.PoolLaw` | crates/jobs/src/lib.rs:1542-1631 | a job is completed if and only if its last attempt finished and its journal entry was written; a report is sent if and only if the last attempt finished; every attempt before it failed retriably and uncancelled |
| `ContentJob.PoolStatusIff` | crates/jobs/src/lib.rs:1542-1631 | the pool completes, or is cancelled, if and only if it comes to a turn that does: every turn before it ran, was recorded, failed retriably and met no cancellation |
| `ContentJob.SecondAttemptIff` | crates/jobs/src/lib.rs:1542-1631 | of two turns the second attempt runs if and only if the first failed, was recorded, is retriable and met no cancellation, and the second gets as far as its attempt |
| `ContentJob.Job.RunContentJob` | crates/app/src/content.rs:4585-4777 | the outcome is the one the retry rule prescribes: the last report for a completed job, so the error about a missing report is unreachable, and nothing run for a deferred one |
| `ContentJob.JobEnds` | crates/app/src/content.rs:4753-4770 | what the caller gets, from the turns alone: nothing run for a deferred job; the report of the turn that completes; the cancellation exactly if a turn that is come to is cancelled before or at its start, by its own attempt, or by a recorded cancellation behind a failed one; else the failure |
| `ContentJob.AttemptReplacesPrefix` | crates/app/src/content.rs:4703-4736 | every interruption leaves a prefix of the write order replaced |
| `ContentJob.FinishedAttemptReplacesAll` | crates/app/src/content.rs:4703-4736 | a finished attempt replaced them all |
| `ContentJob.StoresStayOrdered` | crates/app/src/content.rs:4703-4736 | over any number of attempts no store is newer than one written before it |
| `ContentJob.RecordsCanRunAhead` | crates/app/src/content.rs:4703-4729 | an interruption that leaves new records beside old content |
| `ContentRuns.WrittenContentIsFresh` | crates/app/src/content.rs:4684-4729 | from consistent stores, an attempt that writes its content writes a full rebuild of its snapshot |
| `ContentRuns.InterruptionKeepsConsistencyIff` | crates/app/src/content.rs:4684-4732 | an interruption before the records or behind the versions keeps the stores repairable; one between content and versions does if and only if every file whose version moved yields no text at either version; one between records and content if and only if there was no content or every id yields the same from the old and the new records |
| `ContentRuns.FinishedAfterUntorn` | crates/app/src/content.rs:4684-4732 | over attempts, jobs and restarts without an interruption between records and versions, the next finished attempt leaves a full rebuild |
| `ContentRuns.RetriedJobIsFreshIff` | crates/app/src/content.rs:4684-4732 | a retry on the same snapshot leaves a full rebuild if and only if the first attempt did not stop between records and content of an existing index, or every id is repaired in one of three ways |
| `ContentRuns.RetryLosesUpdate` | crates/app/src/content.rs:4684-4703 | a job of two attempts that the pool reports as completed although its index lacks the update of a changed file |
| `ContentRuns.MissingStores` | crates/app/src/content.rs:4684-4696 | without saved records or content the stores are repairable exactly if there is no old content |
| `Recovery.Recoverable` | crates/jobs/src/lib.rs:1291-1333 | one job per id, exactly those whose last entry is an open start or a retryable failure with attempts left |
| `Recovery.RecoveredIff` | crates/jobs/src/lib.rs:1291-1333 | from the entries alone: an id is recovered if and only if its last entry is an open start, or a transient or offline failure with no second attempt on record; with its name, largest attempt, reason, class and delay |
| `Recovery.ClassIs` | crates/jobs/src/retry.rs:60-101 | the class of a failure is that of the first group of words its message holds |
| `Recovery.FoldJournal` | crates/jobs/src/lib.rs:1291-1303 | the states are one per id of the journal, each with the last entry's label and status and the largest attempt |
| `Recovery.RecoverableContentJobs.AddJournalJob` | crates/app/src/content.rs:2287-2332 | one journal job moves exactly its counters, and the delay to the maximum |
| `Recovery.RecoverableContentJobs.MergeJournal` | crates/app/src/content.rs:3640-3647 | after the journal every counter is the number of ids of its kind |
| `Recovery.RecoverableContentJobs.MergeProgress` | crates/app/src/content.rs:3648-3660 | progress adds exactly the restorable ids the journal did not count, in whatever order they come |
| `Recovery.RecoverableContentJobs.Recover` | crates/app/src/content.rs:3631-3663 | the total is the number of distinct labelled ids of both sources |
| `Recovery.RecoveryTotals` | crates/app/src/content.rs:2276-2338 | the total is interrupted plus retryable plus progress, and the retryable ones are exactly transient plus offline |
| `Recovery.RecoveryDelay` | crates/jobs/src/retry.rs:110-124 | the reported delay is 250 ms as soon as a counted failure is offline, else 25 ms for a transient one, else zero |
| `RetryProbe.ReadAttempts` | crates/app/src/content.rs:4508-4539 | however the file is cut into reads, the call returns the trimmed decimal value of at most 4096 valid bytes, else zero, if and only if all its polls pass: one before the opening, one behind it and two for every read |
| `RetryProbe.AttemptsInIff` | crates/app/src/content.rs:4508-4539 | a file counts as a number other than zero if and only if it is at most 4096 bytes of UTF-8 that hold, between blank ends, an optional plus sign and the digits of that number, which fits the width |
| `RetryProbe.CounterRoundTrip` | crates/app/src/content.rs:4541-4560 | reading what was written gives the number, for every number |
| `RetryProbe.FailFirstAttempt` | crates/app/src/content.rs:4484-4506 | one attempt, the chunked read included, as a function of the file and its cancellation point |
| `RetryProbe.AttemptCounts` | crates/app/src/content.rs:4484-4506 | an attempt whose write lands counts one up, from the largest number to zero |
| `RetryProbe.AttemptNeeds` | crates/app/src/content.rs:4484-4506 | which number of polls an attempt needs to replace the file, and to answer |
| `RetryProbe.CounterCounts` | crates/app/src/index.rs:1747-1817 | over any attempts the file counts those whose write landed |
| `RetryProbe.FirstAnswerFails` | crates/app/src/content.rs:4484-4506 | from a missing file an attempt that runs to its answer fails exactly if no earlier write landed |
| `RetryProbe.UndisturbedAttempts` | crates/app/src/content.rs:4484-4506 | attempts that run to their answer fail once and then always pass, however the file is cut into reads |
| `VolumeRow.RowSplits` | crates/app/src/index.rs:1390-1440 | every row is one line and splits into 20 columns, 21 with a role, in both branches |
| `VolumeRow.RowDecodes` | crates/app/src/index.rs:1390-1440 | every column decodes under its own name: prefix, worker, role, path, intent, and with a volume all sixteen of its columns; without one they hold dashes and the reason says so |
| `VolumeRow.ReasonColumn` | crates/app/src/index.rs:1450-1455 | exactly the missing reasons, those of whitespace other than tabs and line ends, and the dash print as a dash; every other one reads back |
| `WriteProbe.WriteProbeExistingAncestor` | crates/app/src/interface.rs:1287-1322 | a path that is a directory is the answer; else the walk from its parent ends, probes nothing behind a refusing volume, and stops at the longest ancestor that is not simply missing |
| `WriteProbe.StopIsUnique` | crates/app/src/interface.rs:1299-1322 | there is only one such place, so the answer of the walk is determined and no deeper ancestor is skipped |
| `WriteProbe.EndsAtExistingPathIff` | crates/app/src/interface.rs:1299-1322 | it ends at an existing path if and only if the path is absolute, a single name, or has an existing leading directory; otherwise at the empty path |
| `WriteProbe.WalkCanEndNowhere` | crates/app/src/interface.rs:1299-1322 | a relative path of two new names for which the walk ends at the empty path |

## Left out

- Real files, processes, volume discovery, Vision and PDFKit, security bookmarks and permission refresh: their
  answers are inputs of the model.
- The polls inside volume discovery, bookmark resolution and permission refresh: a failure there is a failure of
  that step; several polls in a row with no effect between them are one poll.
- The exact number of polls of access, read and write steps of a run: an arbitrary number instead, so every
  cancellation point is covered.
- Paths that are not valid UTF-8: a path is its displayed text, or the list of its names for the walks.
- `Sandbox.ProfileDecidesPolicy`: that the last matching rule wins is an assumed reading of the sandbox
  language, whose implementation is not part of this model; so is the rule that a subpath covers its root and
  everything under it.
- `Recovery.Recoverable`: the order of the recovered jobs, since every reported counter is independent of it.
- `ContentDelta.NextIsFreshIff`: terms are represented by the record state they were extracted from, so two
  states that happen to yield the same terms are told apart; quarantined ids and extraction outcomes are inputs.
- `ContentRuns.RetriedJobIsFreshIff`: the segment files an attempt writes besides its stores, and a second
  attempt that sees a different snapshot, for which `ContentDelta.NextIsFreshIff` gives the condition.
- `OcrRuns.SettledRunByKey`: progress phases are polls that may refuse; what they report is not modelled.
- The fan-out of admissions over several workers, their scheduling and their retained reports: the same gate
  per request.
- `Supervisor.RunWorker`: failures to read the child's output files or its exit status, which the caller turns into
  errors after the loop, and the diagnostics read from the files after a timeout.
- `RetryProbe.Attempt`: a counter at the largest machine integer wraps to zero, as an optimized build does; a build
  with overflow checks stops there instead.
- Command dispatch, argument parsing and printed reports other than the rows above.
- `diagnostics.rs`, `gates.rs`, `packaging.rs` and the constructors of `archive.rs`: the same access-report
  pattern with other lists of paths.
- Permission prompts and view-mode or status mappings of `interface.rs`: finite case tables.
- The engines behind the application layer: search, merge policies, preview and operations.
