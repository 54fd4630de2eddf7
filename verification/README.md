# Verified models of the procedural-detective tools

Dafny models of five self-contained parts of the repository, with proofs of what they promise.
`dafny verify dfyconfig.toml` checks everything.

- **Bounded JSON gate** (`JsonSyntax`, `JsonDecoder`, `JsonSoundness`, `JsonCompleteness`, `BracketScan`,
  `ScanAgreement`, `ValueWalkers`, `BoundedJson`, `JsonPrinting`). Before the bridge decodes a document it scans the text for brackets,
  knowing only string mode and escapes, and afterwards walks the decoded value with explicit stacks. The grammar is that of
  RFC 8259 plus the words `NaN`, `Infinity` and `-Infinity` that Python's decoder takes; the decoder is a
  left-to-right recursive descent that returns the concrete syntax tree and, on failure, what it had accepted, its nesting,
  whether it was inside a string and the deepest level it had reached. `JsonPrinting` prints values without regard to the
  decoder, with any blanks, escapes and case of hexadecimal digits.
- **Resume protocol of the frontier benchmark** (`ResumeModel`, `ResumeSafety`, `ResumeHistories`, `ResumeCases`,
  `ResumeRun`, `BenchmarkPlan`). The durable files `state.json` and `results.jsonl`, the steps of a sequential run over them,
  crashes at any point and appends cut short. Lines of the results file are
  modelled by their fields, including those no run of this program would write. Histories are arbitrary sequences of
  enabled steps. `ResumeRun` is the run as code that changes files and variables in place; each run, wherever it dies, is
  shown to be such a history.
- **Benchmark arithmetic and output** (`Percentile`, `SummaryCsv`).
- **Process lifecycle guard** (`GuardIdentity`, `GuardDescendants`, `GuardEnvironment`, `GuardShutdown`, `GuardLaunch`).
  Launch and stop run against an environment that may answer every observation arbitrarily and may fail every write; a ghost
  trace records all observations, signals and writes.
- **Adapter generator** (`AdapterFiles`, `AdapterRegenerate`; `AdapterExpected` lists the generated paths one by one,
  `AdapterFingerprint` says what the core fingerprint tells) and **log aggregation** (`Counters`, `LogEntries`,
  `LogAggregation`, `LogResults`; `LogFigures` counts every figure directly over the input). `Ordering` and `Options` are
  shared.

Results of the environment are parameters or arbitrary choices: the UTF-8 decoding of bytes, the shuffle of the planner, the
snapshot, existence, listing, listener and port probes, the number of polls before a deadline, `canonical_executable`, SHA-256,
which file a manifest path leads to, the text templates, `fnmatch`, path containment and the text of calendar days.

## Where the code and its documentation disagree

The models follow the code.

- `tools/frontier_benchmark.py:2497-2506` says no completed combo can be silently re-executed. It can, in three ways.
  The merge (4020-4038) keeps the first record of a combo although its comment says fresh records win, so a skipped line
  shadows a later executed one (`ResumeCases.CredentialSuppliedLater`, from an empty directory). The reader strips lines
  (2439) and the merge does not (4015-4018), so an executed line between blanks that JSON does not know is read on resume and
  dropped by the rewrite (`PaddedLineIsLost`). In both cases the item is bought again when the process dies between the
  rewrite and the final state write. And an OSError while the file is read (2435-2436) leaves `state.json` alone, so that what
  only `results.jsonl` holds is bought again at once (`UnreadFileIsBoughtAgain`), and can be lost for good without any death
  (`UnreadRunForgets`). `ResumeHistories.LossIsExact` says exactly which writes lose something, `DurableBoughtExactly` and
  `PendingThoughDurable` exactly what is bought although the files hold it, `ForgettingIsExact` exactly which steps short of a death
  forget something, `ResumeCases.SteadyCredentialsLoseOnlyHidden` that with unchanged credentials only padded lines are lost, and
  `PaidCallsBounded` that the bill stays bounded regardless.
- `tools/frontier_benchmark.py:2428-2430` says the merge tolerates what the resume reader tolerates. The reader catches a
  missing key, a wrong type and a wrong value; the merge (4025-4033) catches a missing key only, the enrichment (4050-4052) looks
  every attempt id up in a dict and the final sort (4071-4073) needs every execution order and compares them.
  `ResumeSafety.ToleranceGap` says exactly which lines a resume gets past and a finish does not,
  `ResumeCases.LinesOfTheGap` gives five, and `ResumeCases.GapBlocksEveryFinish` shows that a file holding such a line can
  be resumed from with every plan and finished with none. The reader is not as tolerant as it says either: an executed
  record whose repeat index is infinite raises an OverflowError there, and no run that reads the file can start
  (`ResumeCases.InfiniteRepeatIndexRaises`, `RaisingReaderBlocksEveryStart`). Files that only this program has written hold no
  such line (`ResumeCases.OwnFilesNeverRaise`).
- `tools/process_guard.py:917-918` says a launch never returns an error while its child is left running untracked. It does when the
  metadata cannot be written (1317): the error passes through, nothing was signalled and nothing is on record
  (`GuardLaunch.OnlyAFailedWriteOrphans`, and `AWriteCanFail` for the smallest such run). In the other failures, too, a process that
  survives the clean-up is only printed: no file records it.
- `tools/generate_adapters.py:470-478` writes through `path.tmp`, so an existing file of that name disappears; the stale set is
  unchanged by a regeneration exactly when no stale file has such a name (`AdapterRegenerate.StaleUnchangedExactly`;
  `StaleTemporaryVanishes` for a file beside a drifted configuration).
- `tools/monitoring_report.py:322-332` never raises according to its documentation. It does in exactly two cases
  (`LogAggregation.Aggregate`): for an entry whose timestamp lies outside the years 1 to 9999, which both clamps let through
  (`LogResults.FarFutureRaises`), and for a zero window when there is no observed span (`LogResults.ZeroWindowRaises`; the
  command line refuses such a window). One line of the first kind makes the report discard the whole log
  (`LogResults.OneUndatedLineSpoilsTheLog`).
- `tools/frontier_benchmark.py:1352-1371` does not check the percentage: below zero Python's negative indices wrap around, above
  100 the index is out of range (`Percentile.ValueExactly`, `Percentile.NegativePercentageWraps`).

## Model

| member | source | states |
|---|---|---|
| BracketScan.IterTextUnits | bridge/pd_ollama_bridge/bounded_json.py:31-54 | the loop yields exactly the units of the text: two characters per escape, six per `\u`, string mode toggled by bare quotes |
| BracketScan.BracketDepth | bridge/pd_ollama_bridge/bounded_json.py:57-70 | the counting loop over the units returns the maximum of the scanner run, saturating at zero |
| BracketScan.CountIsScan | bridge/pd_ollama_bridge/bounded_json.py:57-70 | counting over the yielded units is one pass over the text |
| JsonSoundness.DecodeIsSound | bridge/pd_ollama_bridge/bounded_json.py:93-94 | an accepted text is spelled by the returned well-formed document and the deepest level seen is its depth; a failure splits the text at the error point |
| JsonCompleteness.DecodeSpelled | bridge/pd_ollama_bridge/bounded_json.py:93-94 | decoding any spelling of a document, whatever its blanks and escapes, returns that document |
| JsonCompleteness.AcceptsExactlyDocuments | bridge/pd_ollama_bridge/bounded_json.py:93-94 | a text decodes if and only if it spells a document, and it spells at most one |
| ScanAgreement.ScanValue | bridge/pd_ollama_bridge/bounded_json.py:31-70 | scanning any rendering of a value from d open brackets returns to d outside strings, having seen d plus the value's recursive depth |
| ScanAgreement.DocumentDepth | bridge/pd_ollama_bridge/bounded_json.py:57-70 | on every rendering of a document the scanner's figure is the depth of its tree, with all brackets closed |
| ScanAgreement.ScannerFollowsDecoder | bridge/pd_ollama_bridge/bounded_json.py:31-70 | for every text, scanner and decoder agree on string mode, open brackets and deepest level up to the decoder's error point, so drift starts only after it |
| ScanAgreement.DecoderNeverDeeper | bridge/pd_ollama_bridge/bounded_json.py:57-70 | for every text, well-formed or not, the decoder never nests deeper than the scanner's figure, with equality on documents |
| ValueWalkers.BoundCollectionLengths | bridge/pd_ollama_bridge/bounded_json.py:104-119 | the stack walk raises if and only if some list or dict anywhere in the value is longer than the limit |
| ValueWalkers.BoundedStructureDepth | bridge/pd_ollama_bridge/bounded_json.py:122-137 | the stack walk with early return is min(depth, limit + 1) for every value, a negative limit acting as 0 |
| ValueWalkers.CollapseKeeps | bridge/pd_ollama_bridge/bounded_json.py:93-94 | without duplicate keys the decoded dicts are the syntax tree itself |
| ValueWalkers.DictIsDistinct | bridge/pd_ollama_bridge/bounded_json.py:93-94 | a decoded dict never holds a key twice |
| ValueWalkers.CollapseDepth | bridge/pd_ollama_bridge/bounded_json.py:93-94 | collapsing duplicate keys never makes a value deeper |
| BoundedJson.BoundedJsonLoads | bridge/pd_ollama_bridge/bounded_json.py:73-101 | the gate returns the verdict of the checks in their order: encoding, scanned depth, decoding with the interpreter's digit limit, collection lengths |
| BoundedJson.VerdictOnDocuments | bridge/pd_ollama_bridge/bounded_json.py:73-101 | on a document the verdict depends on the tree alone: too deep, an integer with too many digits, a collection too long, or the decoded value |
| BoundedJson.VerdictOnOtherTexts | bridge/pd_ollama_bridge/bounded_json.py:73-101 | any other text is refused, and when decoding is tried on it at all it stays within the depth bound |
| BoundedJson.LoadedExactly | bridge/pd_ollama_bridge/bounded_json.py:73-101 | a value is returned if and only if the text spells a document that decodes to it, lies within both bounds and has no integer beyond the digit limit |
| BoundedJson.LoadedValueIsShallow | bridge/pd_ollama_bridge/bounded_json.py:73-137 | a returned value passes any later structure-depth check with the same limit |
| BoundedJson.CleanDocumentsPass | bridge/pd_ollama_bridge/bounded_json.py:73-101 | a duplicate-free document inside both bounds comes back unchanged, or is rejected for an integer beyond the digit limit and for nothing else |
| BoundedJson.DuplicatesCountTowardsDepth | bridge/pd_ollama_bridge/bounded_json.py:87-94 | with duplicate keys a document can be refused although the decoded value is within the bound |
| JsonPrinting.PrintedVerdict | bridge/pd_ollama_bridge/bounded_json.py:73-101 | whatever the style of a printed value, the gate gives the value itself with objects as dicts, or the first of the complaints that apply: too deep, too long an integer, too long a collection |
| JsonPrinting.PrintedValuesLoad | bridge/pd_ollama_bridge/bounded_json.py:73-101 | a duplicate-free value within all bounds, printed in any style, is loaded back as that value |
| JsonPrinting.StringDenoted | bridge/pd_ollama_bridge/bounded_json.py:94 | a string printed point by point, with short escapes, `\u` escapes and surrogate pairs, denotes these points |
| JsonPrinting.HexBack | bridge/pd_ollama_bridge/bounded_json.py:94 | four hexadecimal digits, each in either case, are the number they spell |
| JsonPrinting.EscapesDenote | bridge/pd_ollama_bridge/bounded_json.py:94 | the code point each two-character escape stands for |
| JsonPrinting.CharacterClasses | bridge/pd_ollama_bridge/bounded_json.py:93-94 | which characters are blanks, digits and hexadecimal digits, may follow a backslash, or stand bare in a string |
| JsonPrinting.DictKeepsLastAtFirst | bridge/pd_ollama_bridge/bounded_json.py:94 | the dict of an object has each key once, with the value given last, at the place of its first occurrence |
| JsonPrinting.ConvertibleExactly | bridge/pd_ollama_bridge/bounded_json.py:94 | the digit limit refuses a value exactly for a number anywhere inside that has no fraction or exponent and more digits than the limit |
| JsonPrinting.IntegerFitsParts | bridge/pd_ollama_bridge/bounded_json.py:94 | of a number in its parts only the digits of an integer count, not its sign |
| JsonPrinting.WithinExactly | bridge/pd_ollama_bridge/bounded_json.py:104-119 | the collection bound holds exactly when no list or dict anywhere inside is longer |
| JsonPrinting.LoadsByDefault | bridge/pd_ollama_bridge/bounded_json.py:17-18 | without arguments the bounds are 32 levels and 10 000 elements, and the interpreter's limit is 4300 digits |
| ResumeRun.RunDirectory.LoadCompletedFromResults | tools/frontier_benchmark.py:2419-2460 | the reader loop raises exactly on a line it cannot decode or an executed one whose repeat index overflows, and otherwise returns the combos of the executed records, padded or not; of a file that cannot be read it returns none |
| ResumeRun.RunDirectory.WriteResultsJsonl | tools/frontier_benchmark.py:2537-2540 | an append adds the line, padded when the file ends in blanks JSON does not know, or completes and so destroys a torn last line, which stays undecodable if it was |
| ResumeRun.RunDirectory.Merge | tools/frontier_benchmark.py:4009-4038 | the merge loop ignores padded lines, raises exactly on another line that cannot be decoded, is no object, or has both ids and a repeat index int() rejects, and otherwise returns the first record per combo |
| ResumeRun.Resume | tools/frontier_benchmark.py:3733-3755 | a resume holds as completed what state and results files together recover, or what the state file holds when the other cannot be read, or raises with the reader |
| ResumeRun.Benchmark.constructor | tools/frontier_benchmark.py:3757-3771 | what is pending is the rest of the plan in plan order |
| ResumeRun.Benchmark.ExecuteItem | tools/frontier_benchmark.py:3573-3621 | exactly one call is added, for the first pending item, when its contestant has a credential and none otherwise, and the record says which |
| ResumeRun.Benchmark.RefreshResumeState | tools/frontier_benchmark.py:2492-2521 | the state file is replaced by the grown set exactly when an executed combo is new; nothing else on disk changes |
| ResumeRun.Benchmark.MergeAndRewrite | tools/frontier_benchmark.py:4009-4073 | merge, enrichment and sort raise exactly when one of them must, leaving the directory alone, and otherwise the file holds the merged records |
| ResumeRun.Benchmark.WriteFinalState | tools/frontier_benchmark.py:4088-4106 | the final state is what was completed plus every executed record kept by the merge; items of the plan not recovered afterwards have a line saying they were skipped |
| ResumeRun.RunBenchmark | tools/frontier_benchmark.py:3647-4106 | a run that may die at any step is a legal history of one start with its plan and credentials; the items bought and whether it finishes are determined by the files, whether they can be read, the plan, the credentials and the length of its life; a finished run leaves the merge of the old lines and its own records and the state that goes with it, from an empty directory its records in the order of execution, and only items without a credential not recovered; with unchanged credentials a run loses something recoverable exactly when its rewrite meets a hidden line and no final state remembers it |
| ResumeRun.NewRecordAt | tools/frontier_benchmark.py:3614-3619 | the record of the i-th item a run executes has the ids of that item, the order i, and is skipped exactly without a credential |
| ResumeRun.FreshRun | tools/frontier_benchmark.py:4009-4073 | from an empty directory all items are executed and the merge leaves their records in the order of execution |
| ResumeRun.OwnDirectoriesFinish | tools/frontier_benchmark.py:4009-4106 | in a directory only this program has written, nothing but its death keeps a run from finishing |
| ResumeRun.OneRunLosesExactly | tools/frontier_benchmark.py:3733-4106 | the same for the events of any one run |
| ResumeSafety.RewriteRaisesExactly | tools/frontier_benchmark.py:4020-4073 | a finish raises exactly when an unpadded line cannot be decoded, is no object or has both ids and a repeat index int() rejects, a first record has no execution order or an unhashable attempt id, or the orders of two first records are not both numbers or both texts |
| ResumeSafety.ReaderExactly | tools/frontier_benchmark.py:2438-2460 | a combo is read exactly from an unskipped object with its two ids and repeat index, and the reader raises exactly on an undecodable line or an unskipped object whose repeat index overflows |
| ResumeSafety.ToleranceGap | tools/frontier_benchmark.py:2428-2430 | exactly which single lines a resume gets past and a finish raises on |
| ResumeSafety.MergeKeepsFirsts | tools/frontier_benchmark.py:4009-4073 | the rewritten file holds exactly one record per combo, the first the merge sees in file order followed by this run's order |
| ResumeSafety.MergedInOrder | tools/frontier_benchmark.py:4071-4073 | the rewritten file is sorted by execution order: numbers upwards from minus infinity to plus infinity, or texts by code point, and equal orders as they stood in the file |
| Ordering.StringLessMeans | tools/frontier_benchmark.py:4073 | texts compare by the code point where they first differ, a proper prefix first |
| ResumeSafety.RewriteEffect | tools/frontier_benchmark.py:4009-4073 | the rewrite keeps everything recoverable if and only if no combo known only from an executed line has a skipped line before it or is hidden from the merge by padding while anything is rewritten |
| ResumeSafety.RewriteDrops | tools/frontier_benchmark.py:4009-4073 | the same relative to any set of combos that need not be in the file |
| ResumeSafety.AppendEffect | tools/frontier_benchmark.py:2537-2540 | an append loses something if and only if it lands on a torn line holding the only trace of an executed combo |
| ResumeHistories.InvAlways | tools/frontier_benchmark.py:3733-4106 | in every history: pending, completed and in-flight items are disjoint, memory holds what the files hold, or what the state file holds if the other could not be read, and every planned item is accounted for |
| ResumeHistories.LossIsExact | tools/frontier_benchmark.py:2492-2551 | a step shrinks the recovered set if and only if a condition on the files just before the write holds |
| ResumeHistories.StateGrows | tools/frontier_benchmark.py:2404-2416 | the state file never forgets a combo, whatever step is taken |
| ResumeHistories.DurableStaysDurable | tools/frontier_benchmark.py:3733-3771 | over a history without such writes the recovered set never shrinks, and a recovered combo is bought again exactly as often as runs that could not read the results file execute it |
| ResumeHistories.DurableBoughtExactly | tools/frontier_benchmark.py:2431-2436 | a driver call is made for a combo the files hold if and only if the run could not read the results file |
| ResumeHistories.PendingThoughDurable | tools/frontier_benchmark.py:3733-3771 | a combo the files hold is pending after a start if and only if that file could not be read and the state file lacks it |
| ResumeHistories.NeverExecutesDurable | tools/frontier_benchmark.py:3765-3771 | after any history in which every run could read the results file no driver call is made for a combo the files hold at that moment |
| ResumeHistories.ForgettingIsExact | tools/frontier_benchmark.py:4009-4106 | short of a death, a step loses what neither memory nor the files hold any more if and only if a condition on file and memory before the write holds |
| ResumeHistories.SurvivingRunsLoseNothing | tools/frontier_benchmark.py:4088-4106 | when every run can read the results file nothing is lost without a death, even if the rewrite drops an executed line |
| ResumeHistories.FinishedHistory | tools/frontier_benchmark.py:3757-3771 | after the final state write, replanning leaves pending only items whose one line says they were skipped, and the file has one record per combo |
| ResumeHistories.PaidCallsBounded | tools/frontier_benchmark.py:3955-3960 | over every history from an empty directory, paid calls are at most distinct planned combos plus crashes |
| ResumeHistories.PaidCallsCovered | tools/frontier_benchmark.py:3955-3960 | the same from any directory, what it already held counted on both sides |
| ResumeHistories.BudgetAlways | tools/frontier_benchmark.py:2497-2521 | from any directory every paid call is covered by a combo new in the state file, a crash, or the call in flight |
| ResumeCases.SteadyCredentialsLoseOnlyHidden | tools/frontier_benchmark.py:2426-2428 | with the same credentials at every start and no line losing only its newline, a history is lossless if and only if no rewrite meets an executed line that padding hides |
| ResumeCases.SteadyCredentialsLoseNothing | tools/frontier_benchmark.py:2426-2428 | so from files without padded lines, such as this program writes, no write of any such history loses anything |
| ResumeCases.PaddedLineIsLost | tools/frontier_benchmark.py:2438-2442 | with unchanged credentials and every read succeeding a padded executed line is lost and its item bought again |
| ResumeCases.UnreadFileIsBoughtAgain | tools/frontier_benchmark.py:2433-2436 | a run that cannot read the results file buys what the file holds |
| ResumeCases.UnreadRunForgets | tools/frontier_benchmark.py:2433-2436 | such a run loses an item for good without any death |
| ResumeCases.CredentialSuppliedLater | tools/frontier_benchmark.py:4020-4038 | a history from an empty directory in which a durable executed item is lost and bought twice |
| ResumeCases.BlockedForever | tools/frontier_benchmark.py:4025-4073 | with such a line, or two such lines, out of reach of a torn end, no run ever reaches its rewrite or final state write again |
| ResumeCases.GapBlocksEveryFinish | tools/frontier_benchmark.py:2428-2430 | every line of the tolerance gap can be resumed from with any plan and lets no run finish |
| ResumeCases.LinesOfTheGap | tools/frontier_benchmark.py:4025-4073 | five concrete lines of the gap |
| ResumeCases.InfiniteRepeatIndexRaises | tools/frontier_benchmark.py:2450-2459 | an executed record with an infinite repeat index makes the resume reader raise |
| ResumeCases.RaisingReaderBlocksEveryStart | tools/frontier_benchmark.py:3733-3755 | with a line on which the reader raises only a run that cannot read the file starts |
| ResumeCases.OwnFilesNeverRaise | tools/frontier_benchmark.py:2537-2551 | over every history from a directory only this program has written, a run can be started between runs and a rewrite goes through once nothing is pending |
| BenchmarkPlan.BuildWorkItems | tools/frontier_benchmark.py:978-1008 | the nested loops produce the plan of the chosen order, and the effective seed is recorded only for shuffled plans |
| BenchmarkPlan.EveryShufflePlansOnce | tools/frontier_benchmark.py:978-1008 | for every shuffle each enabled contestant, case and repeat is planned exactly once |
| BenchmarkPlan.ContestantMajor | tools/frontier_benchmark.py:1001-1007 | all items of an earlier contestant precede all items of a later one |
| BenchmarkPlan.PlanAt | tools/frontier_benchmark.py:1001-1007 | item (i * cases + j) * repeat + r of the plan is contestant i, case j, repeat r, and there are no others |
| BenchmarkPlan.EnabledInOrder | tools/frontier_benchmark.py:991-992 | in a fixed order the enabled contestants stand as in the manifest |
| BenchmarkPlan.FilterSplitsPlan | tools/frontier_benchmark.py:3765-3771 | skipped and pending items are together the plan, none lost and none doubled |
| Percentile.Brackets | tools/frontier_benchmark.py:1352-1371 | the percentile of an ascending sequence lies between the elements bracketing its rank, and is the minimum at 0 and the maximum at 100 |
| Percentile.PercentileAt | tools/frontier_benchmark.py:1362-1371 | the k-th of n elements is the percentile at 100 k / (n - 1), and between two of them the value is linear in the percentage |
| Percentile.MonotoneInPercentage | tools/frontier_benchmark.py:1362-1371 | it never falls as the percentage grows, across element boundaries too |
| Percentile.MonotoneInData | tools/frontier_benchmark.py:1362-1371 | raising data pointwise never lowers it |
| Percentile.ValueExactly | tools/frontier_benchmark.py:1352-1371 | with two or more elements a value is returned exactly for percentages up to 100 whose rank is at least minus the number of elements |
| Percentile.NegativePercentageWraps | tools/frontier_benchmark.py:1364-1371 | k rank steps below the minimum lies the k-th element from the end |
| SummaryCsv.WriteSummaryCsv | tools/frontier_benchmark.py:2671-2727 | the printing loops produce the file text of header and rows |
| SummaryCsv.FileBack | tools/frontier_benchmark.py:2658-2727 | reading the written file back, by the rules of section 2 of RFC 4180, returns exactly the rows with leading formula characters neutralised |
| SummaryCsv.CellsAreNeutral | tools/frontier_benchmark.py:2658-2668 | a reader sees an apostrophe and the text for a text that begins with `=`, `+`, `-` or `@`, any other text as it is, and nothing for a missing value |
| SummaryCsv.QuotedExactly | tools/frontier_benchmark.py:2666-2668 | a cell is quoted exactly when its text has a comma, a quote or a line feed, and is the text otherwise |
| SummaryCsv.PrintsAlike | tools/frontier_benchmark.py:2658-2727 | two tables print alike exactly when they differ in neutralisation only |
| GuardIdentity.AuthorizationIsMatchPlusEvidence | tools/process_guard.py:455-563 | a kill is authorized if and only if the tolerant comparison passes, both create times are known and one more attribute is confirmed |
| GuardIdentity.MatchReasons | tools/process_guard.py:455-493 | the tolerant comparison passes exactly when no attribute known on both sides differs |
| GuardIdentity.ComparedExactly | tools/process_guard.py:455-563 | both comparisons in their terms: equal pid, create times no further apart than the tolerance either way, canonical executables, parents and tokens equal where known; the kill gate also wants both times known and one of the others |
| GuardIdentity.MatchIsNotAuthorization | tools/process_guard.py:496-563 | a match of nothing but the pid does not authorize |
| GuardIdentity.CanonicalFormsAreInterchangeable | tools/process_guard.py:228-235 | for an idempotent canonical form neither verdict depends on how the recorded or the live path is spelled |
| GuardDescendants.CollectDescendants | tools/process_guard.py:818-840 | terminates on every table, cyclic or not, and returns exactly the pids other than the root reachable from it, strictly ascending; nothing when listing fails |
| GuardDescendants.ClosedHoldsChain | tools/process_guard.py:832-839 | a set closed under children that holds the start of a chain holds its end |
| GuardShutdown.TerminateProcess | tools/process_guard.py:866-903 | signals the given pid only, only if it exists first, starts with a request to terminate and forces only right after seeing it alive; success means exactly that the last observation found it gone, and failure comes only after force or a refused signal |
| GuardShutdown.ShutdownProcess | tools/process_guard.py:1016-1188 | one stop meets the whole contract: signals only to the recorded pid, only after a snapshot created within five seconds of the recorded time and otherwise matching, with a listing before and after and force only on a process just seen alive; tracked and listed descendants kept on record unless seen gone; erasure only after root, descendants and port were seen free; survivors only if seen alive or listed; and every reason given is one that was observed |
| GuardShutdown.GateIsMayKill | tools/process_guard.py:1059-1096 | for the recorded metadata the gate asks for the same pid, create times at most five seconds apart, no known difference in executable, parent or run id, and one of these known on both sides |
| GuardShutdown.RefusalIsTrue | tools/process_guard.py:1096-1108 | a refusal gives one reason, and it holds of the snapshot |
| GuardShutdown.PersistMetadata | tools/process_guard.py:976-997 | the file afterwards is the updated record or, on a write error, the old contents |
| GuardShutdown.TrackedUntilSeenGone | tools/process_guard.py:1068-1188 | over any sequence of stops a tracked descendant stays on record until some stop sees it not to exist |
| GuardShutdown.SignalsNeedProof | tools/process_guard.py:1059-1132 | over any sequence of stops every signal goes to the pid recorded at its beginning, in a stop whose own snapshot passed the gate against the recorded identity |
| GuardShutdown.OnlySuccessErases | tools/process_guard.py:1000-1188 | a file that disappears was erased by a successful stop, and reported retention implies the file is there |
| GuardLaunch.TerminateSpawnedTree | tools/process_guard.py:906-957 | only the spawned pid and pids listed under it are signalled, none when a snapshot shows a create time more than five seconds away; otherwise each of them was asked to terminate and forced or seen gone, and is reported unless seen gone, over at most six listings, fewer only when nothing was left alive |
| GuardLaunch.Launch | tools/process_guard.py:1205-1319 | ports outside 1 to 65535 are refused; metadata, field by field, is written only for a process snapshotted with a readable executable and, with a port, after it was free and then owned by a matching listener; each failure says what was observed, leaves the file alone and, once spawned, cleans up unless the write failed |
| GuardLaunch.MatchIsLikeness | tools/process_guard.py:1257-1293 | a listener counts as the launched process when the pid is the same, the create times at most five seconds apart, and executable, parent and token equal where known |
| GuardLaunch.OnlyAFailedWriteOrphans | tools/process_guard.py:917-918 | a launch that fails after spawning cleans up if and only if it did not fail in writing the metadata; cleaning up terminates or reports the whole tree it was seen to start, unless the pid was reused meanwhile, when nothing is signalled and only the pid reported |
| GuardLaunch.AWriteCanFail | tools/process_guard.py:1295-1317 | a concrete run in which the write fails and the process is neither signalled nor recorded |
| GuardLaunch.StopAfterLaunch | tools/process_guard.py:1295-1315 | for metadata from a launch a stop may kill exactly when the pid is the same, the create times are at most five seconds apart and the canonical executable agrees; parent and token never decide |
| GuardLaunch.LaunchDropsTracking | tools/process_guard.py:1295-1317 | descendants tracked in an existing file are dropped exactly when a launch succeeds over it |
| AdapterFiles.ComputeFingerprint | tools/generate_adapters.py:368-385 | the hashing loop digests path, zero, contents, zero for the sorted distinct canonical paths, or names the first missing file |
| AdapterFiles.FingerprintIgnoresOrder | tools/generate_adapters.py:368-385 | order and repetition in the manifest do not change the fingerprint |
| AdapterFiles.FingerprintNeedsEveryFile | tools/generate_adapters.py:375-380 | it is defined exactly when every canonical file exists |
| AdapterFingerprint.CanonicalExactly | tools/generate_adapters.py:368-373 | the canonical paths are the manifest, the protocol, the orchestrator, and every role, workflow and policy path |
| AdapterFingerprint.MissingFileFails | tools/generate_adapters.py:373-380 | a missing file named by any of them makes the fingerprint fail, with the first missing one by code point |
| AdapterFingerprint.ChangedFileShows | tools/generate_adapters.py:374-385 | for a digest that never repeats, changing one canonical file and no other changes the fingerprint |
| AdapterFingerprint.TwoChangesCanHide | tools/generate_adapters.py:381-384 | changing two can leave it the same, whatever the digest, since contents are not delimited |
| AdapterFiles.ExpectedAreNotTemporary | tools/generate_adapters.py:257-283 | no generated path is the temporary name of any path |
| AdapterRegenerate.BuildExpected | tools/generate_adapters.py:257-283 | the loops fill the dictionary of expected files |
| AdapterExpected.ExpectedExactly | tools/generate_adapters.py:257-283 | the expected files are exactly those of a list of paths whose adapter is active, and whose workflow is in the manifest; role files are rendered from the role's path in the manifest or the conventional one, commands from the workflow's |
| AdapterExpected.OrderExactly | tools/generate_adapters.py:257-283 | they are produced in the order of that list |
| AdapterExpected.AllowedExactly | tools/generate_adapters.py:13-19 | only the OpenCode directory has files of its own: node_modules and all below, and three name patterns |
| AdapterExpected.StaleExactly | tools/generate_adapters.py:399-447 | a file is stale exactly when it lies in one of four directories, active or not, is neither expected nor the plugin's and can be reached, or is CLAUDE.md without claude |
| AdapterRegenerate.CheckAllowlisted | tools/generate_adapters.py:388-396 | true if and only if some pattern covers the path |
| AdapterRegenerate.PruningIsInherited | tools/generate_adapters.py:388-396 | what a `/**` pattern covers it covers with everything below, so pruning for it hides no reportable file |
| AdapterRegenerate.PrunedByNameHides | tools/generate_adapters.py:421-430 | a directory called package.json, pruned by that pattern of the allow list, hides a file below it that the file test would report |
| AdapterRegenerate.ReportedSplits | tools/generate_adapters.py:415-440 | what is reported below a directory is its reportable files and what is reported below the subdirectories that can be entered |
| AdapterRegenerate.Walk | tools/generate_adapters.py:415-440 | the pruned walk over a directory tree reports exactly the reportable files on whose way every directory can be entered |
| AdapterRegenerate.ScanStale | tools/generate_adapters.py:399-447 | the scan of all four directories and the root file reports exactly the stale files of the workspace |
| AdapterRegenerate.Workspace.WriteAll | tools/generate_adapters.py:481-493 | writes exactly the missing and drifted files, in order; afterwards expected files are as expected, their temporaries gone and all else untouched |
| AdapterRegenerate.Workspace.Check | tools/generate_adapters.py:455-467 | missing and drifted are exactly the expected files absent and different, stale exactly the stale files |
| AdapterRegenerate.Regenerate | tools/generate_adapters.py:496-541 | a regeneration computes the fingerprint of the workspace and writes what it implies, or changes nothing when a canonical file is missing |
| AdapterRegenerate.RegenerateIsFixpoint | tools/generate_adapters.py:455-493 | after a regeneration nothing is missing or drifted, a second one writes nothing, and the stale files are the old ones less overwritten temporaries |
| AdapterRegenerate.StaleUnchangedExactly | tools/generate_adapters.py:399-493 | the stale set is unchanged if and only if no stale file is the temporary of a file missing or drifted beforehand |
| AdapterRegenerate.StaleTemporaryVanishes | tools/generate_adapters.py:470-478 | a file called config.toml.tmp beside a drifted configuration is stale before a regeneration and gone after it |
| AdapterRegenerate.FingerprintSurvivesRegeneration | tools/generate_adapters.py:368-493 | when no canonical path, however spelled, leads to a generated file or its temporary, the fingerprint and the expected set survive the regeneration |
| LogEntries.EntriesArePlausible | tools/monitoring_report.py:225-276 | an entry is built exactly for a request line, a status from 100 to 599 and a timestamp within 1e12, carries them with the URI, the path cut after 200 characters and the size if it lies between 0 and 1 GiB |
| LogAggregation.HttpStats.Add | tools/monitoring_report.py:345-365 | one turn of the loop raises exactly for an entry without a calendar date, and otherwise updates each figure by the contribution of that entry |
| LogAggregation.Aggregate | tools/monitoring_report.py:322-399 | the pass over the sorted entries computes figures specified on the multiset of valid entries, or raises exactly for an entry without a calendar date or a zero window with no observed span |
| LogFigures.CategoriesExactly | tools/monitoring_report.py:150-163 | player activity is the number of entries for one of the six pages or below `/api/v1/` other than the two health paths; health, asset and other requests are counted apart |
| LogFigures.CountsExactly | tools/monitoring_report.py:335-371 | total, skipped, error counts, verbs, days and hours are the numbers of entries with a timestamp within 1e12 that have the status, verb, day, or a timestamp within those 3600 seconds |
| LogFigures.ClassesExactly | tools/monitoring_report.py:316-319 | each status class counts the entries of its hundred |
| LogFigures.TopPathsExactly | tools/monitoring_report.py:373-379 | at most ten paths by falling count and then by code point, and a path left out ranks behind all ten |
| LogFigures.RateExactly | tools/monitoring_report.py:381-392 | the rate is the total over the observed span, of at least a second, or over the window without a span |
| LogFigures.RaisesExactly | tools/monitoring_report.py:322-399 | the pass raises exactly for a timestamp outside the years 1 to 9999, or for entries all at one instant and a zero window |
| LogResults.FarFutureRaises | tools/monitoring_report.py:225-276 | a parsed entry of the year 11476 passes both clamps and makes the pass raise |
| LogResults.ZeroWindowRaises | tools/monitoring_report.py:381-392 | one ordinary entry and a window of zero make the pass raise, and no other window does |
| LogResults.OneUndatedLineSpoilsTheLog | tools/monitoring_report.py:1065-1072 | for a positive window the pass over a parsed log raises exactly when one line has a timestamp outside the calendar |
| LogResults.OrderDoesNotMatter | tools/monitoring_report.py:322-399 | rearranging the entries changes no figure |
| LogResults.EveryEntryCountedOnce | tools/monitoring_report.py:335-399 | total plus skipped is the input length; methods, classes, days, hours and categories each add up to total |
| LogResults.PageApiIsPagePlusApi | tools/monitoring_report.py:362-365 | the player-activity figure is Page plus API |
| LogResults.Count5xxIsTheClass | tools/monitoring_report.py:316-355 | the 5xx count equals the class 5xx if and only if no counted status exceeds 599 |
| LogResults.ParsedLogsAgreeOn5xx | tools/monitoring_report.py:225-355 | for parsed logs nothing is skipped and the two 5xx figures agree |
| LogResults.HoursAscend | tools/monitoring_report.py:367-371 | hourly buckets are whole, non-empty hours in strictly ascending order |
| Counters.TallySum | tools/monitoring_report.py:345-371 | the counts of a counter add up to the number of keys counted |
| Ordering.SortedUnique | tools/monitoring_report.py:371-379 | a strictly sorted list is determined by its elements, which makes the reported series independent of input order |

## Left out

- Numbers of the JSON decoder stay lexemes: their values are not modelled, nor is the recursion error the gate catches as a last resort.
- `bounded_json_loads` calls the decoder of the Python library, whose own source is not part of this model; positions in its error messages are not modelled beyond how much was accepted.
- BoundedJson.Verdict: a `str` argument that itself holds a lone surrogate is not modelled, since the characters of the model are Unicode scalar values; escaped ones are.
- Concurrent execution of the benchmark, `--rerun`, dry runs, confirmation and configuration errors: they do not take part in the sequential protocol.
- ResumeModel.Enabled: nobody else touches the two files while a run lasts, and the tests whether they are files answer truthfully. An OSError anywhere but in the resume reader ends the run, as a death does.
- ResumeModel.TornAppend: a torn append leaves an incomplete object or a whole object without its newline; other partial writes of a file system are not modelled, and `os.replace` is atomic.
- ResumeModel.Line: an execution order that is a list or not a number (NaN), and nesting deep enough for a recursion error, are not modelled; a corrupt `state.json`, which this program never writes, is not either. Telemetry changes fields of a record that nothing here looks at.
- ResumeModel.RecordFor: assumes of the server's reply that it does not claim the status of a skipped item and gives its attempt id as text or not at all, as the backend, which is not part of this model, does.
- Aggregation per contestant, reports, archives, secret scans, drivers and HTTP: plumbing or single-branch checks.
- `terminate_fn`, `wait_fn` and `snapshot_fn` seams: shutdown is modelled with its defaults. Platform parsing behind the probes is replaced by arbitrary answers.
- GuardShutdown.ShutdownProcess: assumes that nobody else writes the metadata file during a stop; whether a signalled pid still belongs to the verified process at that instant is beyond what any snapshot can show.
- GuardLaunch.Launch: no probe raises; a listing command whose output cannot be decoded would end the launch with an exception.
- GuardLaunch.TerminateSpawnedTree: the survivors it reports are those that resisted; processes appearing after its fifth sweep are not in the list, as in the code.
- AdapterRegenerate.ScanStale: the order of the report and the notes about skipped directories are not modelled; links to files count as files, links to directories, which the walk lists and does not follow, are not part of the tree, and containment of paths is a fixed property of the host.
- AdapterFiles.ExpectedFiles: the template texts are an arbitrary function of path, fingerprint and source path; manifest validation is assumed done.
- LogAggregation.Aggregate: timestamps are exact reals, the calendar day is an arbitrary function of those in the years 1 to 9999, and hosts whose C library refuses some of these years are left out; so are reading and unwrapping raw log lines, the product metrics and the health summary.
- `tools/backup_production.py`, `tools/build_release.py` and the end-to-end scripts would add only easy members.
