# RustFS evidence tooling, modelled and proved

RustFS decides with a set of Python tools whether builds, test runs and release
evidence can be trusted. This project models the parts of those tools that carry
state, loops, concurrency or graph reasoning, and proves what they guarantee.

| file | models |
|---|---|
| `RustBlanking.dfy` | the length-preserving lexer that blanks Rust comments and literals |
| `LiteralStripper.dfy` | the line-by-line literal stripper and the brace matching on top of it |
| `CaseReport.dfy` | the log state machine behind the functional case report |
| `CaseTable.dfy` | the Markdown writer of that report and the parser that reads case tables back |
| `ChainEvidence.dfy` | aggregation of the twelve suites into a complete-success verdict |
| `SuiteRecord.dfy` | one suite's record, from its written report to the chain's verdict |
| `ChainHealth.dfy` | collecting, merging and publishing the chain-health dashboard |
| `E2eBinary.dfy` | the build/run protocol around one server binary |
| `ApprovalPublish.dfy` | publication of a migration approval through a temporary file and a hard link |
| `RestartTrace.dfy` | the restart diagnostic: rounds, acceptance, exit codes |
| `CheckpointEvidence.dfy` | the summary of a restart trace and the G02 and R-E release checks on it |
| `CrateIsolation.dfy` | the worklist that looks for dependencies on the end-to-end harness |
| `SymbolIndex.dfy` | address look-up with bisection and a bounded look-back |
| `ProfileSummary.dfy` | the cycle-safe stack walk and the sample counters |
| `ReleaseRegistry.dfy` | lanes and gates of the release registry, for checker and planner |
| `EvidencePlan.dfy` | the status roll-up of the evidence plan |
| `Text.dfy`, `StableSort.dfy` | shared helpers |

`dafny verify dfyconfig.toml` checks everything.

## How the models are built

- The three publication protocols are state machines. One step is one file-system
  or network effect of one process; any number of processes interleave, and every
  process may die between two effects. Theorems are about all runs.
- The lexers, the report writer and the report reader work on character sequences.
  Where the source indexes past the end of its text, the model returns `None`.
- Log lines reach the case-report machine as events, one per regular expression.
- JSON and TOML documents are datatypes; where values of the wrong type matter, the
  datatype says what becomes of them.
- A loop of the source is a method with a loop, proved against a specification
  function or a declarative predicate. The lemmas are about those.

## Results where a wished-for property fails

Each has a lemma at a failing input and one that gives the exact condition.

- Blanking fails on a literal left open by a final backslash: `LoneBackslashFails`, and
  exactly `BlankFailsExactlyOnDanglingEscape`.
- A case table whose names hold a line break is not read back: `LineBreakIsRefused`, and
  exactly `LogRoundTrip`.
- The count test applied when a suite is recorded accepts logs that the case report
  calls invalid: `RecordMissesUnstartedCase`, and exactly `AcceptedRecordIsValidExactly`.
- A permitted skip is accepted only for trailing suites, because records are paired with
  the full suite list: `PermittedSkipIsRejected`, and exactly `Aggregate`. Chain health
  verifies only chains that skipped nothing (`HealthVerifiesExactlyUnskipped`).
- A visible approval can vanish in a machine crash before the directory is synced:
  `CrashCanLoseAVisibleApproval`, and exactly `ApprovalSurvivesExactly`.
- The look-back of eight entries misses symbols that eight later ones start inside:
  `NestedSymbolsAreMissed`, and exactly `MissedExactly`.
- A registry that the checker accepts can be refused by the planner: `PlannerCanRefuse`, and
  exactly `PlannerAcceptsWhatTheCheckerAccepts`.

## Model

| member | source | states |
|---|---|---|
| `RustBlanking.RustCodeOnly` | scripts/check_test_wiring.py:534-588 | the loop that overwrites a character list computes the suffix specification, or fails where the list is overrun |
| `RustBlanking.QuotedEnd` | scripts/check_test_wiring.py:536-545 | the scan for a closing quote ends where the specification says, one past the text after a dangling escape |
| `RustBlanking.BlockEnd` | scripts/check_test_wiring.py:553-564 | the depth-counting scan ends at the close of a nested block comment or at the end of the text |
| `RustBlanking.BlankRange` | scripts/check_test_wiring.py:584-586 | overwrites one range in place with spaces, keeping newlines and everything outside |
| `RustBlanking.BlankKeepsShape` | scripts/check_test_wiring.py:535-588 | length and newline positions are kept, and every character is kept or becomes a space |
| `RustBlanking.KeptIsCode` | scripts/check_test_wiring.py:549-582 | a character that survives, other than space and newline, stands where no token opens |
| `RustBlanking.NothingOpensInOutput` | scripts/check_test_wiring.py:550-579 | no comment, string, raw string or character literal opens anywhere in the output, and no double quote is left |
| `RustBlanking.BlankIsIdempotent` | scripts/check_test_wiring.py:534-588 | blanking the output changes nothing |
| `RustBlanking.QuotedLengthIsFirstClose` | scripts/check_test_wiring.py:536-545 | the quoted scan stops after the first delimiter preceded by an even run of backslashes; without one it ends at the text's end, one further when a backslash is left over |
| `RustBlanking.BlankFailsExactlyOnDanglingEscape` | scripts/check_test_wiring.py:536-545 | the lexer fails if and only if its scan reaches a literal that is never closed and ends in an unpaired backslash |
| `RustBlanking.LoneBackslashFails` | scripts/check_test_wiring.py:536-545 | a quote followed by one backslash is such a text |
| `RustBlanking.ItemLength` | scripts/check_test_wiring.py:550-579 | every comment, raw string and quoted literal of a token stream is recognised as one token of its own length, nested comments included |
| `RustBlanking.BlankOfItems` | scripts/check_test_wiring.py:534-588 | the text of any lexically valid token stream is blanked token by token, keeping exactly its code characters |
| `LiteralStripping.LiteralStripper.Feed` | scripts/find_assertless_tests.py:104-153 | one line's output and the carried state are those of the line function; raw hashes are set only while a string is open |
| `LiteralStripping.LiteralStripper.constructor` | scripts/find_assertless_tests.py:100-102 | a new stripper stands in code |
| `LiteralStripping.WholeOfLine` | scripts/find_assertless_tests.py:104-153 | one line of the whole-text automaton's pass is one call of the stripper |
| `LiteralStripping.EscapedLineEnd` | scripts/find_assertless_tests.py:119-121 | a backslash at the end of a line escapes nothing on the next one |
| `LiteralStripping.StreamingIsWhole` | scripts/find_assertless_tests.py:90-153 | feeding lines one by one with carried state gives the stripped lines and final state of one pass over the joined text |
| `LiteralStripping.StreamingOfText` | scripts/find_assertless_tests.py:165-167 | the same for every text split at its newlines |
| `LiteralStripping.CountBraces` | scripts/find_assertless_tests.py:198-203 | the character loop adds the line's brace balance and notes an opening brace |
| `LiteralStripping.MatchBody` | scripts/find_assertless_tests.py:191-207 | the matched body ends at the first line where braces have opened and balanced in the whole-text stripping, or at the end of the file |
| `CaseReport.GenerateReport` | scripts/functional_case_report.py:17-68 | the log loop with rows, pending, context and complete computes the machine's rows and verdict |
| `CaseReport.PendingThroughout` | scripts/functional_case_report.py:26-42 | after every log, pending maps case ids one-to-one to running rows of that id |
| `CaseReport.PendingIsOpenThroughout` | scripts/functional_case_report.py:26-42 | a case is pending exactly when one of its starts is still open |
| `CaseReport.NothingRuns` | scripts/functional_case_report.py:31-46 | no row is left running exactly when every start is closed by a done before the next context line or restart |
| `CaseReport.ValidExactlyOnCleanLogs` | scripts/functional_case_report.py:17-57 | without a matrix the report is valid if and only if there is a case, every start is closed by a non-failing done and every done closes a start |
| `CaseReport.CountsAcceptExactly` | scripts/functional_case_report.py:17-46 | the machine's counts show a pass, no failure and nothing running exactly when the log has a pass, no failure and every start closed |
| `CaseTable.WriteReport` | scripts/functional_case_report.py:46-55 | the writer's text is the summary, header, escaped rows and note, line by line |
| `CaseTable.ReportCounts` | scripts/functional_chain_evidence.py:72-90 | the reader's loop over lines with its column computes the reading function, errors included |
| `CaseTable.ReadBack` | scripts/functional_chain_evidence.py:72-90 | reading a written table gives exactly the writer's counts with no skip if no name holds a line break, and is refused as incomplete otherwise; bars in names do not matter |
| `CaseTable.NamesOneLineExactly` | scripts/functional_case_report.py:26-42 | the report's names hold no line break exactly when no start's name and no context in force at a start or done does |
| `CaseTable.LogRoundTrip` | scripts/functional_case_report.py:23-55 | for every log the table reads back as the machine's counts if those names and contexts stay on one line and is refused otherwise, and a clean log shows no failing, running or skipped case |
| `CaseTable.PlainLogIsOneLine` | scripts/functional_case_report.py:26-42 | a log without line breaks in any name or context is such a log |
| `CaseTable.LineBreakIsRefused` | scripts/functional_chain_evidence.py:72-90 | the report of a clean two-event log whose case name holds a next-line character is refused as incomplete |
| `CaseTable.RecordAcceptsExactly` | scripts/functional_chain_evidence.py:142-143 | the count test on what is read back from the written report accepts exactly when the log puts no line break into a name and has a pass, no failure and every start closed |
| `CaseTable.AcceptedRecordIsValidExactly` | scripts/functional_chain_evidence.py:142-143 | a log that the count test accepts has a valid report exactly when every done closes a start |
| `CaseTable.RecordMissesUnstartedCase` | scripts/functional_chain_evidence.py:142-143 | a done without a start passes the count test although the report is invalid |
| `ChainEvidence.ValidateRecords` | scripts/functional_chain_evidence.py:224-232 | accepts exactly when names equal the expected ones and every record passes for the suite at its position of SUITES |
| `ChainEvidence.Aggregate` | scripts/functional_chain_evidence.py:209-221 | accepts if and only if the guards hold, the skipped lanes are a suffix of SUITES and the directory holds exactly the passing records of the lanes before it |
| `ChainEvidence.OnlyTrailingLanesCanBeSkipped` | scripts/functional_chain_evidence.py:213-232 | a skipped lane before one that ran is rejected whatever was permitted |
| `ChainEvidence.PermittedSkipIsRejected` | scripts/functional_chain_evidence.py:209-232 | inputs that meet every guard, with the second suite skipped by permission and eleven passing records, are rejected |
| `ChainEvidence.AllSkippedIsAccepted` | scripts/functional_chain_evidence.py:209-221 | with every lane skipped by permission, acceptance means an empty directory |
| `ChainEvidence.HealthVerifiesExactlyUnskipped` | scripts/functional_chain_health.py:26-31 | of the chains aggregation accepts, health verifies exactly those that skipped nothing |
| `ChainEvidence.VerifiedCoversEverySuite` | scripts/functional_chain_evidence.py:224-232 | a verified chain holds a passing record of each of the twelve suites |
| `ChainEvidence.Summarize` | scripts/functional_chain_evidence.py:159-181 | all twelve lanes are retained with their result and identified evidence, and complete means that every suite succeeded and left a passing record and nothing else is there |
| `SuiteRecord.MakeRecord` | scripts/functional_chain_evidence.py:131-156 | the record of a suite with a case table, whatever fails on the way: digest, counts and validity as far as it got |
| `SuiteRecord.RecordPassesExactly` | scripts/functional_chain_evidence.py:135-145 | the record passes aggregation exactly when scripts and jobs were right and the counts read from the report are accepted |
| `SuiteRecord.CompleteChainMeansPassingLogs` | scripts/functional_chain_evidence.py:159-181 | in a complete chain every suite whose record was made from a log's report has a log with a pass, no failure, every start closed and no line break in a name |
| `SuiteRecord.VerifiedChainMeansPassingLogs` | scripts/functional_chain_health.py:26-31 | the same for a chain that health verifies |
| `ChainHealth.Collect` | scripts/functional_chain_health.py:67-111 | keeps per source the latest verified success, the first examined winning ties, reports the newest attempt's verification, recomputes every fresh flag, and is refused exactly when attempts changed or the ref is empty |
| `ChainHealth.NewestFirstKeepsListingOrder` | scripts/functional_chain_health.py:73-73 | attempts are examined from the newest start to the oldest, and those that started together in listing order |
| `ChainHealth.Observation.MergeHistory` | scripts/functional_chain_health.py:114-123 | updates the collected entries in place to the per-source later of both, or refuses and leaves them |
| `ChainHealth.MergeAdvances` | scripts/functional_chain_health.py:114-123 | a merge loses no source, takes none back in time on either side, and has correct fresh flags |
| `ChainHealth.StepIsAtomic` | scripts/functional_chain_health.py:126-133 | every step of every publisher either leaves the dashboard alone or is a merge with the very document it replaces |
| `ChainHealth.DashboardIsTheJoin` | scripts/functional_chain_health.py:106-133 | over every interleaving no publication is lost, every entry comes from the start or a published collection, and flags are correct after a publication |
| `ChainHealth.DashboardNeverGoesBack` | scripts/functional_chain_health.py:114-133 | between any two states of a run observation time, sources and completion times never go back |
| `E2eBinary.MutualExclusion` | scripts/e2e_binary.py:92-108 | in every state of every run at most one process is inside the guarded section |
| `E2eBinary.CrashBlocksForever` | scripts/e2e_binary.py:92-108 | once a process died holding the marker, nobody enters again |
| `E2eBinary.SidecarComesFromStableBuild` | scripts/e2e_binary.py:125-162 | a sidecar exists only if a build saw one source identity before and after compiling and then hashed the binary |
| `E2eBinary.RunReturningZero` | scripts/e2e_binary.py:166-215 | a run that returned 0 verified the same record, sources and binary at both ends, the sidecar stayed that record in between, and the record stems from a stable build |
| `E2eBinary.SomeRunReturnsZero` | scripts/e2e_binary.py:92-215 | a build followed by a run that returns 0 is a run of the protocol |
| `E2eBinary.HistoryThroughout` | scripts/e2e_binary.py:92-215 | what every phase claims to have seen was so at the positions it recorded, in every state of every run |
| `ApprovalPublish.InvThroughout` | scripts/prepare_replacement_migration.py:87-103 | the publication invariant holds in every state, crashes and lost data included |
| `ApprovalPublish.ApprovalIsComplete` | scripts/prepare_replacement_migration.py:87-103 | whenever the path exists it holds one publisher's complete synced bytes |
| `ApprovalPublish.ApprovalNeverReplaced` | scripts/prepare_replacement_migration.py:96-96 | while the machine does not crash, a visible approval is never replaced or removed |
| `ApprovalPublish.ApprovalSurvivesExactly` | scripts/prepare_replacement_migration.py:96-101 | a visible approval survives a step exactly unless the machine crashes before the entry reached the disk |
| `ApprovalPublish.CrashCanLoseAVisibleApproval` | scripts/prepare_replacement_migration.py:96-101 | a six-state run in which a crash between link and directory sync removes a visible approval |
| `ApprovalPublish.DurableForever` | scripts/prepare_replacement_migration.py:97-101 | an approval on disk stays, unchanged, in every later state |
| `ApprovalPublish.ReturnedIsDurable` | scripts/prepare_replacement_migration.py:87-103 | once publish has returned, the path holds that publisher's bytes for ever, crashes included |
| `ApprovalPublish.SomePublisherReturns` | scripts/prepare_replacement_migration.py:87-103 | a publisher that returns is a run of the protocol |
| `ApprovalPublish.OnlyOneReturns` | scripts/prepare_replacement_migration.py:87-103 | at most one publisher ever succeeds |
| `RestartTrace.ValidateRecoverableQuantum` | scripts/diagnose_scanner_enumeration_restart.py:104-141 | the loop with previous and four flags accepts exactly the traces of valid, linked reports that made every kind of progress and, if asked, converged |
| `RestartTrace.Run` | scripts/diagnose_scanner_enumeration_restart.py:144-193 | exit 0 if and only if some written trace passes, exit 1 if and only if some written trace stays unmet, exit 2 otherwise; the trace returned is that one and the replay flag tells whether some adjacent pair replayed |
| `RestartTrace.PassingRunReplaysOnlyAsRecheck` | scripts/diagnose_scanner_enumeration_restart.py:76-123 | a run with exit 0 replays a raw window at most in its last pair, as a complete recheck after full retention |
| `RestartTrace.UnmetRunNeverReplays` | scripts/diagnose_scanner_enumeration_restart.py:181-193 | a run with exit 1 has no replaying pair, so its message never names a replay |
| `RestartTrace.RetainedNeverDecreases` | scripts/diagnose_scanner_enumeration_restart.py:116-120 | retained objects never decrease over any stretch of an accepted trace |
| `RestartTrace.RetentionIsPaidFor` | scripts/diagnose_scanner_enumeration_restart.py:40-67 | retention gained over a trace is at most the objects processed, and those at most rounds times budget |
| `RestartTrace.CommittedNeverDecreases` | scripts/diagnose_scanner_enumeration_restart.py:124-127 | committed page entries never decrease while the parent is the same and the index incomplete |
| `RestartTrace.AcceptedIsNotTrivial` | scripts/diagnose_scanner_enumeration_restart.py:104-141 | an accepted, converged trace expected at least one object and had a positive budget |
| `CheckpointEvidence.Summarize` | scripts/run_scanner_heal_checkpoint_crash_evidence.py:155-197 | succeeds exactly on converged, observed, bounded traces, and its fields are the maxima, sums and existence facts of the trace |
| `CheckpointEvidence.CheckRounds` | scripts/run_scanner_heal_checkpoint_crash_evidence.py:171-180 | the loop accepts exactly bounded, continuous rounds and sets the frontier flag from the second round on |
| `CheckpointEvidence.AcceptedSummarises` | scripts/run_scanner_heal_checkpoint_crash_evidence.py:55-180 | a trace the diagnostic accepts as converged loads and summarises if and only if it has two rounds, positive process ids, some raw entry and no report marked as fixture, dry run or synthetic |
| `CheckpointEvidence.EvidenceIsJudged` | scripts/check_test_wiring.py:2308-2340 | its evidence passes G02 if and only if the budget is at most 4096, and R-E if and only if moreover there are at most 64 rounds and some round committed an entry for every object |
| `CheckpointEvidence.PassingRunIsJudged` | scripts/check_test_wiring.py:2434-2467 | for a passing run within the command line's limits G02 always passes and R-E passes exactly when the page index was committed in full |
| `CheckpointEvidence.SampleTracePasses` | scripts/check_test_wiring.py:2434-2467 | a two-round trace that is accepted, summarised and passes both gates |
| `CrateIsolation.ReferencesHarness` | scripts/ci_gate.py:60-83 | the recursive scan reports exactly whether a dependency at any depth names, renames or points at the harness or outside the tree, and otherwise adds exactly the manifests that path dependencies pull in |
| `CrateIsolation.StartSet` | scripts/ci_gate.py:86-91 | the members loop goes on exactly when every member matches, raises exactly when globbing raises uncaught before any member failed, and the start set is the root manifest with all matched non-harness members |
| `CrateIsolation.Drain` | scripts/ci_gate.py:92-99 | the worklist terminates and answers whether all reachable manifests are readable and clean, in whatever order they are popped |
| `CrateIsolation.IsIsolated` | scripts/ci_gate.py:54-101 | true if and only if the workspace is readable, every pattern matches and every manifest reachable by path dependencies is readable and does not reference the harness; raises if and only if globbing a member raises uncaught |
| `SymbolIndex.BisectRight` | scripts/summarize_samply_profile_symbols.py:40-40 | the bisection point splits the starts into those up to and those beyond the address |
| `SymbolIndex.Lookup` | scripts/summarize_samply_profile_symbols.py:39-44 | returns the last containing symbol in sorted order if at most seven symbols start after it up to the address, and otherwise nothing; what it returns contains the address |
| `SymbolIndex.DisjointIsWithinLookBack` | scripts/summarize_samply_profile_symbols.py:39-44 | for symbols that do not overlap the look-up is the linear scan at every address |
| `SymbolIndex.DisjointLookup` | scripts/summarize_samply_profile_symbols.py:34-44 | for such symbols in any input order the answer is the one that contains the address |
| `SymbolIndex.MissedExactly` | scripts/summarize_samply_profile_symbols.py:41-41 | the last containing symbol is missed exactly when the eighth symbol after it still starts by the address |
| `SymbolIndex.NestedSymbolsAreMissed` | scripts/summarize_samply_profile_symbols.py:41-41 | nine concrete symbols for which this happens |
| `SymbolIndex.GroupByCode` | scripts/summarize_samply_profile_symbols.py:48-54 | the grouping holds exactly the symbols of each lower-cased code id, in input order |
| `SymbolIndex.BuildIndex` | scripts/summarize_samply_profile_symbols.py:48-54 | one index over all symbols and one for exactly each lower-cased code id |
| `SymbolIndex.LookupByCode` | scripts/summarize_samply_profile_symbols.py:56-63 | the answer is the code id's own if it has one, and the answer over all symbols otherwise |
| `SymbolIndex.ResolvesExactly` | scripts/summarize_samply_profile_symbols.py:47-63 | what is found contains the address, and for symbols that do not overlap something is found, whatever the code id, exactly when some symbol contains it |
| `SymbolIndex.OwnSymbolWins` | scripts/summarize_samply_profile_symbols.py:47-63 | a library whose symbols do not overlap gets its own containing symbol, whatever other libraries hold at the address |
| `ProfileSummary.StackFrames` | scripts/summarize_samply_profile_symbols.py:226-242 | terminates on every table and returns the frames of the visited entries from root to leaf |
| `ProfileSummary.VisitedIsLongestChain` | scripts/summarize_samply_profile_symbols.py:231-240 | the walk follows prefixes without visiting an entry twice and stops only at the end of a chain or where it leads back into itself |
| `ProfileSummary.AcyclicWalkIsPath` | scripts/summarize_samply_profile_symbols.py:226-242 | on every ranked table the walk is the recursive root-to-leaf path |
| `ProfileSummary.RankedExactlyWithoutCycle` | scripts/summarize_samply_profile_symbols.py:231-240 | a table can be ranked exactly when no entry leads back to itself, and the length of the walk is then a rank |
| `ProfileSummary.CycleFreeWalkIsPath` | scripts/summarize_samply_profile_symbols.py:226-242 | on every table without a cycle the walk is the recursive root-to-leaf path |
| `ProfileSummary.Summarize` | scripts/summarize_samply_profile_symbols.py:245-290 | every counter counts exactly the samples with that leaf, function or thread; leaf, thread and resolved plus unresolved counts sum to the total, and leaf is at most inclusive, which is at most the total |
| `ProfileSummary.NameFrames` | scripts/summarize_samply_profile_symbols.py:268-273 | names every frame in order and notes whether any was resolved |
| `ProfileSummary.FrameName` | scripts/summarize_samply_profile_symbols.py:187-223 | the frame's name is the symbol's, the function's own, the address or a placeholder, and it is resolved exactly when the look-up answers for its address and library |
| `ProfileSummary.ResolvedMeansCovered` | scripts/summarize_samply_profile_symbols.py:264-281 | a resolved sample has a frame whose address lies in a symbol, and for symbols that do not overlap every such sample is resolved |
| `ReleaseRegistry.CheckLanes` | scripts/check_test_wiring.py:1503-1525 | accepts exactly well-formed lanes and collects their statuses and the pending lanes' gate sets |
| `ReleaseRegistry.CheckItems` | scripts/check_test_wiring.py:1527-1556 | accepts exactly well-formed requirements with distinct gates on pending lanes and collects them by gate |
| `ReleaseRegistry.MatchLanes` | scripts/check_test_wiring.py:1560-1564 | accepts exactly when every pending lane lists the gates that requirements assign to it |
| `ReleaseRegistry.CheckRegistry` | scripts/check_test_wiring.py:1503-1566 | accepts a schema-2 registry exactly under these conditions and when all required gates are present |
| `ReleaseRegistry.LanesPartitionGates` | scripts/check_test_wiring.py:1558-1564 | in an accepted registry every gate, each of the 21 required ones included, stands in exactly one pending lane, and nothing else does |
| `ReleaseRegistry.ValidateRegistry` | scripts/run_scanner_heal_linux_evidence_plan.py:89-104 | the planner accepts exactly when every entry has a gate, required gates exist, lanes can be collected and every gate is covered by some lane |
| `ReleaseRegistry.SameRequiredGates` | scripts/run_scanner_heal_linux_evidence_plan.py:24-46 | checker and planner require the same gates |
| `ReleaseRegistry.PlannerAcceptsWhatTheCheckerAccepts` | scripts/run_scanner_heal_linux_evidence_plan.py:89-104 | a registry the checker accepts is accepted by the planner if and only if no lane has a gates value that cannot be collected into a set |
| `ReleaseRegistry.PlannerCanRefuse` | scripts/run_scanner_heal_linux_evidence_plan.py:97-101 | for every table of required evidence fields, a registry with all required gates and their fields that the checker accepts and the planner refuses |
| `EvidencePlan.CheckStep` | scripts/run_scanner_heal_linux_evidence_plan.py:554-571 | counts the outputs by state and gives the status that their presence means |
| `EvidencePlan.StatusOnDisk` | scripts/run_scanner_heal_linux_evidence_plan.py:521-571 | what each step status says about the files: all usable, some broken, all absent, or some usable and some absent |
| `EvidencePlan.WalkStage` | scripts/run_scanner_heal_linux_evidence_plan.py:552-586 | one stage's loop extends totals, pending gates and next step to its steps |
| `EvidencePlan.BuildStatus` | scripts/run_scanner_heal_linux_evidence_plan.py:545-616 | the counts sum to expected, pending gates are those of incomplete steps, the next step is the first incomplete one; complete means no incomplete step and no next step, invalid means some invalid step and some invalid stage |
| `EvidencePlan.DecisionMeans` | scripts/run_scanner_heal_linux_evidence_plan.py:599-604 | the decision from the totals is complete exactly when no step is incomplete, and invalid exactly when some step is |
| `EvidencePlan.RejectionMeansInvalidStage` | scripts/run_scanner_heal_linux_evidence_plan.py:587-604 | the decision is invalid exactly when some stage is reported invalid |

## Left out

- Calls to GitHub, git, cargo, rustc and the file system: their results are parameters or nondeterministic steps, the listing that a limited query returns included; paths always resolve.
- JSON, TOML and regular-expression parsing: documents are datatypes and log lines are events.
- SHA-256: digests are uninterpreted; `ChainHealth` takes different dashboard contents to have different digests.
- The storage engine itself, which these tools only observe.
- `report_counts` for performance tables and the fault-tolerance counter: flat folds with one check per row.
- The remaining checks of `validate_summary` and `complete_success` on remote runs, artifacts and timestamps.
- The remaining per-gate evidence checks of the release bundle and the other evidence assemblers: field copying and one-branch requirements.
- Schema-1 registries, and the table of evidence fields each gate requires, which is a parameter of the registry model.
- The text of the upgrade matrix; its verdict is part of `CaseReport.Verdict`.
- Block comments in the literal stripper: the source does not treat them, so neither does its automaton.
- `scan_file` outside brace matching: attribute blocks, function names and assertion patterns.
- The protocol around the server binary assumes, as the source does when it compares inodes, that nobody outside it removes the marker.
- `source_identity` and `file_hash` read file by file; in the binary's protocol each is one sample of the sources or the binary.
- Lower-casing of code ids is that of ASCII letters, because code ids are hexadecimal.
- Lists printed in sorted order (pending gates, skipped lanes, pending lanes) are sets here.
