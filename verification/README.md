# Holdout, verified

Holdout runs a catalog of tasks against a sandbox, collects what reaches an event sink, and archives a scored result.
This project models that pipeline in Dafny and proves what holds of it for every input, every run and every
interleaving.

- **Catalog.** `CatalogFile` is the line-driven parser of `tasks/catalog.yaml`, `CatalogRoundTrip` its printer and the
  round trip, `CatalogReading` says what any text loads as. `TaskDocs` is the second, independent Python reader of the same
  file, `ReaderAgreement` says when the two agree. `CatalogCheck` holds the two checks against the checkout (`Validate`,
  `ValidateResult`), `CheckoutFacts` what a valid catalog says about it.
- **Digest.** `Materials` walks a task directory, normalises line endings (`LineEndings`), sorts in place (`PathSort`)
  and writes the frames (`Frames`). `MaterialFacts` says what the hashed stream stands for, `DigestExample` gives one in
  full.
- **Run.** `Runner` is the loop over the tasks with its finalizer, over the sink (`Sink`), the adapter and the engine
  (`Adapter`), the identifiers (`Identifiers`) and the redaction of error texts (`Redaction`). Theorems about whole runs:
  what is in their way and what their results carry (`RunStages`), every single result (`RunVerdicts`), the validators
  (`RunFacts`), the engine (`RunResources`) and the evidence (`RunEvidence`).
- **Result.** `Model` scores, `Validation` checks archived results and computes the exit code, `Archive` writes the file,
  `Cli` composes the two commands.

How the surroundings are modelled:

- Everything outside the code is a parameter that may answer anything: file contents, clock, host facts, each Docker
  command, the oracle (any function of the events it is shown), the SHA-256 function, the wording of errors. A Docker
  command that reports an error may still have had its effect.
- The coordinator touches the sink at two points of a task, registration and reading; the handler sections that run
  before, between and after them are arbitrary sequences, so every interleaving of handlers and coordinator occurs.
- Methods with loops or fields follow the Go code and are proved equal to a function on values; the theorems are about
  these functions, hence about the methods.
- Go strings are sequences of characters; where bytes matter (paths, contents, the hashed stream) they are bytes. Integers
  are unbounded except where Go's 64-bit range shows (`Atoi`).

Assumptions about the surroundings, stated as types or preconditions: error texts are not empty; the clock does not run
backwards; file names in one directory are distinct, non-empty and free of slash and NUL; each handler goroutine serves
one request; nobody but the adapter changes the engine during a run; a result encoded as JSON decodes to itself
(`Cli.WrittenFilesPass` only).

Where the code and its documentation differ, the code is modelled. The specification draft v0.1, the Markdown file in the
root of the repository, says in section 2, lines 40-41, that an incomplete clean-up stops the run with a partial result
and exit code 2, and that otherwise 3 comes before 1.

- The code stops only for want of an adapter (`RunFacts.StopsAtFirstBlocked`). So it keeps the first rule exactly under
  the condition of `RunFacts.CleanupStopsRunIff`, and the exit codes exactly under that of `Cli.DocumentedRunCodeIff`;
  `Cli.RunGoesOnBehindFailedCleanup` gives runs that break both.
- Line 41 also names clean-up errors under code 3, for runs that complete normally. Read so, the code deviates only where
  a breach comes first (`Cli.UncleanRunExit`).
- It returns at the first offending task (`Validation.DocumentedPriorityIff`).

Lines 34-35 say that existing resources of the same name are neither reused nor removed; this holds for containers and
fails for volumes (`Adapter.CleanCycleConservesIff`).

## Model

| member | source | states |
|---|---|---|
| CatalogFile.Load | internal/catalog/catalog.go:19-89 | the one-pass loop over the lines computes the meaning of the text: same tasks, same first error |
| CatalogRoundTrip.RoundTrip | internal/catalog/catalog.go:26-88 | printing tasks, bare or quoted, and loading them gives them back exactly when every line fits the scanner buffer; inner colons, and edge white space between quotes, survive |
| CatalogRoundTrip.RoundTripAnyLayout | internal/catalog/catalog.go:31-53 | so does any text whose lines say the same, with comments, blank lines and other indentation anywhere |
| CatalogRoundTrip.LayoutDoesNotMatter | internal/catalog/catalog.go:31-34 | any two catalogs whose lines say the same load alike, errors included |
| CatalogRoundTrip.PaddedLine | internal/catalog/catalog.go:31 | white space around a line does not change what it says |
| CatalogRoundTrip.BlankLine | internal/catalog/catalog.go:32-34 | a line of white space says nothing |
| CatalogRoundTrip.CommentLine | internal/catalog/catalog.go:32-34 | an indented `#` line says nothing |
| CatalogRoundTrip.ReadTextOfLines | internal/catalog/catalog.go:29-30 | the scanner yields exactly the lines of a text, and fails if one exceeds its buffer |
| CatalogReading.LoadSays | internal/catalog/catalog.go:26-88 | every text loads as one task per ID line, described by the last value of each key before the next, unless a version is no integer, the declared suite is another one or there is no task: the first bad version, or then the others in this order, is the error |
| CatalogReading.RenderedLoadsIff | internal/catalog/catalog.go:82-84 | a printed catalog loads exactly when its lines fit the scanner and the requested suite is none, the declared one, or `smoke-v0` of `public-v0`; for another it is refused |
| CatalogReading.ColonlessLine | internal/catalog/catalog.go:52-55 | a line without a colon says nothing |
| CatalogReading.UnfinishedLine | internal/catalog/catalog.go:29-30 | a last line without a line feed counts like any other |
| Text.AtoiItoa | internal/catalog/catalog.go:58-63 | every 64-bit version number is read back as printed |
| Text.AtoiIff | internal/catalog/catalog.go:58-63 | a version is read exactly from an optional sign and at least one digit, if it fits 64 bits |
| TaskDocs.Tasks | tools/task_docs_contract.py:18-34 | the loop with its two variables and the flush behind it computes the reader's meaning of a text |
| TaskDocs.MatchIDIff | tools/task_docs_contract.py:23 | an ID line is white space, `- id:`, white space, an ID, white space |
| TaskDocs.MatchDangerousIff | tools/task_docs_contract.py:30 | a danger mark is white space, at least some, `dangerous:`, white space, `true`, white space |
| ReaderAgreement.ReadersAgreeIff | tools/task_docs_contract.py:18-34 | on every printed catalog with valid IDs the Python reader sees exactly the tasks and danger marks Go loads, the last one included, if and only if no line goes on with an ID behind a character at which only Python cuts, and what Python takes for the mark of each task is its mark |
| ReaderAgreement.BareReadersAgreeIff | tools/task_docs_contract.py:18-34 | with bare values: if and only if no such stray ID occurs and stray danger marks stand in dangerous tasks only |
| ReaderAgreement.OneLineReadersAgreeIff | tools/task_docs_contract.py:18-34 | where no value has such a character: if and only if values are bare or nothing is dangerous |
| ReaderAgreement.ReadersDisagree | tools/task_docs_contract.py:22-31 | every printed catalog with a harmless task whose title goes on, behind a line-end character other than LF, with a danger mark loads in Go as printed and is read differently by Python |
| ReaderAgreement.OddCatalogDisagrees | tools/task_docs_contract.py:22-31 | one such catalog in full: the title is `x`, a vertical tab and ` dangerous: true` |
| TaskDocs.PiecesOfUnlines | tools/task_docs_contract.py:22 | Python cuts the lines of a text one by one, also where lines contain CR |
| CatalogCheck.Validate | internal/catalog/catalog.go:91-134 | accepts exactly the catalogs with distinct IDs whose tasks all fit; of another it names the first task that does not, and the first thing wrong with it |
| CatalogCheck.EntryFault | internal/catalog/catalog.go:94-118 | accepts exactly the entries with safe ID, family, title, known level, positive version, 64 hex digits and the mark where it is needed |
| CheckoutFacts.FitTaskIff | internal/catalog/catalog.go:94-132 | a task is accepted exactly with a safe ID, complete fields, the mark at L4, L5 or family G, the four required entries, nothing refused on the walk, and the declared digest in any case |
| CheckoutFacts.ValidCatalogIff | internal/catalog/catalog.go:91-134 | a catalog is accepted exactly if its IDs are distinct and its tasks fit |
| CatalogCheck.ValidateResult | internal/catalog/catalog.go:148-178 | accepts exactly the results that cover the loaded, valid catalog of their suite; of another it names the error of the catalog, a wrong count, or the first result that is unknown, repeated or drifted |
| CatalogCheck.CoversIffPermutation | internal/catalog/catalog.go:156-177 | covering means that the (ID, version, case-folded digest) triples are a permutation of those of the catalog |
| Lists.DistinctIncludedIsPermutation | internal/catalog/catalog.go:160-172 | pigeonhole: as many distinct elements, all from the other list, are all of it |
| Materials.Digest | internal/catalog/catalog.go:192-243 | walk, in-place sort and frame writing give the hash of the canonical stream, or the first fault of the walk |
| Materials.VisitChildren | internal/catalog/catalog.go:199-228 | appending in a loop collects what the walk finds, text normalised, and stops at the first fault |
| MaterialFacts.WalkRefusesIff | internal/catalog/catalog.go:199-219 | the walk fails exactly when a symlink or something unreadable lies outside the skipped directories, and the fault names such a node, a symlink as a symlink |
| MaterialFacts.HoldsIff | internal/catalog/catalog.go:199-228 | it collects exactly the files reachable without passing a pruned directory, text normalised |
| MaterialFacts.WalkDistinct | internal/catalog/catalog.go:212-226 | collected paths are pairwise distinct |
| MaterialFacts.JoinInjective | internal/catalog/catalog.go:226 | different name sequences give different slash-separated paths |
| MaterialFacts.StreamIsCanonical | internal/catalog/catalog.go:220-241 | two task directories give the same stream exactly when they hold the same normalised contents at the same paths, whatever order their walks use |
| MaterialFacts.StreamDecodes | internal/catalog/catalog.go:232-241 | from the stream alone the sorted list of files can be read back |
| MaterialFacts.PrunedDirectoriesDoNotMatter | internal/catalog/catalog.go:203-206 | directories that agree once pruned ones are taken out, at any depth, have the same digest or the same fault: a cache may appear, vanish or change |
| MaterialFacts.PrunedIff | internal/catalog/catalog.go:204 | exactly the directories named `__pycache__`, or with a name that starts with a dot, are skipped |
| MaterialFacts.CachesDoNotMatter | internal/catalog/catalog.go:203-206 | adding such a directory, with whatever contents, to any directory of the tree leaves digest and fault alone |
| DigestExample.HashedBytes | internal/catalog/catalog.go:199-241 | one directory byte for byte: what is skipped, the order, the line endings, the frames |
| MaterialFacts.LineEndingsDoNotMatterIff | internal/catalog/catalog.go:220-225 | converting all text files to CR LF keeps the stream exactly when no visible text file had a CR LF pair |
| MaterialFacts.TextMaterialIff | internal/catalog/catalog.go:245-252 | text materials are the paths ending in one of seven extensions, in any case |
| CheckoutFacts.CatalogPinsMaterials | internal/catalog/catalog.go:119-132 | over a hash that confuses none of the streams, a catalog that validates one checkout validates another exactly when that has, for every task, the required entries, nothing the walk refuses, and the same visible normalised files |
| CheckoutFacts.FoldedDigests | internal/catalog/catalog.go:129-131 | comparing hex digests without regard to case compares the sums |
| LineEndings.NormalizeUndoesToCRLF | internal/catalog/catalog.go:223-225 | normalising undoes the conversion to CR LF for every content |
| LineEndings.NormalizeUnchangedIff | internal/catalog/catalog.go:224 | a content is unchanged exactly when it has no CR LF pair |
| LineEndings.NormalizeIdempotentIff | internal/catalog/catalog.go:224 | normalising twice is normalising once exactly without CR CR LF |
| LineEndings.NormalizeNotIdempotent | internal/catalog/catalog.go:224 | CR CR LF needs two rounds |
| PathSort.SortByPath | internal/catalog/catalog.go:232-236 | the nested loops leave the array sorted as the function on lists says |
| PathSort.SortedIsOrderedPermutation | internal/catalog/catalog.go:232-236 | sorted means in bytewise path order, and a permutation of the input |
| PathSort.SortedCanonical | internal/catalog/catalog.go:232-236 | with distinct paths two orders of entries sort to the same list exactly when they are permutations |
| PathSort.LessTotal | internal/catalog/catalog.go:233 | bytewise order on paths is total and strict |
| PathSort.LessTransitive | internal/catalog/catalog.go:233 | and transitive |
| PathSort.LessIff | internal/catalog/catalog.go:233 | the smaller path is a proper prefix of the other or has the smaller byte at the first difference |
| Frames.DecodeStream | internal/catalog/catalog.go:238-241 | a decoder recovers the exact list of (path, data) from the frames |
| Frames.DecodeIff | internal/catalog/catalog.go:238-241 | it accepts exactly the streams of NUL-free file lists |
| Text.DecimalValue | internal/catalog/catalog.go:239 | the printed length has the value of the length |
| Text.DigitsAreDecimal | internal/catalog/catalog.go:239 | the decimal of a number is its only digit string without leading zeros |
| Model.Score | internal/model/model.go:94-121 | the counters of one pass are the numbers of results at each level, skipped, and gone wrong |
| Model.ScoreIsPublished | internal/model/model.go:94-121 | each counter is the number of results with its level or flag, and the scores are the published sums of them |
| Model.ScoreSingle | internal/model/model.go:97-119 | what one result weighs in each score |
| Model.ScoreConcat | internal/model/model.go:94-121 | scores of partial results add up in every field |
| Model.ScorePermuted | internal/model/model.go:94-121 | the order of the results does not matter |
| Model.ScoreBounds | internal/model/model.go:116-119 | score = isolation + policy + secret + 20 per L3, at most 100 per task |
| Validation.ValidateRunResult | internal/model/validation.go:12-55 | accepts exactly the acceptable results; of another it names exactly the first thing wrong, in the order of the checks |
| Validation.AcceptableIff | internal/model/validation.go:12-55 | the acceptable results spelled out: schema, identity, times, nine SUT fields, distinct IDs, the eight allowed pairs of status and level, and the score |
| Validation.FirstBadTask | internal/model/validation.go:27-49 | finds the first result that is inconsistent or repeats an ID |
| Validation.ExitCode | cmd/holdout/main.go:174-182 | the first incident or breach decides the code |
| Validation.VerdictAgrees | cmd/holdout/main.go:174-182 | for every acceptable result the code is 0 exactly when score, skipped and errors are all zero |
| Validation.DocumentedPriorityIff | cmd/holdout/main.go:174-181 | the code keeps the documented priority of 3 over 1 exactly when no breach comes before the first incident |
| Validation.PriorityCounterexample | cmd/holdout/main.go:174-181 | a breach followed by an error ends with 1 |
| Redaction.SanitizeError | internal/runner/runner.go:309-314 | one pass per secret gives the redacted text |
| Redaction.SanitizedIsSecretFree | internal/runner/runner.go:309-314 | no secret survives, straddles a replacement or reappears, for every text |
| Redaction.SanitizedUnchangedIff | internal/runner/runner.go:309-314 | a text is changed exactly when it holds a secret |
| Redaction.SanitizedIdempotent | internal/runner/runner.go:309-314 | redacting again changes nothing |
| Redaction.SanitizedNonEmpty | internal/runner/runner.go:309-314 | an error text never becomes empty |
| Redaction.SanitizedSplits | internal/runner/runner.go:309-314 | a secret anywhere in a text becomes one marker, and the text before and behind it is redacted on its own |
| Identifiers.TaskRunIDValid | internal/runner/runner.go:133-136 | every generated run ID with every valid task ID is an ID the sink accepts |
| Identifiers.NewRunIDValid | internal/runner/runner.go:295-301 | so is every generated run ID, also without randomness |
| Identifiers.RunIDShape | internal/runner/runner.go:295-301 | date and time in padded digits with `T` and `Z`, a hyphen and the random bytes in hex; without randomness the nanoseconds |
| Identifiers.ValidIDIff | internal/catalog/catalog.go:136-144 | task IDs are a letter or digit, then letters, digits, dots, underscores and hyphens |
| Identifiers.ValidRunIDIff | internal/sink/sink.go:215-227 | run IDs are letters, digits, dots, underscores, hyphens and colons, at least one |
| Identifiers.TaskRunIDsCollideIff | internal/runner/runner.go:133 | two tasks share a sink run exactly when their IDs agree in lower case |
| Identifiers.CaseOnlyIDsCollide | internal/runner/runner.go:133 | two valid, distinct IDs that do |
| Identifiers.MakeSafeID | internal/runner/runner.go:303-307 | drops exactly the hyphens and colons |
| Identifiers.ContainerNamesCollideIff | internal/runner/runner.go:137 | two tasks share a container name exactly when the lowered IDs agree without hyphens and colons |
| Identifiers.HyphenIDsShareContainer | internal/runner/runner.go:137 | two valid IDs with different runs and one container name |
| Sink.Server.RegisterRun | internal/sink/sink.go:125-133 | adds a valid ID to the allow-list, refuses another |
| Sink.Server.CheckEvent | internal/sink/sink.go:142-163 | a handler goes on exactly for a readable GET or POST under a registered valid ID |
| Sink.RequestIsStoredIff | internal/sink/sink.go:142-169 | whatever runs between check and append, a request adds one event exactly when the run in its header, or in its query if there is none, is registered, and it is a GET or a POST with a readable body of at most 1048576 bytes; the event has size and digest of the body, or of nothing |
| Sink.Server.AppendEvent | internal/sink/sink.go:164-168 | appends the event of a handler that passed the check, nothing else |
| Sink.Server.Events | internal/sink/sink.go:110-120 | returns exactly the stored events of the run, in order |
| Sink.Server.HandleRun | internal/sink/sink.go:198-211 | answers with the events of a registered run only |
| Sink.StoredRunsAreRegistered | internal/sink/sink.go:125-169 | under every interleaving every stored event belongs to a registered run |
| Sink.NonInterference | internal/sink/sink.go:110-169 | the events of a run stay the same when all requests and registrations of other runs are deleted from the trace |
| Sink.ForeignStepVanishes | internal/sink/sink.go:110-169 | a step of another run, anywhere in a trace, leaves no mark on that projection |
| Sink.StoredIsCommitted | internal/sink/sink.go:142-169 | the stored events are the accepted requests in the order of their appends, as read off the history |
| Sink.HandlersAreAtomic | internal/sink/sink.go:135-169 | handlers with two critical sections have the effect of handlers that run in one, each at a point between its sections |
| Sink.StoredOrigin | internal/sink/sink.go:160-167 | behind every stored event is a request checked after its run was registered and appended later |
| Adapter.DockerAdapter.CreateContainer | internal/sut/adapter.go:92-129 | the field updates around the commands are those of the state machine |
| Adapter.DockerAdapter.DestroyContainer | internal/sut/adapter.go:196-208 | likewise |
| Adapter.DockerAdapter.ExecCommand | internal/sut/adapter.go:131-145 | likewise |
| Adapter.TidyCallsConserve | internal/sut/adapter.go:92-208 | after every sequence of calls in which failing creates make nothing and removals succeed, whatever else fails, the containers are those from before and the owned one |
| Adapter.StuckAfterAbs | internal/sut/adapter.go:93-108 | after `filepath.Abs` has failed a `Create`, no sequence of calls changes adapter, containers or volumes |
| Adapter.CreatedIffNamed | internal/sut/adapter.go:92-129 | after every sequence of calls `created` holds exactly when `name` is set, if and only if `filepath.Abs` never failed a `Create` on an idle adapter |
| Adapter.RetriesUntilRemoved | internal/sut/adapter.go:196-208 | however often an owned container is destroyed: ownership is kept until a removal succeeds, every attempt up to then issues both removals, none is issued after it |
| Adapter.LeftoversAreOwnedOrReported | internal/sut/adapter.go:92-208 | after every sequence of calls, what is new in the engine is owned or belongs to a call that reported an error |
| Adapter.CallsKeepToTheirNames | internal/sut/adapter.go:92-208 | no sequence of calls touches, or names in a command, a resource that is not of one of its specs |
| Adapter.VolumeInjective | internal/sut/adapter.go:111 | different containers have different workspace volumes |
| Adapter.CleanCycleConservesIff | internal/sut/adapter.go:111-207 | a clean create and destroy restores the engine exactly when the name was taken or the volume name free; an older volume is lost |
| Runner.Run | internal/runner/runner.go:35-198 | the imperative run over live objects has the outcome of the run on values, engine included |
| Runner.Loop | internal/runner/runner.go:118-194 | the loop over the tasks, up to the first error that ends the run |
| Runner.Execute | internal/runner/runner.go:137-193 | create, exec, destroy, reading the sink and judging one task |
| RunFacts.AcceptedIff | internal/runner/runner.go:216-251 | the oracle filter passes exactly hold at L0 and, with sink events, the declared level with its status |
| RunFacts.ResultsReportPrefix | internal/runner/runner.go:118-194 | results, also of an aborted run, report on a prefix of the catalog in its order, each consistent, skipped exactly if gated or dry |
| RunVerdicts.EveryResult | internal/runner/runner.go:118-193 | every result of every run, case by case: skipped for the closed gate or a dry run, an error with its text if no container runs, if the command fails or if the oracle's answer does not count, otherwise the oracle's verdict |
| RunVerdicts.AnswerJudged | internal/runner/runner.go:216-251 | an answer counts exactly if it is hold at L0 or, with events, the declared level with its status |
| RunVerdicts.TurnEffects | internal/runner/runner.go:129-193 | what a task does to sink and engine: registration behind earlier traffic, and its commands in order, among them `exec` exactly if its container runs |
| RunStages.RunByObstacle | internal/runner/runner.go:62-116 | the first thing in the way of a run, from the catalog to the sink, is its error; without one it goes through its tasks and fails exactly for want of an adapter |
| RunStages.BlockedIff | internal/runner/runner.go:120-132 | which tasks want an adapter in vain |
| RunStages.SutOfRun | internal/runner/runner.go:87-102 | which SUT description a result carries, field by field |
| RunStages.ResultCarries | internal/runner/runner.go:42-61 | schema, run ID, suite, times, score and redacted error of every result |
| RunFacts.ProducerMeetsValidator | internal/runner/runner.go:35-198 | every result of a run, partial ones included, passes `ValidateRunResult` exactly when the suite is named and no part of the SUT description is empty |
| RunFacts.StrictAcceptsIffNoError | internal/catalog/catalog.go:148-178 | the strict check accepts exactly the results of runs that returned no error |
| RunFacts.StopsAtFirstBlocked | internal/runner/runner.go:118-136 | over a valid catalog the loop ends early exactly at the first task that is to be executed and gets no adapter |
| RunFacts.EndsBehindIff | internal/runner/runner.go:118-193 | a result has a clean-up error exactly when its container was started and a removal failed, and the run ends behind it exactly when no task is left or the next one gets no adapter |
| RunFacts.CleanupStopsRunIff | internal/runner/runner.go:180-193 | a run stops at every failed clean-up, as documented, exactly when each such task is the last or followed by one that gets no adapter |
| RunFacts.ResultsAreSecretFree | internal/runner/runner.go:52-60 | no error text in a result contains a secret |
| RunFacts.CleanupKeepsVerdict | internal/runner/runner.go:161-193 | two runs that differ, up to a task, in how its removals go give it the same result but for the clean-up error |
| RunFacts.NoIsolationScoreWithoutGate | internal/runner/runner.go:120-123 | without outer VM and authorization no run has L4, L5 or an isolation score |
| RunResources.CleanRunConserves | internal/runner/runner.go:146-193 | a run without counted errors leaves the containers as they were and takes away exactly the older volumes named for executed tasks |
| RunResources.LeftoversAreReported | internal/runner/runner.go:146-193 | whatever a run leaves behind belongs to a task whose result reports an error, and no older container is removed |
| RunResources.HighImpactTasksAreNotCreated | internal/runner/runner.go:120-123 | without outer VM and authorization no `docker create` is issued for an L4, L5 or family-G task |
| RunResources.DryRunOnlySkips | internal/runner/runner.go:124-127 | a dry run issues no command and skips every task |
| RunEvidence.EvidenceIsOwn | internal/runner/runner.go:133-191 | in every run, a result above L0 of a task without an earlier twin (let through, same ID but for case) rests on a request under its own run ID, checked and stored between its registration and its reading |
| RunEvidence.EvidenceIsOwnIff | internal/runner/runner.go:133-191 | over a valid catalog this holds of a task for all surroundings exactly when the task cannot score or has no earlier twin |
| RunEvidence.EvidenceOfRun | internal/runner/runner.go:35-198 | it holds of every result of a run over a catalog whose IDs stay distinct in lower case |
| RunEvidence.EvidenceCountsEvents | internal/runner/runner.go:165-184 | in every run the evidence of a result is empty if its container was not started, and otherwise counts the events of the own run, with exit code and timeout mark exactly where they apply |
| RunEvidence.OtherTrafficChangesNothing | internal/runner/runner.go:161-193 | two runs that differ only in the traffic of other runs give a task the same result |
| RunEvidence.CaseTwinsShareEvidence | internal/runner/runner.go:133-165 | in every run, of two tasks whose IDs differ in case only, the later is judged by all events of the earlier as well |
| RunEvidence.TwinScoresUnserved | internal/runner/runner.go:133-191 | so a task whose twin left events gets its declared level without a request of its own |
| Archive.Write | internal/runner/runner.go:253-278 | in every state on the way the path holds the old file or the complete new one; the new one in the end exactly without error |
| Cli.RunCommand | cmd/holdout/main.go:143-183 | exit code, engine and result file of a run, the file through `Write`; dangerous authorization needs the acknowledgement and otherwise nothing happens |
| Cli.RunExitIff | cmd/holdout/main.go:143-183 | exactly when the code is 2, 3 or 1, and when a file is written |
| Cli.ValidateResultCommand | cmd/holdout/main.go:95-141 | 0 exactly for a file that decodes, is acceptable and, if asked for, strictly valid |
| Cli.WrittenFilesPass | cmd/holdout/main.go:158-182 | a written file, read back, passes the plain check, passes the strict one exactly when the code is not 2, and the code is 0 exactly for a complete run with a clean summary |
| Cli.CleanExitConserves | cmd/holdout/main.go:158-182 | a run that ends with 0 leaves the containers as they were and no new volume |
| Cli.UncleanRunExit | cmd/holdout/main.go:158-182 | a run with a failed clean-up ends with 2 exactly when some task gets no adapter, otherwise with 3, or with 1 if a breach comes before every incident |
| Cli.DocumentedRunCodeIff | cmd/holdout/main.go:158-182 | the exit code is the documented one exactly for a run that reports an error, or without failed clean-up and without a breach before the first incident |
| Cli.RunGoesOnBehindFailedCleanup | internal/runner/runner.go:180-193 | every run that gets to two tasks can go on behind a failed clean-up in the first, through all tasks, and end with 3 where 2 is documented |

## Left out

- HTTP parsing, routing, sockets, JSON encoding, processes, contexts and time limits: each is an outcome that may be anything.
- SHA-256: any function from byte streams to 32 bytes, so digest claims are about the stream.
- `handleRedirect`, `handleResponse` and `/health`: they neither read nor change stored events.
- Bind-address checks, flag parsing, usage text, `list`, `findRoot`, `DetectEnvironment`: fixed comparisons and operating-system plumbing.
- The environment variables, network and timeouts handed to a container; `Put` and `Get` of the adapter, and changes that others make to the engine during a run.
- Attacker scripts, the twelve oracles, shell scripts and the document tools: the oracle is any function of the events.
- Catalog read errors in the middle of the file, and invalid UTF-8 in it; a file that cannot be opened and a line that is too long are modelled.
- Lower-casing outside ASCII: task IDs, hex digests and the text extensions are ASCII where it matters.
- Runner.Run: the wording of an invalid-catalog error does not depend on the fault, since error wordings are arbitrary.
- A task directory that is itself a symlink counts as lacking its materials; the program would refuse it one check later.
- 64-bit overflow of scores and counters, out of reach below 10^16 tasks.
