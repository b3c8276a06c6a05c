# Change analysis and agent-evaluation broker: a verified model

This project models, in Dafny, the parts of the repository that carry the most
state and make the strongest promises, and proves those promises for every input,
run or reachable state. `dafny verify dfyconfig.toml` checks all of it.

* **Snapshot cache** (`CacheKey`, `CacheProtocol`, `CacheStaging`, `CachePublish`,
  `CacheLookup`, `CacheRaces`, `CacheLock`, `CacheClean`, `CacheReasons`). Processes share one directory of entries. `CacheProtocol`
  is a transition system whose steps are single file-system calls; locks belong to
  inodes, not to paths, and removing a directory is one step. The promise that nothing
  in use is removed holds in every run in which no commit directory is recreated between
  a process's lock open and its next re-check or removal. That premise is needed: from
  any state such runs reach, a step that breaks it begins a run that removes an open
  entry, and one such run is given from an ordinary initial directory. What concerns
  builds alone (only complete trees appear, no staging directory is removed under its
  builder) holds in every run, and so does what a lookup has checked by the time it
  returns an entry. One thing it cannot promise: between the reading of the key and the
  opening of the lock the directory may be built again by another version, whose entry is
  then returned. `CacheClean` is the retention decision, and `CacheReasons` says which
  fields of an entry give each reason. A comment in `cache.rs` says that a directory in
  place of a lock file is kept with a reason and the clean goes on; that is so for a plan,
  while an apply, which opens the lock for writing, fails. The model follows the code and
  states exactly when plan and apply agree.
* **Changed-symbol pairing** (`BodyNormalizer`, `Folding`, `PairingLadder`,
  `PairingFacts`, `SymbolPairing`, `PairingMeaning`). The six passes over the unpaired selectors, as a
  class that updates its sets and emits entries, proved equal to a functional ladder;
  the ladder loses and duplicates nothing, reports no false remove/add pair, does
  not depend on the order of Git's deltas, and every entry means what its status says of
  the symbols and their sources.
* **Broker and its checkers** (`BrokerTrace`, `BrokerMeter`, `BrokerBreach`, `Broker`,
  `BrokerLifecycle`, `BrokerTurns`, `BrokerTelemetry`, `BrokerAttempts`, `BrokerLedger`,
  `Paging`). The broker writes an event log; two independent checkers read it. Its
  counters, and which lines it admits as calls, are a function of the lines it reads, and
  when and why it stops is a matter of plain counts over them. Every log of `serve` is
  described as a session of exchanges, and both checkers are proved to accept exactly, or
  to rebuild exactly, what the session was; for logs of any origin, what the first one
  accepts is a grammar. A `tools/call` without an id (a JSON-RPC 2.0 notification,
  section 4.1) that is admitted makes the lifecycle check reject the log although no
  protocol error happened; the model keeps this and states it.
* **Bounded report** (`Ranking`, `Evidence`, `ReportFit`). Keep-the-strongest
  regrouping and `fit_to_bytes` for an arbitrary size function.
* **Masking** (`Masking`, `Utf8`). Interval union, byte accounting and the verifier,
  for every encoding that is a homomorphism and every marker it encodes byte for
  character; UTF-8 with `[REDACTED]` is shown to be one.
* **Counterbalanced schedule** (`Schedule`). The backtracking search with in-place undo,
  and the plan laid out from its result.

Taken as parameters: Git deltas, indexed symbols and source bytes, file-system and Git
answers about a cache entry, tool results, the permitted tools, reply texts, the clock,
serialized sizes, and what the redaction patterns match. Integers are unbounded; none
of the modelled code relies on wrap-around (ages are subtracted with saturation, which
the comparison it feeds does not see).

## Model

| member | source | states |
|---|---|---|
| CacheKey.StaleIsOneSided | crates/orbit-graph-changes/src/cache.rs:290-310 | an entry is current exactly when its versions are this binary's and stale exactly when strictly below; two binaries never call each other's entries stale |
| CacheProtocol.StepKeepsInv | crates/orbit-graph-changes/src/cache.rs:503-702 | every lookup, build, publish, discard and removal step keeps the protocol invariant unless it recreates a directory inside a window |
| CacheProtocol.StepIsSafe | crates/orbit-graph-changes/src/cache.rs:980-995 | in an invariant state no step removes an entry somebody has open |
| CacheProtocol.ReachableInv | crates/orbit-graph-changes/src/cache.rs:503-702 | every undisturbed run from any initial directory ends in an invariant state |
| CacheProtocol.NothingInUseIsRemoved | crates/orbit-graph-changes/src/cache.rs:503-572 | in every interleaving without recreation inside a window, no step removes a directory with a live `CachedEntry` |
| CacheStaging.EveryRunKeepsBuilds | crates/orbit-graph-changes/src/cache.rs:575-702 | in every run, recreations included, builders have directories of their own that are complete by the time they are renamed, and a builder lock has one holder |
| CacheStaging.OnlyCompleteBuildsAppear | crates/orbit-graph-changes/src/cache.rs:627-685 | in every run, whatever newly appears under a commit's name is a complete build of that commit |
| CacheStaging.NoBuildIsRemoved | crates/orbit-graph-changes/src/cache.rs:347-379 | in every run, no step removes a staging directory under another process that holds its builder lock |
| CacheStaging.AppearsLocked | crates/orbit-graph-changes/src/cache.rs:575-702 | in every run, whatever newly appears under a commit's name is published by the process that built it, with its own key, holding both its locks before and the entry open right after |
| CacheStaging.BuildHoldsLocks | crates/orbit-graph-changes/src/cache.rs:575-625 | the stages in which a build holds its builder lock, and its in-use lock shared |
| CacheStaging.MakeDecides | crates/orbit-graph-changes/src/cache.rs:633-702 | a build takes over what is already published, gives up on any other failure, and otherwise goes on to its own entry |
| CacheStaging.LockFilesStay | crates/orbit-graph-changes/src/cache.rs:575-625 | a lock file stays as long as its directory, and opening a lock to remove leaves one there |
| CacheProtocol.RecreationEndsInRemoval | crates/orbit-graph-changes/src/cache.rs:541-556 | from any invariant state, a step that recreates a directory inside a window begins a run that removes an open entry |
| CacheRaces.InUseEntryCanBeRemoved | crates/orbit-graph-changes/src/cache.rs:980-995 | from a directory with one entry, a concrete run of two removers and one builder of that commit removes an entry in use |
| CacheLookup.TrustIsEarned | crates/orbit-graph-changes/src/cache.rs:511-539 | in every run, whoever is past the key check of a lookup found, in this very lookup, first the directory in place private and then its key exactly its own |
| CacheLookup.ReturnsAreChecked | crates/orbit-graph-changes/src/cache.rs:511-571 | a lookup that returns an entry found, in order, a private directory, its own key, a lock no remover holds, a key still there, a tree and a database, and has held the lock since it took it |
| CacheLookup.LookupDecides | crates/orbit-graph-changes/src/cache.rs:511-570 | what each check of a lookup goes on with, removes, and leaves alone |
| CacheLookup.SameDirectoryHasOwnKey | crates/orbit-graph-changes/src/cache.rs:527-556 | the entry returned has the key that was read as long as the directory in place is still the one whose key was read |
| CacheRaces.AnotherKeyIsReturned | crates/orbit-graph-changes/src/cache.rs:527-571 | and not in general: a concrete undisturbed run in which a lookup returns an entry another version built between its reading of the key and its opening of the lock |
| CachePublish.OnePublishes | crates/orbit-graph-changes/src/cache.rs:575-702 | from any directory in which nothing runs and the commit is absent or usable, in any interleaving of same-version workers that begin, stage and publish one commit with anybody's lookups, builds and publications and no remover: at most one rename of it, exactly one if it was absent; every worker gets an entry rooted at that one directory within sixteen calls, and its staging directory is gone |
| CacheClean.DeletionsHaveFacts | crates/orbit-graph-changes/src/cache.rs:718-726 | only a staging directory with a free builder lock, or an unused commit directory that is loose, stale, unreferenced or outside a retention policy with known age, is deleted; never an owner-only newer entry or one of unknown age |
| CacheClean.SurvivorsAreMostRecent | crates/orbit-graph-changes/src/cache.rs:893-912 | min(keep, n) of the n unexpired entries of known age survive, each used more recently (ties by path) than every evicted one |
| CacheClean.KeepsMostRecent | crates/orbit-graph-changes/src/cache.rs:893-908 | in recency order an entry is evicted exactly when its place is at or past `keep` |
| CacheClean.EveryEntryOnce | crates/orbit-graph-changes/src/cache.rs:771-951 | every listed non-marker path that still exists is in exactly one of the two lists |
| CacheReasons.ReasonsToDelete | crates/orbit-graph-changes/src/cache.rs:771-951 | an entry is reported as removed for a reason exactly when its own fields give the reason (key, versions, liveness, last use or else publication against the policy, place among the most recent) and its lock answers that it is free |
| CacheReasons.ReasonsToKeep | crates/orbit-graph-changes/src/cache.rs:771-951 | an entry is reported as kept for a reason exactly when its own fields give the reason, or it was to be removed and its lock gives the reason |
| CacheReasons.MostRecentAreKept | crates/orbit-graph-changes/src/cache.rs:893-912 | of the live, dated, not overdue entries exactly the `keep` last used, by their recorded use or else their publication and then by path, are not put up for deletion |
| Ranking.TextOrder | crates/orbit-graph-changes/src/cache.rs:893-900 | the order of paths is the lexicographic order of their characters |
| CacheLock.AgreeExactly | crates/orbit-graph-changes/src/cache.rs:1249-1334 | `lock_is_held` and `remove_if_unlocked` answer alike if and only if the lock path does not hold a readable directory, a readable but unwritable file, or a free or creatable lock whose directory cannot be removed or created in; where they differ it is the apply that fails |
| CacheClean.PlanIsApply | crates/orbit-graph-changes/src/cache.rs:919-951 | on the same directory and lock state an apply returns what the plan returned if and only if the plan failed already or no entry put up for deletion has such a lock |
| CacheClean.DirectoryAtLock | crates/orbit-graph-changes/src/cache.rs:927-937 | with a directory in place of the lock file a plan keeps the entry as untrusted and an apply fails |
| CacheClean.JudgeAll | crates/orbit-graph-changes/src/cache.rs:771-867 | the listing loop sorts every entry by what it alone decides |
| CacheClean.SplitByAge | crates/orbit-graph-changes/src/cache.rs:872-892 | the retention loop separates unknown ages, expired and retained entries |
| CacheClean.Retain | crates/orbit-graph-changes/src/cache.rs:869-917 | expired and evicted entries become candidates, the rest stay, each with its reason |
| CacheClean.SnapshotCache.RemoveUnlocked | crates/orbit-graph-changes/src/cache.rs:980-995 | the directory goes exactly when its lock can be opened for writing and taken and removing it works |
| CacheClean.SnapshotCache.Settle | crates/orbit-graph-changes/src/cache.rs:919-951 | each candidate is deleted exactly when its mode's lock answer is free; an apply removes exactly those, a plan nothing, and a failed answer ends the clean |
| CacheClean.SnapshotCache.CleanWithOptions | crates/orbit-graph-changes/src/cache.rs:727-960 | the report lists exactly the decided deletions and keeps with their reasons in path order, the call fails exactly when a candidate's lock or removal does, and only decided deletions ever leave the directory |
| BodyNormalizer.Scan | crates/orbit-graph-changes/src/changes.rs:1519-1536 | the scanning loop appends what the scan specification says |
| BodyNormalizer.NormalizedBody | crates/orbit-graph-changes/src/changes.rs:1513-1543 | a truncated source or empty name has no body; otherwise the body is normalised word by word |
| BodyNormalizer.ScanIsWordwise | crates/orbit-graph-changes/src/changes.rs:1519-1536 | for every source the byte scan equals replacing whole words and dropping whitespace |
| BodyNormalizer.ByteClasses | crates/orbit-graph-changes/src/changes.rs:1519-1547 | identifier bytes are ASCII letters, digits, underscore and all bytes past ASCII; whitespace is ASCII whitespace |
| BodyNormalizer.RenameInvariance | crates/orbit-graph-changes/src/changes.rs:1513-1547 | renaming the whole word `a` to `b` keeps the normalised body if and only if `b` was not already a word of the source (or is `a`) |
| PairingFacts.NothingLostOrDuplicated | crates/orbit-graph-changes/src/changes.rs:762-1210 | each candidate selector of either side is in exactly one emitted entry, or is a shared unambiguous selector with identical complete source and in none |
| PairingFacts.PairsAreSoleMatches | crates/orbit-graph-changes/src/changes.rs:928-1129 | a moved or renamed entry pairs symbols of one kind, each the sole member of its group when paired |
| PairingFacts.EveryPairIsASoleMatch | crates/orbit-graph-changes/src/changes.rs:902-1129 | every moved or renamed entry of a whole result was emitted by a rung of that very run, at a state of it in which the pair's two symbols were the only pending ones of their group on their side, and has one kind |
| PairingFacts.NoFalseRemoveAdd | crates/orbit-graph-changes/src/changes.rs:1131-1210 | no removed and added entry of one result share both name and kind |
| PairingMeaning.GroupsAreAlike | crates/orbit-graph-changes/src/changes.rs:928-1167 | two symbols share a group of a rung exactly when they have one name and kind (moved, cross-path), one kind (renamed), or one kind, one parent and the same complete body but for the names (body hash) |
| PairingMeaning.EntriesMean | crates/orbit-graph-changes/src/changes.rs:786-1347 | every entry but the leftovers says what its status and evidence mean in terms of symbols, sources and deltas; a body-hash rename has one kind, one parent and equal complete bodies in one file that kept its path |
| PairingMeaning.SharedSelector | crates/orbit-graph-changes/src/changes.rs:786-900 | a candidate of both sides is in no entry if its complete source is identical, else in exactly one: `SignatureChanged` if and only if readable with another signature, `Modified` if and only if readable with the same signature and another source, uncertain otherwise |
| PairingMeaning.LeftoversMean | crates/orbit-graph-changes/src/changes.rs:1169-1210 | removed and added entries are candidates of one side only and show the last delta of their file |
| PairingMeaning.NoMissedMatch | crates/orbit-graph-changes/src/changes.rs:902-1167 | no removed and added symbol of one result have one kind in two files Git resolved as renamed, the same body but for the name in one file, or one name and kind anywhere |
| PairingFacts.OrderIndependent | crates/orbit-graph-changes/src/changes.rs:557-600 | if no two deltas share a base or head path, the emitted multiset does not depend on their order |
| SymbolPairing.Load | crates/orbit-graph-changes/src/changes.rs:472-523 | the inventory knows exactly the indexed selectors and calls ambiguous exactly those produced more than once |
| SymbolPairing.Index | crates/orbit-graph-changes/src/changes.rs:558-567 | each path index holds, for exactly the paths that occur, the last delta that has it |
| SymbolPairing.CandidateSelectors | crates/orbit-graph-changes/src/changes.rs:1472-1491 | the candidates are exactly the selectors in the changed paths |
| SymbolPairing.Pairer.PairSameSelector | crates/orbit-graph-changes/src/changes.rs:786-900 | removes every shared selector and emits exactly the changed ones |
| SymbolPairing.Pairer.GroupBy | crates/orbit-graph-changes/src/changes.rs:1015-1129 | groups the pending selectors of one side exactly by their key |
| SymbolPairing.Pairer.MatchGroup | crates/orbit-graph-changes/src/changes.rs:1212-1347 | a one-to-one group becomes a pair, any other an uncertain group of what is still unpaired |
| SymbolPairing.Pairer.ClimbRung | crates/orbit-graph-changes/src/changes.rs:1015-1167 | one grouping rung takes and emits what the ladder says, in whatever order groups are walked |
| SymbolPairing.Pairer.PairAcrossRenamedFiles | crates/orbit-graph-changes/src/changes.rs:902-926 | the pass over renamed and copied files, delta by delta |
| SymbolPairing.Pairer.PairRenamedByBodyHash | crates/orbit-graph-changes/src/changes.rs:928-1013 | the body-hash pass over the files |
| SymbolPairing.Pairer.EmitUnpaired | crates/orbit-graph-changes/src/changes.rs:1169-1210 | everything left is emitted once, as removed or added |
| SymbolPairing.Compute | crates/orbit-graph-changes/src/changes.rs:362-393 | the six passes emit exactly the ladder's multiset of entries |
| Broker.Broker.Stop | scripts/agent-eval/eval_broker.py:577-589 | the first breach is recorded, later ones change nothing |
| Broker.Broker.RecordProtocolError | scripts/agent-eval/eval_broker.py:564-575 | errors are logged up to 200; the next one is not, and stops the broker |
| Broker.Broker.Check | scripts/agent-eval/eval_broker.py:907-920 | the first check a call fails gives the refusal and moves the counters, and a call that passes all leaves everything as it was |
| Broker.Broker.FinishCall | scripts/agent-eval/eval_broker.py:1008-1020 | delivered bytes and the call event agree with the output |
| Broker.Broker.RejectArguments | scripts/agent-eval/eval_broker.py:930-938 | oversized arguments are logged as a bounded prefix, answered, and stop the broker |
| Broker.Broker.Deliver | scripts/agent-eval/eval_broker.py:957-972 | an output within what may be delivered (the remaining budget, and the call bound when redacting) is delivered whole with its status; any other as a beginning within that bound, and stops the broker |
| Broker.Broker.CallTool | scripts/agent-eval/eval_broker.py:899-972 | a call is admitted exactly when well formed, not stopped, permitted and within the call budget, in that order; any other well-formed call is answered with the text of its cause, and the counters and the stop follow |
| Broker.Broker.StartAttempt | scripts/agent-eval/eval_broker.py:1022-1032 | a prospective tools/call gets the next attempt number before any check |
| Broker.Broker.Handle | scripts/agent-eval/eval_broker.py:1048-1077 | protocol errors are raised exactly for malformed messages; only tools/call touches the budgets |
| Broker.Broker.ServeMessage | scripts/agent-eval/eval_broker.py:1105-1130 | one message logs one exchange with the next numbers, consistent request, attempt, call and reply |
| Broker.Broker.ServeLine | scripts/agent-eval/eval_broker.py:1085-1130 | every line moves the counters as specified and adds the exchange that the line and the counters before it determine |
| Broker.Broker.Serve | scripts/agent-eval/eval_broker.py:1079-1132 | every run's log is a start, its session and a stop with the true counts, and a budget event is logged exactly when the lines breach a budget |
| BrokerMeter.BudgetsHold | scripts/agent-eval/eval_broker.py:899-972 | for every input the admitted calls stay within `tool_calls`, and the delivered bytes within `output_bytes` unless the last admitted line had arguments over the call bound, by at most that reply |
| BrokerMeter.OutputBounds | scripts/agent-eval/eval_broker.py:957-959 | what is delivered of an output |
| BrokerBreach.RunsOnExactly | scripts/agent-eval/eval_broker.py:899-972 | the broker runs on exactly as long as the lines keep within every budget: plain counts of permitted and forbidden calls and of errors, the sum of outputs, and the bounds on each call; its counters are then these counts |
| BrokerBreach.FirstBreachStops | scripts/agent-eval/eval_broker.py:577-589 | a stopped broker stopped at the first line that breached a budget, with the code of that breach |
| BrokerBreach.ErrorLines | scripts/agent-eval/eval_broker.py:1048-1104 | which lines count as protocol errors |
| BrokerBreach.AdmittedExactly | scripts/agent-eval/eval_broker.py:899-920 | a line is measured exactly when it is a permitted call, nothing before it breached a budget, and fewer calls than allowed came before |
| BrokerBreach.RefusalHasCause | scripts/agent-eval/eval_broker.py:907-919 | the cause the broker gives for a refusal is the cause |
| Broker.RefusalsAreAnswered | scripts/agent-eval/eval_broker.py:907-919 | in every prospective run a refused call is logged with the text of its cause: the first breach before it, a forbidden tool, or the exhausted call budget |
| Broker.AdmittedIsAnswered | scripts/agent-eval/eval_broker.py:921-972 | an admitted call is logged with its own tool and arguments, and answered with what is logged as its output |
| Broker.KeptIsWhole | scripts/agent-eval/eval_broker.py:940-972 | a call that keeps within every budget is logged and answered whole |
| Utf8.CutIsLongest | scripts/agent-eval/eval_broker.py:957-960 | a cut text cannot take one character more |
| Broker.RunWithinBudgets | scripts/agent-eval/eval_broker.py:899-972 | the same of the calls and outputs in every run's log, and no call starts after the budget event |
| Broker.RunAccepted | scripts/agent-eval/eval_runner.py:1311-1354 | a run's log is accepted if and only if every line is well formed and every line that is admitted, as computed from the lines up to it, carries an id |
| Broker.OrderlyRunAccepted | scripts/agent-eval/eval_runner.py:1311-1354 | every run without protocol errors in which each tools/call carries an id is accepted |
| Broker.CallWithoutIdRejected | scripts/agent-eval/eval_runner.py:1343-1345 | after orderly lines with budget left, one permitted tools/call without an id is no protocol error, and the log is rejected whatever follows |
| Broker.LoneCallRejected | scripts/agent-eval/eval_runner.py:1343-1345 | a concrete input for it: a run whose only line is a permitted `read` call without an id |
| Broker.RunRebuilt | scripts/agent-eval/telemetry.py:179-316 | every prospective run to end of input passes all ledger checks and yields one row for each parsed tools/call |
| BrokerLifecycle.CompleteBrokerLifecycle | scripts/agent-eval/eval_runner.py:1305-1360 | true exactly for one start, one supervisor under the given contract, one exit, no protocol error, an accepted event loop and, under the newer contract, signals that exited clean or were checkpointed at the final counts |
| BrokerLifecycle.AcceptedExactly | scripts/agent-eval/eval_runner.py:1315-1354 | a session's log is accepted if and only if it holds no protocol error and no admitted call without a request |
| BrokerTurns.AcceptedLogs | scripts/agent-eval/eval_runner.py:1311-1354 | any log whatever is accepted if and only if it has one start, no protocol error, and its lifecycle events are request (call_start call)* reply turns, requests and calls numbered from 1, then one stop with the true counts |
| BrokerTurns.GeneratedIsScanned | scripts/agent-eval/eval_runner.py:1315-1351 | complete turns and an open one bring the loop to the state they describe |
| BrokerTurns.ScannedIsGenerated | scripts/agent-eval/eval_runner.py:1315-1351 | exchange events the loop lets through are complete turns and at most one open one |
| BrokerLifecycle.CheckpointFences | scripts/agent-eval/eval_broker.py:1296-1330 | if an idle checkpoint of any log prefix has the final request count of an accepted log, no request, call or reply follows that prefix |
| BrokerLifecycle.IdleOfSession | scripts/agent-eval/eval_broker.py:1296-1330 | between two exchanges of a session without stray calls an idle checkpoint holds the requests and calls so far |
| BrokerTelemetry.LedgerOfSession | scripts/agent-eval/telemetry.py:216-316 | the ledger of every honestly measured session is exactly one final row for each attempt, bound to its own request, call and reply |
| BrokerAttempts.IndexBy | scripts/agent-eval/telemetry.py:205-212 | the dictionary exists exactly when sequence numbers are positive and distinct, and then holds exactly the events of its kind |
| BrokerAttempts.EndRow | scripts/agent-eval/telemetry.py:258-302 | an attempt ends only with a matching measured call, duration, input and result |
| BrokerAttempts.PublishRows | scripts/agent-eval/telemetry.py:308-316 | rows are bound to their reply, or lose their outcome |
| BrokerAttempts.RebuildLedger | scripts/agent-eval/telemetry.py:199-316 | the dictionary-based checks and loop compute the specified ledger, or fail exactly when a check does |
| BrokerLedger.ReadAttempts | scripts/agent-eval/telemetry.py:179-331 | capture coverage, ledger, interruption and totals of a captured log, or failure |
| BrokerLedger.TornTail | scripts/agent-eval/telemetry.py:187-191 | a line that breaks off after complete lines changes no entry and no total of theirs but the expected number of attempts, which becomes unknown |
| BrokerLedger.TotalsAreOrdered | scripts/agent-eval/telemetry.py:317-331 | in any accepted ledger, overall, for graph tools and per tool: successes at most measured calls and responses, those at most attempts; the expected number is given exactly for a complete capture and is the number of rows |
| BrokerLedger.TotalsAreSums | scripts/agent-eval/telemetry.py:317-331 | in any accepted ledger the totals, overall, for graph tools and per tool, are quantity by quantity the sums over the rows with such a tool |
| BrokerLedger.StandingsMean | scripts/agent-eval/telemetry.py:239-316 | an entry is interrupted exactly when it has no outcome and the broker's exit is logged, and pending exactly when both are missing |
| BrokerLedger.LedgerOfCapture | scripts/agent-eval/telemetry.py:179-331 | a complete capture of an honest session yields its final rows and, overall, for graph tools and for each tool tried, the sums of the attempts' own calls, successes, argument sizes and result sizes |
| BrokerAttempts.AcceptedRowsAreBound | scripts/agent-eval/telemetry.py:219-316 | in any accepted ledger every row names a logged tools/call request and, once completed with a call, the logged call whose tool, output and status it reports, which took no longer than the attempt and whose input is its arguments or, if truncated, a beginning of them; only answered rows are successful |
| BrokerAttempts.NothingUnaccounted | scripts/agent-eval/telemetry.py:300-309 | in any accepted ledger each logged call belongs to a row whose call completed, each tools/call request to a row, and the calls are as many as the reader found |
| BrokerAttempts.NoSharedCall | scripts/agent-eval/telemetry.py:270-276 | no two completed rows of an accepted ledger claim one call |
| BrokerAttempts.NoSharedReply | scripts/agent-eval/telemetry.py:308-312 | no two answered rows of an accepted ledger claim one request |
| Paging.SizeGrows | scripts/agent-eval/eval_broker.py:609-614 | short of the text's end a longer page is no smaller |
| Paging.FitToPage | scripts/agent-eval/eval_broker.py:602-624 | the page is the longest that fits, or empty if none does |
| Paging.LongestMeans | scripts/agent-eval/eval_broker.py:602-624 | a longest page is within the limit unless empty, and every longer one is past it |
| Paging.EndsExactly | scripts/agent-eval/eval_broker.py:609-614 | following `next_offset` ends if and only if every page on the way can hold a character |
| Paging.ReadAll | scripts/agent-eval/eval_broker.py:602-624 | the pages read by following `next_offset` from 0 are the text |
| Evidence.GatherMeaning | crates/orbit-graph-changes/src/analysis.rs:1079-1108 | one row for every selector found, with the first of its strongest findings and exactly the tags it was found under |
| Evidence.SnapshotsSorted | crates/orbit-graph-changes/src/analysis.rs:874-879 | merged snapshots stay strictly sorted |
| Evidence.CollectCallers | crates/orbit-graph-changes/src/analysis.rs:1074-1123 | callers are strictly sorted by category, distance, confidence, side and selector; the kept ones are the first `cap`, and `found` counts all |
| Evidence.CollectEntryPoints | crates/orbit-graph-changes/src/analysis.rs:1126-1178 | the same for entry points, by distance first |
| Evidence.CollectTests | crates/orbit-graph-changes/src/analysis.rs:1181-1247 | the same for candidate tests, by source first |
| Evidence.CallerOrder | crates/orbit-graph-changes/src/analysis.rs:1074-1123 | callers go by category, distance, sureness of the edge, head before base, and name |
| Evidence.EntryOrder | crates/orbit-graph-changes/src/analysis.rs:1126-1178 | entry points go by distance, category, sureness, side and name |
| Evidence.TestOrder | crates/orbit-graph-changes/src/analysis.rs:1181-1247 | tests go by source, category, sureness and name |
| Evidence.TestSelection | crates/orbit-graph-changes/src/analysis.rs:1250-1307 | one row for every kept test with its first finding, its strongest label and exactly its changed symbols in the order they were first found |
| Evidence.CollectedIsUnique | crates/orbit-graph-changes/src/analysis.rs:1074-1247 | the findings determine the rows: same strongest findings, same order, same tags |
| ReportFit.CutShrinks | crates/orbit-graph-changes/src/analysis.rs:574-592 | cutting to half the longest list strictly lowers the number of list entries |
| ReportFit.MoveKeepsNames | crates/orbit-graph-changes/src/analysis.rs:594-604 | moving the last symbols to `not_analysed` loses and repeats no name |
| ReportFit.FlagsKept | crates/orbit-graph-changes/src/analysis.rs:633-638 | sorting and deduplicating keeps every old flag and every new one |
| ReportFit.FlagsSorted | crates/orbit-graph-changes/src/analysis.rs:633-638 | and leaves them strictly sorted by what, bound and value |
| ReportFit.CountsCount | crates/orbit-graph-changes/src/analysis.rs:622-631 | the counts are the numbers of all callers and entry points |
| ReportFit.ChangesDocument.Shrink | crates/orbit-graph-changes/src/analysis.rs:574-621 | one round cuts every per-symbol list to half the longest, or names only the later half of the symbols, or cuts each standing list to half the longest; it strictly lowers (list entries, symbols, standing entries) and conserves names |
| ReportFit.ChangesDocument.CutUntilFits | crates/orbit-graph-changes/src/analysis.rs:569-632 | the loop ends for every size function, in a document that fits or has nothing left to cut |
| ReportFit.ChangesDocument.FitToBytes | crates/orbit-graph-changes/src/analysis.rs:562-640 | true is returned exactly when the final flagged document fits, false only if nothing is left to cut or the document fitted before its flags were added; a fitting document is untouched; every kind of cut has its flag and the flags end in order; counts and test selection match what is left |
| Masking.MergeIsExact | scripts/agent-eval/reply_provenance.py:79-86 | the merged spans are exactly the overlap classes of the matches, in order, apart, with exactly their rules |
| Masking.UnionIsExact | scripts/agent-eval/reply_provenance.py:79-86 | a position is in a span if and only if some match covers it |
| Masking.MergeAll | scripts/agent-eval/reply_provenance.py:80-86 | the loop over the sorted matches builds their merged spans |
| Masking.Transform | scripts/agent-eval/reply_provenance.py:70-100 | masks the merged spans of all matches and states each one's place, size and rules |
| Masking.KeptInPlace | scripts/agent-eval/reply_provenance.py:87-97 | every character outside the spans is kept, in its place |
| Masking.SpanIsMasked | scripts/agent-eval/reply_provenance.py:87-97 | every span is replaced by the marker right after what precedes it |
| Masking.VerifyText | scripts/agent-eval/reply_provenance.py:125-150 | the span walk accepts exactly the proofs that meet every check |
| Masking.AcceptedProof | scripts/agent-eval/reply_provenance.py:125-150 | whoever wrote it, an accepted proof gives the text's size and digest, points at markers that do not overlap, accounts for every byte outside them, and leaves nothing the policy finds |
| Masking.HonestProofAccepted | scripts/agent-eval/reply_provenance.py:125-150 | the verifier accepts what `transform` states if and only if masking changed the text (or there was nothing to mask) and left no new match |
| Masking.Utf8IsSound | scripts/agent-eval/reply_provenance.py:13-13 | UTF-8 with this marker meets what masking needs of an encoding |
| Utf8.CharIsSpelled | scripts/agent-eval/reply_provenance.py:88-100 | the bytes of a character are a well-formed UTF-8 sequence that spells its code point, and as few as can |
| Schedule.Search.Assign | evals/graph-effectiveness-v1/eval.py:256-272 | succeeds if and only if the choice so far has a balanced completion, and then holds one; otherwise choice and counters are as before |
| Schedule.Search.Try | evals/graph-effectiveness-v1/eval.py:260-271 | one value for the next case, undone when it leads nowhere; pruning never loses a completion |
| Schedule.Pruned | evals/graph-effectiveness-v1/eval.py:261-262 | a case whose repository or family is already half full cannot be chosen in any balanced completion |
| Schedule.MakeSchedule | evals/graph-effectiveness-v1/eval.py:246-280 | a plan exists exactly for 1 to 10 repetitions, even margins and some balanced choice, and then follows a balanced choice |
| Schedule.Layout | evals/graph-effectiveness-v1/eval.py:274-281 | both arms of every case and repetition stand at their place, ordered by choice and repetition |
| Schedule.EverySlotIsPlanned | evals/graph-effectiveness-v1/eval.py:274-281 | every slot is one of the two runs of some case and repetition |
| Schedule.PositionsDiffer | evals/graph-effectiveness-v1/eval.py:274-280 | different runs stand at different places, so each stands once |
| Schedule.Counterbalanced | evals/graph-effectiveness-v1/eval.py:252-281 | in every repetition exactly half of each repository and of each family runs its baseline first |

## Left out

- Git diffing, SQLite graph queries, tree materialisation, indexing and reading symbol sources: foreign libraries; their results are inputs.
- Permission bits, symlink checks and ownership in `cache.rs`: operating-system facts; the resulting provenance is an input.
- `clean_with_options` failing to read the directory, an entry's size or its provenance because of I/O, what a failed recursive removal leaves behind, and other processes changing the directory while it runs; `CacheProtocol` covers the interleavings of its removals.
- A FIFO or device at a lock's path: opening one can block.
- Notes, reasons and candidate order of emitted changed symbols, the paths shown on uncertain groups, the final sort by primary selector and out-of-scope files: presentation.
- The FNV hash in the body-hash key: it is a function of the normalised bytes that stand beside it in the key.
- `regroup` outside the `collect_*` functions and `test_selection`: partition by selection and copying of fields.
- Log redaction, `reply_provenance` entries and `wire_redaction` events in the broker log: with redaction the log is another text; the delivery bound it imposes is modelled.
- Tool execution, argument validation, child processes, deadlines and sandbox probes: what a tool returns is an input.
- Broker.Broker.Serve: a parsed message holding a lone surrogate escape or a number such as `1e999` makes the writing of a log line raise outside every handler, and the broker ends without a stop event; `Line` has no such message.
- Log entries with missing or mistyped fields, and stop events for another reason than the end of the input, which the lifecycle check rejects: events are typed.
- Event locations, digests and the error details of ledger rows.
- Elapsed times are whole nanoseconds of a monotone clock; the source's floating-point seconds are not modelled.
- The regular expressions, salted fingerprints and SHA-256 of `reply_provenance.py`: an arbitrary match function and a digest that stands for its text.
- Paging with masking, and the line-wise `fit_lines`.
- The study id, cache mode, treatment list and sealing of `schedule`: equality checks and digests around the plan.
- Supervision, signal handling, custody, export and replay scripts, statistics and command-line handling.
