# CohortSwitch: a verified model of the flag server

CohortSwitch decides feature flags for subjects, keeps every version of every flag, and lets many
writers, scheduler workers, cached readers and exporters at the same rows. This project models that
core in Dafny and proves what the design promises of it. `dafny verify dfyconfig.toml` checks all of it.

- **Evaluation.** `Operators`, `Configuration`, `Rollout`, `Stages`, `Utf8`, `Hashing` and `Engine` follow
  the evaluation package, and `Buckets` says what a bucket depends on; `Semantics` says declaratively what an
  evaluation should answer and proves that the engine answers exactly that.
- **Forms of a configuration.** `Payloads` goes from API input to engine configuration and back, `Rows` to
  child rows (multisets, since a relation has no order) and back, `Schedule` through a scheduled change.
  Meaning is compared by evaluation, because rows lose every order; `Orders` says exactly when that shows.
- **Writes.** `Store` is one configuration row with its history; `Service` and `Scheduler` are the write
  operations as methods on the tables. `Protocol` lets any number of transactions interleave step by step;
  `Safety` proves its invariant, `Runs` and `Outcomes` what follows in every run, `Timing`
  that keys and instants stay in order, `Blockage` what a change nobody can apply does, `Export` and `Etags`
  what an ETag is worth.
- **Cache.** `Cache` has the loading operations, `Staleness` their interleaving in time, `CacheSteps` that the
  operations are those steps, and `Freshness` runs readers and the write protocol as one machine.
- **Tokens.** Refresh-token rotation, replay detection and the chains tokens form.

A version keeps a `cause`: which write made it and what that write had read. The source records part of
it (`source_version`, the audit action); here it is a history variable that lets theorems say what was
not lost. Instants are integers, ids are integers or strings never used before, and the library functions
the engine calls (text encoding, the hash, float parsing, version comparison) are parameters.

## Where a promise has a condition

The model follows the code. Where the code does not keep what its documentation promises, or keeps it only
sometimes, a lemma has the exact condition, and where one input or run shows the failure, that is a lemma too.

- Stages that start at the same instant are decided by the order of rows (`Stages.TiedStagesAreOrdered`);
  order plays no part exactly when tied stages are interchangeable (`Stages.OrderFreeExactly`), and in a whole
  configuration exactly when `Orders.StorageKeepsMeaningExactly` says.
- A condition that raises is hidden by a false one before it (`Engine.FalseConditionHidesException`);
  `Engine.ConditionOrderExactly` says when not.
- A rule rollout past 10000 basis points ends in an unhandled validation error, not in the 422 answer a
  short one gets (`Payloads.RuleRolloutErrors`).
- A rule can be added on top of a version that was never read, undoing the edit in between
  (`Outcomes.AddedRuleRevivesAFlag`); `Runs.AddedRulesExactly` has the condition.
- Creating and archiving write back a revision they read earlier, so two creations or two archivings can
  share an ETag (`Etags.ConcurrentCreatesShareARevision`, `Etags.ConcurrentArchivingsShareARevision`). Which
  writes make an ETag lie is exact: `Export.StepRisesExactly` for the next moment, `Etags.EtagExactly` for
  everything that can follow.
- The documentation lets the TTL bound stale reads. A reader that is slow between its database read and
  its cache write adds its delay (`Staleness.SlowReaderServesOld`, `Staleness.ServedWasLive`).
- One due change that cannot be applied holds back all others claimed with it
  (`Blockage.ArchivedFlagHoldsBackOthers`), exactly when `Scheduler.InfeasibleExactly` says, and while it is among
  the first twenty it does so in every pass of a worker (`Scheduler.RunWorker`). If its flag is archived, nothing
  any worker does gets it or its company applied (`Blockage.ArchivedChangeIsNeverApplied`).

## Model

| member | source | states |
|---|---|---|
| `Operators.RaisesExactly` | backend/app/evaluation/operators.py:99-104 | matching a condition escapes with an exception if and only if the operator is unknown, membership clashes with the container, a number overflows a float, or reading a version fails with anything but InvalidVersion |
| `Operators.EqualsOnItself` | backend/app/evaluation/operators.py:9-22 | `equals` and `not_equals` split the present values; a value differs from itself exactly when it is a NaN, and is in every list that holds it all the same |
| `Operators.EqualBothWays` | backend/app/evaluation/operators.py:9-10 | equality does not depend on which side is the attribute |
| `Operators.EqualCarriesOver` | backend/app/evaluation/operators.py:9-10 | equality is transitive across booleans, integers, floats and nested values |
| `Operators.TextOperators` | backend/app/evaluation/operators.py:25-34 | contains, starts_with and ends_with hold exactly when the text can be cut around the expected part |
| `Operators.NumericOperators` | backend/app/evaluation/operators.py:45-51 | of two numbers at most one of less and greater holds, the bounded comparisons are their negations, and greater is less with the sides exchanged |
| `Operators.ComparisonsOfNumbers` | backend/app/evaluation/operators.py:75-86 | on two finite numbers the four comparisons are greater, greater or equal, less, and less or equal of the attribute against the expected value |
| `Operators.ComparisonsAtTheEnds` | backend/app/evaluation/operators.py:45-51 | every number lies between the two infinities, which equal themselves |
| `Operators.ComparisonsWithNaN` | backend/app/evaluation/operators.py:45-51 | no comparison with a NaN holds |
| `Operators.NumbersAre` | backend/app/evaluation/operators.py:45-51 | the values that compare are integers, floats and texts the library parses, each as that number, and nothing else |
| `Operators.NoNumberNeverCompares` | backend/app/evaluation/operators.py:45-51 | a comparison with a truth value or what is no number fails without raising |
| `Operators.VersionOperators` | backend/app/evaluation/operators.py:54-63 | versions match by the sign of their order, and what is no version matches nothing |
| `Operators.PresenceOperators` | backend/app/evaluation/operators.py:37-42 | exists and not_exists ask whether the attribute is there, and nothing else |
| `Operators.MembershipOperators` | backend/app/evaluation/operators.py:17-26 | in, not_in and contains on lists and objects: an equal or identical item, a key |
| `Operators.TextMembership` | backend/app/evaluation/operators.py:17-26 | in on texts is contains the other way round |
| `Operators.OnlyTextsHaveEnds` | backend/app/evaluation/operators.py:29-34 | starts_with and ends_with fail on what is no text |
| `Operators.NoContainerHoldsNothing` | backend/app/evaluation/operators.py:17-26 | with what is no container neither in nor not_in nor contains holds |
| `Operators.EqualValues` | backend/app/evaluation/operators.py:9-14 | equality kind by kind: numbers and truth values exactly, everything else within its own kind |
| `Operators.EqualityOperators` | backend/app/evaluation/operators.py:9-14 | equals and not_equals are that equality |
| `Configuration.TypesOfValues` | backend/app/evaluation/models.py:137-145 | which values each flag type allows |
| `Configuration.ActionsExclude` | backend/app/evaluation/models.py:63-68 | a rule has exactly one of a non-empty variation, a rollout and stages |
| `Configuration.RolloutBoundaries` | backend/app/evaluation/models.py:129-134 | a rollout passes exactly if its boundaries rise from above 0 to 10000 |
| `Configuration.FieldLimits` | backend/app/evaluation/models.py:30-45 | the limits of percentages and attribute names at their edges |
| `Configuration.ValidIsComplete` | backend/app/evaluation/models.py:90-116 | what validation lets through: a version from 1 on, a declared default, and declared variations everywhere |
| `Configuration.VariationReferences` | backend/app/evaluation/models.py:95-111 | the collected references are within a key set exactly when every rollout, rule and stage refers to it only |
| `Configuration.ValidateConfiguration` | backend/app/evaluation/models.py:90-116 | the validator, with its loops, accepts exactly the configurations described by `Valid` |
| `Stages.OrderFreeExactly` | backend/app/evaluation/engine.py:112-120 | a stage list answers alike in every row order, for all buckets and instants, if and only if stages tied on their start are interchangeable |
| `Stages.TiedStagesAreOrdered` | backend/app/evaluation/engine.py:115-117 | two tied stages whose answer does depend on the order of the rows |
| `Stages.RampKeepsSubjects` | backend/app/evaluation/engine.py:112-120 | stages of one pair whose percentages do not fall: a bucket let in once is in at every later instant, whatever order each read returns |
| `Engine.EvaluateFlag` | backend/app/evaluation/engine.py:15-102 | the loop with its early returns and remembered bucket computes the function `Evaluate` |
| `Engine.ConditionOrderExactly` | backend/app/evaluation/engine.py:43-52 | the outcome of AND is the same in every order of the conditions if and only if no false condition can hide one that raises |
| `Engine.FalseConditionHidesException` | backend/app/evaluation/engine.py:43-52 | two conditions that pass the rule over in one order and raise in the other |
| `Engine.AbsentAttributeNeverMatches` | backend/app/evaluation/engine.py:43-52 | a rule with a condition on an attribute the context lacks never matches, unless the condition asks for its absence |
| `Engine.FirstStopIsLeast` | backend/app/evaluation/engine.py:43-52 | the rule the sorted loop stops at is the one of least priority, then least position |
| `Semantics.OnlyConditionsRaise` | backend/app/evaluation/engine.py:15-102 | a valid configuration raises if and only if the rule that decides has a condition that raises |
| `Semantics.EvaluateMeetsSpecification` | backend/app/evaluation/engine.py:15-138 | where no condition raises the engine returns, its answer meets the declarative specification and has the type of the flag |
| `Semantics.SpecificationIsDeterministic` | backend/app/evaluation/engine.py:15-138 | the specification allows one answer only, once tied stages are interchangeable |
| `Semantics.EvaluateExactly` | backend/app/evaluation/engine.py:15-138 | the engine gives an answer if and only if the specification allows it |
| `Hashing.StableBucket` | backend/app/evaluation/hashing.py:7-22 | feeding lengths and components piecewise hashes the whole encoding; the bucket is the first eight bytes modulo 10000 |
| `Hashing.EncodingRoundTrip` | backend/app/evaluation/hashing.py:16-21 | the length-prefixed encoding of any list of components decodes to that list |
| `Utf8.TextsStayApart` | backend/app/evaluation/hashing.py:16-19 | different texts have different UTF-8 bytes |
| `Hashing.InputsStayApart` | backend/app/evaluation/hashing.py:16-21 | two lists of texts feed the same bytes to the hash if and only if they are equal |
| `Utf8.KnownEncodings` | backend/app/evaluation/hashing.py:17 | the bytes of one character of each width, as in section 7 of RFC 3629 |
| `Hashing.FirstByteCountsMost` | backend/app/evaluation/hashing.py:22 | the eight bytes are read with the first one counting most |
| `Buckets.BucketHashesInputs` | backend/app/evaluation/hashing.py:7-22 | the bucket is the hash of exactly the mark, project, environment, flag key, subject and salt, in that order, modulo 10000 |
| `Buckets.BucketInputsExactly` | backend/app/evaluation/engine.py:33-43 | two subjects share a bucket under every hash if and only if project, environment, flag key, salt and subject agree; no other column plays a part |
| `Buckets.RolloutTellsSubjectsApart` | backend/app/evaluation/engine.py:33-43 | for any two subjects whom no rule concerns some hash makes a partial rollout answer them differently |
| `Hashing.CountBelow` | backend/app/evaluation/hashing.py:22 | of the numbers below n, exactly this many have a remainder below the boundary |
| `Hashing.BucketsAreNearlyUniform` | backend/app/evaluation/hashing.py:22 | of the 2^64 prefixes exactly e * 1844674407370955 + min(e, 1616) fall below boundary e |
| `Hashing.PrefixesAreNumbers` | backend/app/evaluation/hashing.py:22 | eight bytes and the numbers below 2^64 are the same thing |
| `Rollout.RolloutAllocations` | backend/app/services/flags.py:182-194 | the running-sum loop, with both of its errors, is `Cumulate` |
| `Rollout.RolloutInputs` | backend/app/services/flags.py:511-522 | the difference loop returns all differences, or raises when one is no valid share |
| `Rollout.CumulateExactly` | backend/app/services/flags.py:182-194 | positive shares are accepted exactly when the list is empty or totals 10000, escape exactly when they pass 10000, and success is a valid rollout whose differences are the shares |
| `Rollout.DifferencesOfSums` | backend/app/services/flags.py:511-522 | differences of running sums are the shares, for every list |
| `Rollout.SumsOfDifferences` | backend/app/services/flags.py:182-194 | running sums of differences are the boundaries, for every list |
| `Rollout.RolloutRoundTrip` | backend/app/services/flags.py:511-522 | a stored rollout becomes an accepted share list, and that list the same rollout |
| `Rollout.RolloutVariation` | backend/app/evaluation/engine.py:105-109 | the early-return scan is `Scan`, the first boundary above the bucket or an exception |
| `Rollout.RolloutPartition` | backend/app/evaluation/engine.py:105-109 | the i-th share receives exactly its number of buckets, counted as a set, and no bucket is left out |
| `Payloads.BuildExactly` | backend/app/services/flags.py:197-252 | a payload that passes the schemas is built if and only if it meets the listed conditions |
| `Payloads.BuildErrors` | backend/app/services/flags.py:211-252 | which error a payload ends in, read off the payload: a key twice, a priority twice, two actions, the first incomplete rule rollout, an incomplete flag rollout, anything else |
| `Payloads.LastEntryCounts` | backend/app/services/flags.py:241 | of several values for one key the last one counts |
| `Payloads.EngineRefusesToo` | backend/app/services/flags.py:217-230 | a rule with no single action, or with stages or conditions out of bounds, is refused by the engine model as well |
| `Payloads.VariationKeyPattern` | backend/app/api/schemas.py:95-96 | the pattern of variation keys, character by character |
| `Payloads.RequestLimits` | backend/app/api/schemas.py:123-144 | the limits of names and shares at their edges |
| `Payloads.BuiltIsAccepted` | backend/app/services/flags.py:197-252 | whatever is built is valid, has distinct priorities and at most one flag-level action |
| `Payloads.RuleRolloutErrors` | backend/app/services/flags.py:217-230 | the first incomplete rule rollout decides the error: 422 below 10000, an unhandled validation error above it |
| `Payloads.UpdateFromConfiguration` | backend/app/services/flags.py:467-508 | an accepted configuration always becomes a payload that passes the schemas |
| `Payloads.CopyBuilds` | backend/app/services/flags.py:467-508 | building the copy of an accepted configuration gives it back under the new version |
| `Payloads.AppendBuildsExactly` | backend/app/services/flags.py:619-628 | a copy with an appended rule is built if and only if the rule has a free priority, a complete rollout and declared variations |
| `Payloads.AppendBuilds` | backend/app/services/flags.py:619-628 | building a copy with an appended rule gives the configuration with that rule |
| `Rows.OnlyEnabledRemain` | backend/app/services/flags.py:148-150 | compiling leaves out exactly the disabled rules |
| `Rows.CompileReadsBack` | backend/app/services/flags.py:129-170 | rows stored from a configuration compile, in any order, to a valid configuration with the same rows |
| `Orders.EvaluateAlike` | backend/app/services/flags.py:129-170 | two valid configurations with the same rows give the same answer or exception to every subject at every instant, where no order matters |
| `Orders.StorageKeepsMeaning` | backend/app/services/flags.py:532-576 | storing, reading back in any order and compiling does not change any evaluation, where no order matters |
| `Orders.StorageKeepsMeaningExactly` | backend/app/services/flags.py:129-170 | for given attributes, every reading of the rows answers like the configuration, for every subject, hash and instant, if and only if no order matters: of the rules the walk can reach, one whose conditions depend on order is followed by certain exceptions only, and stages that decide are interchangeable where they tie |
| `Orders.UntiedIsEnough` | backend/app/services/flags.py:134-147 | that holds whenever no stages tie and no false condition can hide an exception |
| `Schedule.ApplyPayload` | backend/app/scheduler/__init__.py:25-58 | overwriting the payload fields is `Applied`, with its errors |
| `Schedule.AppliedBuilds` | backend/app/scheduler/__init__.py:25-58 | copying, applying a change to the payload and building equals changing the configuration, and succeeds exactly when that is valid |
| `Schedule.SwitchingOffAndOn` | backend/app/scheduler/__init__.py:27-32 | a disabled flag serves everybody its default; enabling it again restores every answer |
| `Schedule.SwitchServes` | backend/app/scheduler/__init__.py:33-36 | a switched variation is what subjects outside all rules get |
| `Schedule.RulesGoFirst` | backend/app/scheduler/__init__.py:33-57 | changes of the flag itself leave alone whomever a rule decides for |
| `Schedule.StageDecidesAsRollout` | backend/app/scheduler/__init__.py:37-57 | one active stage of p decides each bucket as a scheduled rollout of p |
| `Schedule.ScheduledRampKeepsSubjects` | backend/app/scheduler/__init__.py:37-57 | over scheduled percentages that do not fall, a subject outside all rules keeps the variation once it has it |
| `Store.ReadingCompiles` | backend/app/services/flags.py:129-170 | any reading of the live rows compiles to an accepted configuration with the rows of the current snapshot |
| `Store.UpdateEndings` | backend/app/services/flags.py:349-385 | how an update ends: an unacceptable payload is refused as such, then a version mismatch is a conflict that names the current version, else it goes through with the payload fields and the next version |
| `Store.LiveRowsEvaluateAsSnapshot` | backend/app/services/flags.py:129-170 | live rows, read in any order, evaluate like the current snapshot where no order matters |
| `Store.LiveRowsAnswerExactly` | backend/app/services/flags.py:129-170 | live rows answer like the current snapshot in every order if and only if no order matters to that snapshot |
| `Store.AddRuleExactly` | backend/app/services/flags.py:619-628 | a rule addition commits if and only if nobody overtook it and the rule fits the version it read |
| `Store.AddRuleKeeps` | backend/app/services/flags.py:619-628 | a successful rule addition keeps every row invariant and records the version read plus the rule |
| `Store.RollbackKeeps` | backend/app/services/flags.py:427-489 | a rollback conflicts exactly on a version mismatch, and else writes the old snapshot under the new number |
| `Store.ScheduledKeeps` | backend/app/scheduler/__init__.py:86-104 | a change that read the current version succeeds exactly when it leaves that snapshot valid, and is then that change of it |
| `Service.Database.DeleteChildren` | backend/app/services/flags.py:525-529 | all children of one configuration go, nothing else changes |
| `Service.Database.PersistChildren` | backend/app/services/flags.py:532-576 | the inserted rows are those of the configuration, nothing else changes |
| `Service.Database.UpdateFlag` | backend/app/services/flags.py:332-424 | compare-and-swap, children, snapshot and revision change together as `Update` says, or an error and no change |
| `Service.Database.CreateFlag` | backend/app/services/flags.py:255-329 | version 1 with its snapshot and children, or the error and no change; a key is refused exactly if some row of the project has it |
| `Service.Database.AddRule` | backend/app/services/flags.py:619-628 | run alone, it succeeds exactly if the flag exists, is at the expected version and the rule fits, and extends that version |
| `Service.Database.RollbackFlag` | backend/app/services/flags.py:427-464 | run alone, succeeds exactly if the flag and target exist and the version matches, and restores the target |
| `Service.Database.ArchiveFlag` | backend/app/api/management.py:381-424 | hides the flag and raises the revision of exactly its environments |
| `Scheduler.ClaimExactly` | backend/app/scheduler/__init__.py:64-73 | a claim, read off the rows: unapplied unlocked rows whose instant has come, in the order of their instants, all of them or the first twenty |
| `Scheduler.ClaimDue` | backend/app/scheduler/__init__.py:64-73 | returns such a claim: nothing early, nothing applied, nothing locked, and all of it when fewer than twenty |
| `Scheduler.ApplyOne` | backend/app/scheduler/__init__.py:75-103 | one change succeeds exactly when it is well formed and leaves the current snapshot valid |
| `Scheduler.ApplyDueChanges` | backend/app/scheduler/__init__.py:61-114 | a batch commits all it claimed or nothing, commits exactly when every claimed change can be carried out, and leaves every change whose instant has not come as it was |
| `Scheduler.InfeasibleExactly` | backend/app/scheduler/__init__.py:75-105 | a batch cannot be carried out if and only if it holds one change that cannot, or two for one configuration |
| `Scheduler.RunWorker` | backend/app/scheduler/__init__.py:128-142 | once such changes are among the first twenty and nobody else holds them, every later pass of this worker, with no other commit in between, claims them, raises and applies nothing |
| `Safety.StepKeepsInv` | backend/app/services/flags.py:332-424 | every step of every transaction keeps the invariant of tables and flights and loses no version |
| `Safety.BatchCommitKeepsInv` | backend/app/scheduler/__init__.py:61-114 | a batch commit is sound although other writers committed while it was under way |
| `Safety.RunKeepsInv` | backend/app/services/flags.py:332-424 | the invariant holds in every state of every run |
| `Runs.StepAddsAtMostOne` | backend/app/services/flags.py:366-385 | a step adds at most one version to a configuration, the next one |
| `Runs.RequestsNeedALiveFlag` | backend/app/services/flags.py:60-70 | edits, scheduled changes and their application begin only on a configuration whose flag is there and not archived, and archiving only on a flag not archived yet |
| `Runs.AnythingMayAbort` | backend/app/scheduler/__init__.py:61-63 | every transaction may end without a trace at any time |
| `Runs.HistoryGrows` | backend/app/services/flags.py:388-401 | in every run snapshots are never lost or changed and the current version never goes back |
| `Runs.OneWriterPerVersion` | backend/app/services/flags.py:366-385 | no two steps of a run make the same version |
| `Runs.WriterOfVersion` | backend/app/services/flags.py:366-385 | every version has the step that made it out of the one before |
| `Runs.EveryRowIsSound` | backend/app/services/flags.py:332-424 | in every reachable state the versions are 1 to the current one, each explained by its cause |
| `Runs.LiveRowsAnswerInEveryRun` | backend/app/services/flags.py:129-170 | in every reachable state any reading of the live rows answers like the current snapshot, where no order matters |
| `Runs.LiveRowsExactlyInEveryRun` | backend/app/services/flags.py:129-170 | and all readings do, if and only if no order matters |
| `Runs.AppliedByItsCommit` | backend/app/scheduler/__init__.py:77-105 | `applied_at` is set once, by the commit that makes the version or finds the configuration gone |
| `Runs.VersionMarksItsChange` | backend/app/scheduler/__init__.py:86-105 | a version made by a change is made by the very commit that marks the change applied |
| `Runs.ClaimsStayDisjoint` | backend/app/scheduler/__init__.py:64-73 | claims of batches in flight, and the rows they have updated, never overlap |
| `Runs.ChangesServeOnce` | backend/app/scheduler/__init__.py:61-114 | a scheduled change makes at most one version over all configurations |
| `Runs.AppliedIffServed` | backend/app/scheduler/__init__.py:61-114 | a change is applied if and only if a version of its configuration is its doing |
| `Blockage.ArchivedChangeIsNeverApplied` | backend/app/scheduler/__init__.py:75-83 | over any run, with any number of workers: an unapplied change of an archived flag that no batch has got past stays unapplied, and no batch that claims it ever commits |
| `Blockage.ArchivedFlagHoldsBackOthers` | backend/app/scheduler/__init__.py:61-83 | a run from the empty database to two due changes, one for an archived flag: the good one could be applied alone, every pass claims both and fails |
| `Runs.BatchAloneIsACommit` | backend/app/scheduler/__init__.py:61-114 | the batch method leaves what the commit of a batch in flight leaves, so the run theorems speak of it |
| `Runs.ScheduledChangesLoseNothing` | backend/app/scheduler/__init__.py:86-104 | under any interleaving a scheduled version is its change applied to exactly the version before |
| `Runs.AddedRulesExactly` | backend/app/services/flags.py:619-628 | an added rule extends the version read; it extends the version replaced if and only if those agree, so always when the expected version is not later than the one read |
| `Runs.EditsReplaceWhatTheyExpect` | backend/app/services/flags.py:366-385 | an edit commits only over the version it expects |
| `Outcomes.AddedRuleRevivesAFlag` | backend/app/services/flags.py:619-628 | a run in which an added rule expects a later version than was read and switches a killed flag back on |
| `Outcomes.RollbackOnlyConflicts` | backend/app/services/flags.py:427-464 | in any reachable state a rollback commits if and only if its version matches; no validation rejects an old snapshot |
| `Outcomes.RollbackRestoresAnswers` | backend/app/services/flags.py:427-489 | after a rollback every subject is answered as under the target version |
| `Outcomes.RolledBackRowsAnswer` | backend/app/services/flags.py:427-489 | and so are subjects served from the live rows in any order |
| `Outcomes.RampKeepsSubjectsInEveryRun` | backend/app/scheduler/__init__.py:37-57 | through the versions of a scheduled ramp in any run a subject keeps the variation |
| `Timing.KeysStayUnique` | backend/app/services/flags.py:267-273 | in every state of every run from the empty database a project has each flag key once |
| `Timing.NothingIsEarly` | backend/app/scheduler/__init__.py:64-105 | in every run in which no batch commits at an instant before its claim, what is claimed has come due and what is applied was applied no earlier than its instant |
| `Export.ExportConfiguration` | backend/app/api/management.py:571-603 | 404, 304 or a bundle, exactly; a bundle has every live configuration of the environment once, compiled, by flag key |
| `Export.BundlesExportAlike` | backend/app/api/management.py:596-603 | equal bundles show the same configurations, and every one reads alike |
| `Export.StepRisesExactly` | backend/app/api/management.py:586-603 | a step raises the revision of every environment or leaves its revision and bundle alone if and only if it is undisturbed: a creation that fails or whose revision nobody raised, an archiving whose revision nobody raised or that only repeats one |
| `Export.UndisturbedExactly` | backend/app/api/management.py:586-603 | a stretch of a run is undisturbed if and only if between any two of its moments revisions rise or bundles stay |
| `Export.NotModifiedIsCurrent` | backend/app/api/management.py:586-603 | over an undisturbed stretch a 304 means that the bundle the client holds, even one read later than its ETag, is the current one |
| `Etags.EtagExactly` | backend/app/api/management.py:586-603 | a step is undisturbed if and only if no undisturbed way on brings its old revision back for another bundle, so that a 304 would be wrong |
| `Etags.ConcurrentCreatesShareARevision` | backend/app/services/flags.py:317 | a run of two concurrent creations after which one revision stands for two bundles |
| `Etags.ConcurrentArchivingsShareARevision` | backend/app/api/management.py:394-398 | the same for two concurrent archivings |
| `Cache.CacheKeysDiffer` | backend/app/services/cache.py:17-18 | cache keys agree only for the same project, environment and flag |
| `Cache.Redis.LoadConfiguration` | backend/app/services/cache.py:21-47 | a single load answers the cached entry or the database row, and refills the cache only on a miss |
| `Cache.Redis.LoadConfigurations` | backend/app/services/cache.py:50-92 | a batch returns each distinct requested key with what a single load gives, or names exactly the keys found in neither |
| `Cache.Redis.InvalidateAndPublish` | backend/app/services/cache.py:95-119 | subscribers hear of a write only once its entry is gone, never when the delete raised; other flags keep their entries |
| `CacheSteps.InvalidationIsADelete` | backend/app/services/cache.py:104-105 | what invalidation leaves is the delete step of that flag, whether it takes effect or not, and no other flag loses its entry |
| `CacheSteps.LoadIsSteps` | backend/app/services/cache.py:21-47 | a single load alone is a hit, or load, set and answer: it serves what the method returns and leaves its entry, for any reading of the row |
| `CacheSteps.BatchIsLoads` | backend/app/services/cache.py:50-92 | a batch leaves each requested key as a load of its own would, and all others alone |
| `Staleness.AnythingMayFail` | backend/app/services/cache.py:44-46 | at any time an entry, a reader or a call may be lost |
| `Staleness.StepKeepsInv` | backend/app/services/cache.py:21-47 | every call of readers, writers and Redis keeps entries and answers recent |
| `Staleness.ServedWasLive` | backend/app/services/cache.py:21-47 | whatever fails, an answer was live less than TTL plus reader delay before it was given |
| `Staleness.ReadsReachTheLastVersion` | backend/app/services/cache.py:21-47 | once writes have stopped for that long every answer is the last committed state |
| `Staleness.SettledExactly` | backend/app/services/cache.py:21-47 | all answers are of the last commit until the next one, whatever is called or fails, if and only if nothing older is cached or held by a reader in time |
| `Staleness.DeleteSettles` | backend/app/services/cache.py:104-105 | a delete that takes effect makes all answers current until the next commit if and only if no reader in time still has something older to answer or store |
| `Staleness.SlowReaderServesOld` | backend/app/services/cache.py:40-42 | for every TTL and delay a run without failures that meets the bound exactly, so TTL alone is none |
| `Freshness.HistoryIsTrue` | backend/app/services/cache.py:40 | in the machine of writers and cached readers together, the cache database has at every instant the row the protocol has live |
| `Freshness.ServedLikeARecentVersion` | backend/app/services/cache.py:21-47 | in any run of that machine an answer evaluates like the snapshot that was current less than TTL plus reader delay before, where no order matters, or says rightly that there was none |
| `Tokens.Session.RotateRefreshToken` | backend/app/services/auth.py:53-91 | what rotation leaves in the session and returns, in each of its five endings; a pair is for the owner of the token |
| `Tokens.Session.Refresh` | backend/app/api/auth.py:52-67 | what is committed in each ending: reuse and expiry persist, the other errors leave nothing |
| `Tokens.Session.Logout` | backend/app/services/auth.py:94-101 | the presented token is revoked, nothing else changes |
| `Tokens.LogoutExactly` | backend/app/services/auth.py:94-101 | after a logout the presented token is revoked, its owner has one unrevoked token less, and every other row is as it was; an unknown secret changes nothing |
| `Tokens.LogoutIsFinal` | backend/app/services/auth.py:94-101 | in every run no later refresh with that secret succeeds: it is reported as reused |
| `Tokens.IssuedTokensAreFresh` | backend/app/services/auth.py:37-50 | login and rotation issue an unrevoked token of the owner that lives for the refresh lifetime |
| `Tokens.LoginInRun` | backend/app/services/auth.py:37-50 | in a run a login adds one such token and leaves the others as they were |
| `Tokens.RefreshInRun` | backend/app/services/auth.py:53-91 | in a run a refresh leaves the stated ending and count, and such a token if it succeeds |
| `Tokens.FreshTokenWorks` | backend/app/services/auth.py:70-91 | such a token refreshes at every instant before its lifetime is over and at none after, with an access token for its owner |
| `Tokens.StepKeepsInv` | backend/app/services/auth.py:37-101 | every request keeps the links forward, within one user and unshared |
| `Tokens.RunKeepsInv` | backend/app/services/auth.py:37-101 | in every run rows keep owner, secret and expiry, and revocation is permanent |
| `Tokens.ChainsLeadForward` | backend/app/services/auth.py:78-86 | following replacements never returns, stays with the user, and passes only revoked tokens |
| `Tokens.ChainsDoNotMeet` | backend/app/services/auth.py:78-86 | two chains that share a token are one |
| `Tokens.OneUnrevokedPerChain` | backend/app/services/auth.py:78-86 | a chain has at most one unrevoked token, its tail |
| `Tokens.RefreshCounts` | backend/app/services/auth.py:53-91 | which ending a refresh gets, exactly, and that success keeps the number of unrevoked tokens while reuse leaves none |
| `Tokens.ReplayIsDetected` | backend/app/services/auth.py:63-69 | a token once rotated or revoked is reported as reused whenever it is presented again, and the user is left with no unrevoked token |
| `Tokens.NoTokenUntilLogin` | backend/app/services/auth.py:63-69 | after that no token of the user works until the next login |
| `Tokens.NoMoreTokensThanLogins` | backend/app/services/auth.py:37-101 | a user never has more unrevoked tokens than logins |

## Left out

- Protocol.NextFinishEdit: an edit's compare-and-swap, its child rows and its commit are one step, because PostgreSQL holds the row lock between them; reading an old revision under READ COMMITTED is modelled only for creating and archiving.
- Protocol.NextBatchRead: a batch that would change one configuration twice can only abort. The session does not flush between the two, so both sets of variations would be inserted at once, which the unique key of config and variation refuses; how the ORM gets there is not modelled.
- Payloads.BuildExactly: a variation value is meant as the union type of `variations` in backend/app/evaluation/models.py leaves it. That the validation library turns a float such as 2.0 into an integer there, so that such a payload is accepted, is not modelled.
- Scheduler.ApplyDueChanges: the branch for a project that is gone cannot be reached and is not modelled: a flag refers to its project by a foreign key, and removing the project would have to remove the change the batch has locked. Ordering by start holds within one batch only.
- Export.ExportConfiguration: the queries behind one load are one snapshot, and an environment's flags are taken to be of its project, as Service.Database.CreateFlag sees to.
- Texts whose UTF-8 is 2^32 bytes or longer, which no field allows; the engine takes the encoding as a parameter, so its theorems hold for any.
- Staleness.ServedWasLive: one flag at a time, since cache keys do not interact; a reader is assumed to set and answer within the delay that bounds the theorem.
- Tokens.Session.RotateRefreshToken: requests are atomic, as the row is locked; a bulk revocation racing with a concurrent rotation at READ COMMITTED is not modelled. An access token is its claims, without the signature.
- BLAKE2b, SHA-256, Argon2, JWTs and randomness: the hash is any function to sixteen bytes, secrets are values not seen before.
- Pydantic's JSON round trip of snapshots and cache payloads, and SQLAlchemy's flush and identity map.
- PEP 440 parsing and float parsing, which are parameters with their failures.
- Flag names and descriptions, audit rows, the delivery of notifications, roles and permissions, API keys, rate limiting, health checks, and the SDK client with its own in-process cache.
