# Verification models of the orchestration platform

Dafny models of the algorithms and protocols of the platform that carry unbounded properties, with
proofs. `dafny verify dfyconfig.toml` checks the project. One module models one component:

| modules | component |
|---|---|
| `GitopsContracts`, `GitopsCodec`, `GitopsDocuments`, `GitopsRepository`, `GitopsLoading`, `ScopeTree` | the GitOps desired state: its file layout, read back from path strings and from a directory, and its cross-document checks |
| `JsonValues`, `JsonSchemaToZod`, `JsonSchemaValidity`, `JsonSchemaPromise`, `JsonSchemaExactness`, `JsonSchemaForms`, `JsonSchemaDepartures` | the compiler from JSON Schema to Zod, with a semantics of both languages |
| `ScheduleExpression`, `ScheduledDispatch`, `ScheduledClaims`, `ScheduledSequence`, `ScheduledLosses`, `ScheduledJobsRunner`, `ScheduledPass` | scheduled jobs: the next run, the dispatch protocol of many pollers, and the code of one poller |
| `JsonGraph` | the recogniser of JSON values over object graphs that may be shared or cyclic |
| `SseParser` | the reader of server-sent events |
| `Decimal`, `ToolNames` | provider-safe tool names and their maps |
| `ChatRetryDecision`, `ChatRetryIds`, `ChatRetryProtocol`, `ChatRetryQueue`, `ChatRetryHistory`, `ChatRetryGenerations`, `ChatRetryFreshness`, `ChatDeliveries`, `ChatExecution`, `ChatManualRetry` | retries of failed chat sessions: the queue, the session rows, the worker and retries by hand |
| `OverrideLayers`, `ConfigResolution`, `ConfigAnswers` | layered configuration behind a cache |
| `RegularExpressions`, `GlobPattern`, `ApprovalRules` | approval rules: compiled globs and the choice of a rule |
| `ApprovalWaiters`, `ApprovalOutcomes`, `ApprovalTimers`, `ApprovalRequests` | approval requests and the promises that wait for them |
| `PiSession` | the events of a coding-agent session |
| `CostGovernance` | cost estimates and budget decisions |
| `Text`, `Folding` | strings and folds shared by the others |

Protocols are state machines whose steps interleave freely. Where the source mutates an object, a class
with the same fields and methods is proved against the functions the state machine is made of.

Lemmas carry `{:induction false}`: each proof does its own induction where it needs one.

Assumptions: every method of a repository or of the queue is atomic. One chat delivery is one step that
may end in a crash; a manual retry is one step for each of its reads and writes. The queue adds no job
under an id it holds, waiting or ended, delivers a job again until it has ended, and may drop ended jobs
and give up waiting ones. Session ids are UUIDs. Timers fire on time. Regular expressions have the meaning
of ECMAScript, as `RegularExpressions` states it. Zod's combinators behave as `JsonSchemaToZod.ZodParse`
says. Clocks, JSON parsing, cron expressions and the answers of engines are parameters.

## What does not hold

The code is modelled as it is. These lemmas show where it departs from what its comments or its
callers expect; each has its exact condition in a lemma beside it where one is known.

- A role, definition or override called `scope` is read back as a scope node, and a scope segment
  `agents` or `workflows` captures overrides of other kinds (`GitopsCodec.RoundTrip`).
- Two scope documents for one path are accepted, at the root always and elsewhere when their slugs
  differ (`ScopeTree.TwoRootsAccepted`, `ScopeTree.TwoNodesOnOnePathAccepted`); exactly then paths of
  an accepted tree repeat (`ScopeTree.AcceptedPathsDistinct`), and a directory keeps one of the two
  (`GitopsRepository.RepositoryRoundTrip`).
- Composite enum members, `prefixItems` and lists inside type lists are over-constrained, against the
  comment of the compiler (`JsonSchemaDepartures.CompositeEnumMemberRefused`,
  `JsonSchemaDepartures.PrefixItemsOverconstrained`,
  `JsonSchemaDepartures.NestedTypeListOverconstrained`), exactly as
  `JsonSchemaDepartures.EnumKeepsPromise`, `JsonSchemaDepartures.PrefixItemsKeepPromise` and
  `JsonSchemaDepartures.NestedListKeepsPromise` say.
- An update writes back a due time it read earlier (`ScheduledClaims.StaleUpdateReclaims`); what may be
  written is `ScheduledClaims.EditIsExactlySafe`.
- A poller that crashes between its claim and its dispatch loses the due time
  (`ScheduledLosses.CrashLosesDueTime`).
- Values that share an object are refused although they have a JSON text (`JsonGraph.SharingIsRefused`).
- Carriage returns hide the end of a stream; section 9.2.5 of the WHATWG HTML standard allows them
  (`SseParser.CarriageReturns`).
- Two tools of one name are advertised under one provider name (`ToolNames.AdvertisedDistinct`).
- The default of the longest retry delay is not held against the first delay
  (`ChatRetryDecision.ConfigNormalized`).
- A session can wait for ever for a retry whose id the queue still holds as finished
  (`ChatRetryQueue.SkippedRetryBlocksId`); a retry is lost exactly so when it is recorded
  (`ChatRetryQueue.RecordingIsLive`), and later exactly as `ChatRetryQueue.NextKeepsBacked` says.
- A retry id is executed twice only after a first or manual job of an earlier generation is delivered
  again, or a manual retry overlaps another one or puts back an old row
  (`ChatRetryGenerations.RetryIdsExecutedOnce`); both happen
  (`ChatRetryGenerations.StaleFailureRepeats`, `ChatRetryGenerations.RetryExecutedTwice`,
  `ChatRetryGenerations.RollbackRepeats`).
- A glob with another metacharacter loses its meaning: `a+` refuses its own text
  (`GlobPattern.PlusRefusesItself`, `GlobPattern.MeaningIsKept`).
- An approved request can end as expired or as rejected (`ApprovalWaiters.ApprovedThenExpired`,
  `ApprovalWaiters.ApprovedThenRejected`), exactly when `ApprovalOutcomes.AfterSave` says.
- A promise that expired can see its request approved, when the write of the expiry fails
  (`ApprovalTimers.ExpiryWriteDecides`).
- The timer of a replaced promise keeps a verdict from its successor, which then learns of it by polling
  (`ApprovalTimers.ReplacedTimerHidesVerdict`).
- More tokens can turn a denial into permission (`CostGovernance.TokenLimitHidesHardLimit`).

## Model

| member | source | states |
|---|---|---|
| GitopsCodec.RoundTrip | packages/gitops-contracts/src/desired-state.ts:30-240 | parsing what was serialized gives back the state exactly, list order included, if and only if the state satisfies its schemas, no role, definition or override is called `scope`, no workflow override lies under a scope segment `agents` and no skill override under `agents` or `workflows` |
| GitopsCodec.UnaddressableIsReported | packages/gitops-contracts/src/desired-state.ts:190-240 | a valid state that does not survive the round trip is answered with errors, never with a different state |
| GitopsRepository.RepositoryRoundTrip | apps/api/src/gitops/gitops-yaml-loader.ts:84-118 | a state written into a directory, where a path holds one file, and loaded in any order is parsed to the same documents if and only if it satisfies its schemas, all of it is addressable, and no two documents share a path |
| GitopsRepository.RoundTripBesideManifest | apps/api/src/gitops/gitops-yaml-loader.ts:44-50 | the same for a directory that also holds a manifest `gitops.yaml` of any content |
| GitopsRepository.PathsAreKeys | packages/gitops-contracts/src/desired-state.ts:44-111 | two documents of a valid addressable state share a path exactly when they are of one section and have one key, and the loader picks up every path written |
| GitopsCodec.SerializeDesiredState | packages/gitops-contracts/src/desired-state.ts:44-111 | the loops that push files produce nodes, roles, the one assignment list, definitions and overrides in that order |
| GitopsCodec.ParseDesiredStateFiles | packages/gitops-contracts/src/desired-state.ts:190-240 | the loop over the files and the final aggregate check give the result of dispatching every file in order |
| GitopsCodec.ParseRun.DispatchFile | packages/gitops-contracts/src/desired-state.ts:166-188 | one file adds its document to the draft, adds one error, or is ignored, by the first test its path passes |
| GitopsCodec.ParseRun.DispatchPlatformConfigFile | packages/gitops-contracts/src/desired-state.ts:118-140 | handles exactly the paths under the three definition directories |
| GitopsCodec.ParseRun.DispatchScopedConfigFile | packages/gitops-contracts/src/desired-state.ts:142-164 | handles exactly the remaining paths with an inner directory `agents`, `workflows` or `skills`, looked for in that order |
| GitopsCodec.ScopeDirInverse | packages/gitops-contracts/src/desired-state.ts:29-42 | `scopeDirOf` undoes `scopeFilePath` on every scope path |
| GitopsCodec.RoleRoute | packages/gitops-contracts/src/desired-state.ts:51-56 | the file of a role is read as a role unless the role is called `scope` |
| GitopsCodec.DefinitionRoute | packages/gitops-contracts/src/desired-state.ts:67-84 | the file of a definition is read as one of its kind unless it is called `scope` |
| GitopsCodec.OverrideRoute | packages/gitops-contracts/src/desired-state.ts:86-108 | the file of an override is never ignored, and is read as one of its kind if and only if its name and scope are addressable |
| GitopsCodec.ManifestIsIgnored | packages/gitops-contracts/src/desired-state.ts:166-172 | a file `gitops.yaml` of any content, anywhere in the list, changes nothing about the result of parsing |
| GitopsCodec.TopLevelFilesAreIgnored | packages/gitops-contracts/src/desired-state.ts:166-188 | so does every other file at the top level but `assignments.yaml` |
| GitopsDocuments.ParseJoins | packages/gitops-contracts/src/desired-state.ts:190-240 | parsing one list after another gives the states joined section by section if both are read, else the refused files of both in order, else the complaint about the whole |
| GitopsDocuments.RoleFileParses | packages/gitops-contracts/src/rbac.schema.ts:20-33 | a file in `roles/`, whatever it holds, is parsed if and only if it is a role with a slug, a description of at most 1024 characters, an owner that is a scope path and at least one permission, each `resource:action`; otherwise it is the one error |
| GitopsDocuments.AssignmentsFileParses | packages/gitops-contracts/src/rbac.schema.ts:37-45 | `assignments.yaml` is parsed if and only if every entry has a user, a role and a scope path |
| GitopsDocuments.DefinitionFileParses | packages/gitops-contracts/src/desired-state.ts:118-140 | a file under a definition directory is parsed if and only if it is a definition of that kind with a slug |
| GitopsDocuments.NodeFileParses | packages/gitops-contracts/src/desired-state.ts:37-42 | a scope file is a node at the directories above it if its name has 1 to 255 characters and it has a slug; directories that are no scope path spoil the whole parse |
| GitopsDocuments.OverrideFileParses | packages/gitops-contracts/src/overrides.schema.ts:48-69 | a file under a kind's directory below `scopes/` is parsed if and only if it is an override of the first kind looked for among its directories, with a slug, a scope path, and a body or a named body to replace or a patch to merge |
| GitopsDocuments.SlugIsHyphenated | packages/gitops-contracts/src/common.schema.ts:6-12 | a slug is words of lower-case letters and digits joined by single hyphens |
| GitopsDocuments.ScopePathIsChain | packages/gitops-contracts/src/common.schema.ts:19-23 | a scope path is the root or slugs, each after a slash |
| GitopsDocuments.PermissionIsResourceAction | packages/gitops-contracts/src/rbac.schema.ts:9-11 | a permission is letters or underscores, a colon, and letters |
| GitopsDocuments.WrittenFiles | packages/gitops-contracts/src/desired-state.ts:44-111 | the files written are exactly the objects of the state at their documented places |
| GitopsLoading.PathsLoaded | apps/api/src/gitops/gitops-yaml-loader.ts:41-82 | the loader picks up the two files at the top, YAML files under the directories of roles and definitions, and under `scopes/` scope files and YAML files whose own directory is one of a kind |
| GitopsLoading.DocFilenames | apps/api/src/gitops/gitops-yaml-loader.ts:23-25 | a YAML file has a name without dots or slashes and one of the two extensions in any case |
| ScopeTree.ValidateScopeTree | packages/gitops-contracts/src/validate-desired-state.ts:20-48 | the pass with its map of slugs by parent reports, per node, the orphan and the repeated slug, in order |
| ScopeTree.TreeExact | packages/gitops-contracts/src/validate-desired-state.ts:20-48 | no tree error if and only if every non-root node's parent is present and no two non-root nodes share parent and slug |
| ScopeTree.ValidateDesiredState | packages/gitops-contracts/src/validate-desired-state.ts:147-184 | all issues in order; ok if and only if every cross-document reference of the state is sound |
| ScopeTree.NoIssuesIffIntegral | packages/gitops-contracts/src/validate-desired-state.ts:50-141 | no issue of any check if and only if roles, assignments, overrides and the tree are sound |
| ScopeTree.ParentOf | packages/gitops-contracts/src/validate-desired-state.ts:14-18 | the parent of a path is what precedes its last slash, or the root; the root has none, and a path without a slash loses its last character |
| ScopeTree.AcceptedTreeIsClosed | packages/gitops-contracts/src/validate-desired-state.ts:14-35 | an accepted tree contains every scope above each of its nodes, up to the root |
| ScopeTree.AcceptedPathsDistinct | packages/gitops-contracts/src/validate-desired-state.ts:20-48 | in an accepted tree all paths are distinct if and only if at most one document is at the root and the documents on one non-root path carry one slug |
| ScopeTree.TwoRootsAccepted | packages/gitops-contracts/src/validate-desired-state.ts:26-29 | any two documents for the root are accepted |
| ScopeTree.TwoNodesOnOnePathAccepted | packages/gitops-contracts/src/validate-desired-state.ts:36-46 | two documents for one path are accepted when their slugs differ |
| ScopeTree.SlugCheckKeepsPathsApart | packages/gitops-contracts/src/validate-desired-state.ts:36-46 | when slugs are the last path segments all paths are distinct if and only if the slug check is silent and there is at most one root |
| JsonSchemaPromise.NeverOverconstrains | packages/harness-engine-claude-code/src/json-schema-to-zod.ts:13-99 | whatever a schema allows, its compiled form accepts, however the other keywords are read, for every schema whose parts that its type makes the compiler look at have primitive enums, no lists inside type lists, and no object `items` behind `prefixItems` |
| JsonSchemaToZod.AcceptedValuesAreUnchanged | packages/harness-engine-claude-code/src/json-schema-to-zod.ts:13-16 | for every schema an accepted value is returned unchanged: no key is stripped at any depth |
| JsonSchemaExactness.ExactlyValid | packages/harness-engine-claude-code/src/json-schema-to-zod.ts:18-99 | on schemas of one form each, with integer read as number, acceptance is validity |
| JsonSchemaExactness.AbsentIsRejected | packages/harness-engine-claude-code/src/json-schema-to-zod.ts:68-89 | a schema of one form never accepts an absent property, which is what makes a required one be demanded |
| JsonSchemaExactness.MissingRequiredIsRefused | packages/harness-engine-claude-code/src/json-schema-to-zod.ts:74-89 | a compiled object schema refuses every object that lacks a declared property listed under `required` |
| JsonSchemaForms.VariantsDecide | packages/harness-engine-claude-code/src/json-schema-to-zod.ts:23-26 | whatever else a schema says, alternatives accept what one of them accepts |
| JsonSchemaForms.EnumDecides | packages/harness-engine-claude-code/src/json-schema-to-zod.ts:28-33 | without alternatives an enum with members accepts a primitive value that is a member or an item of a member that is a list, and nothing else |
| JsonSchemaForms.ScalarDecides | packages/harness-engine-claude-code/src/json-schema-to-zod.ts:54-62 | a scalar type accepts exactly the values of that type, integers being numbers |
| JsonSchemaForms.ArrayDecides | packages/harness-engine-claude-code/src/json-schema-to-zod.ts:52-53 | the array type accepts the arrays whose items the compiled `items` accepts |
| JsonSchemaForms.ObjectDecides | packages/harness-engine-claude-code/src/json-schema-to-zod.ts:68-99 | the object type accepts the objects whose declared properties fit, those listed under `required` being there; other keys are allowed |
| JsonSchemaForms.TypeListDecides | packages/harness-engine-claude-code/src/json-schema-to-zod.ts:41-47 | a list of types accepts what one of them accepts, the other keywords being the same, and null if it lists that; without another type it accepts everything |
| JsonSchemaForms.EntryIsType | packages/harness-engine-claude-code/src/json-schema-to-zod.ts:41-47 | an entry of a type list stands for the same schema with that type alone |
| JsonSchemaForms.UnknownTypeAcceptsAll | packages/harness-engine-claude-code/src/json-schema-to-zod.ts:63-64 | any other type accepts everything |
| JsonSchemaForms.DescriptionIsKept | packages/harness-engine-claude-code/src/json-schema-to-zod.ts:101-109 | a description is carried over, whichever keyword decides |
| JsonSchemaForms.NoSchemaAcceptsAll | packages/harness-engine-claude-code/src/json-schema-to-zod.ts:19-21 | what is no schema object accepts everything |
| JsonSchemaToZod.FillShape | packages/harness-engine-claude-code/src/json-schema-to-zod.ts:82-86 | the loop gives each declared property its compiled schema, optional unless required |
| JsonSchemaDepartures.CompositeEnumMemberRefused | packages/harness-engine-claude-code/src/json-schema-to-zod.ts:28-33 | an empty object as enum member is allowed by the schema and refused by the compiled literal |
| JsonSchemaDepartures.EnumIsExact | packages/harness-engine-claude-code/src/json-schema-to-zod.ts:28-33 | a schema of an enum alone accepts a member if and only if it is primitive |
| JsonSchemaDepartures.EnumKeepsPromise | packages/harness-engine-claude-code/src/json-schema-to-zod.ts:28-33 | such a schema refuses nothing it allows if and only if all its members are primitive |
| JsonSchemaDepartures.PrefixItemsOverconstrained | packages/harness-engine-claude-code/src/json-schema-to-zod.ts:52-53 | with `prefixItems` a valid array is refused, because every item is held to `items` |
| JsonSchemaDepartures.PrefixItemsKeepPromise | packages/harness-engine-claude-code/src/json-schema-to-zod.ts:52-53 | for all leading schemas and every `items`, the compiled array refuses nothing valid if and only if `items` accepts all that each position allows, as far as valid arrays reach |
| JsonSchemaDepartures.TranslatableItemsKeepPromise | packages/harness-engine-claude-code/src/json-schema-to-zod.ts:52-53 | for satisfiable leading schemas and translatable `items` that is: whatever a leading schema allows the compiled `items` accepts |
| JsonSchemaDepartures.TypedTuplesKeepPromise | packages/harness-engine-claude-code/src/json-schema-to-zod.ts:52-53 | for plain types that is: every leading type is the type of the items, number and integer being one |
| JsonSchemaDepartures.NestedTypeListOverconstrained | packages/harness-engine-claude-code/src/json-schema-to-zod.ts:41-46 | a list inside a type list still constrains the value |
| JsonSchemaDepartures.NestedListKeepsPromise | packages/harness-engine-claude-code/src/json-schema-to-zod.ts:41-46 | a type list of one list, read as constraining nothing, refuses nothing if and only if the inner list names every type, is empty but for null, or has an entry that is no type name |
| ScheduleExpression.NextIsLeastGridPoint | apps/api/src/automation/schedule-expression.service.ts:88-101 | the next run of an interval job is the least grid point above both the last due time and now |
| ScheduleExpression.GridComposes | apps/api/src/automation/schedule-expression.service.ts:88-101 | due times reached by successive advances stay on the grid of the first |
| ScheduledDispatch.DispatchesAreDistinct | apps/api/src/automation/scheduled-jobs-runner.service.ts:81-132 | over every interleaving of pollers, pause, resume, update, manual runs and crashes, each job and due time is dispatched by polling at most once |
| ScheduledDispatch.AtMostOneDispatch | apps/api/src/automation/scheduled-jobs-runner.service.ts:108-130 | the invariant behind it is kept by every step from every state that satisfies it |
| ScheduledDispatch.ClaimFindsActive | apps/api/src/automation/database/repositories/scheduled-job.repository.ts:95-112 | each claim is of a row that is active at its present due time, however old the batch it comes from |
| ScheduledDispatch.PausedJobIsNotClaimed | apps/api/src/automation/database/repositories/scheduled-job.repository.ts:95-112 | once a job is paused no poller claims it until a resume, over every interleaving |
| ScheduledClaims.EditKeepsOrder | apps/api/src/automation/scheduled-jobs.service.ts:228-271 | from every ordered state a write of the next run leaves all claims of the job behind if and only if it writes none or one later than every claimed due time |
| ScheduledClaims.WriteBackIsFresh | apps/api/src/automation/scheduled-jobs.service.ts:228-271 | for a write of the due time that was read that means the job was not claimed at that time or later since, and without another edit in between that it was not claimed since |
| ScheduledClaims.EditIsExactlySafe | apps/api/src/automation/scheduled-jobs.service.ts:228-271 | an edit that leaves the job active and due keeps claimed due times increasing in every careful continuation if and only if what it writes is later than all claims |
| ScheduledClaims.ClaimedDueTimesIncrease | apps/api/src/automation/scheduled-jobs-runner.service.ts:85-106 | when write-backs are fresh and the clocks of new schedules are not behind the claims, claimed due times of each job strictly increase, pauses, resumes, manual runs and crashes included |
| ScheduledClaims.ClaimsStayOnGrid | apps/api/src/automation/schedule-expression.service.ts:88-101 | while edits leave schedules and next runs alone a later claim of an interval job lies on the grid of every earlier one and beyond its poll's clock, so missed slots collapse |
| ScheduledClaims.InsertNeverRefuses | apps/api/src/automation/scheduled-jobs-runner.service.ts:108-123 | when edits are careful and no run is made by hand the insert by due key always creates the run of a claimed key |
| ScheduledLosses.CrashLosesDueTime | apps/api/src/automation/scheduled-jobs-runner.service.ts:100-130 | in runs with careful edits and no manual run a claimed due time is dispatched by its poller's next steps, and if the poller crashes before, it is never dispatched |
| ScheduledLosses.ManualRunTakesPlace | apps/api/src/automation/scheduled-jobs-runner.service.ts:28-51 | a manual run made at a due time between the claim and the insert takes its place: the due time is never dispatched by polling |
| ScheduledLosses.ManualRunKeepsRuns | apps/api/src/automation/scheduled-jobs-runner.service.ts:28-51 | a manual run changes no job, no other run and no dispatch, and makes no run that is there already |
| ScheduledLosses.PauseStopsClaims | apps/api/src/automation/scheduled-jobs.service.ts:135-157 | from a pause to the next resume no poller claims the job |
| ScheduledLosses.ResumeStartsAnew | apps/api/src/automation/scheduled-jobs.service.ts:159-185 | a resume makes the job active with the first run of the schedule it read, and changes nothing when that is a past date or an interval under five seconds |
| ScheduledLosses.NewJobIsClaimed | apps/api/src/automation/scheduled-jobs.service.ts:80-116 | a new active job is claimed by a poll at its first run |
| ScheduledClaims.StaleUpdateReclaims | apps/api/src/automation/scheduled-jobs.service.ts:228-271 | an update that writes back the due time it read makes a claimed due time reappear; it is claimed twice and only the due key stops the second dispatch |
| ScheduledSequence.ClaimsFollowSchedule | apps/api/src/automation/scheduled-jobs-runner.service.ts:81-106 | while a job is not edited its claims, over every interleaving of pollers and stale batches, are its first next run and then each time the one its schedule gives after the last; its row holds the one to come |
| ScheduledSequence.OneTimeRunsOnce | apps/api/src/automation/schedule-expression.service.ts:84-86 | a one-time job that is not edited is claimed at most once, at its next run, and has no next run after that |
| ScheduledSequence.CronFollowsFirings | apps/api/src/automation/schedule-expression.service.ts:103-108 | the claims of a cron job that is not edited are successive firings of its expression |
| ScheduledSequence.UpdateSetsSchedule | apps/api/src/automation/scheduled-jobs.service.ts:228-271 | an update of an active job to a one-time date that has passed or to an interval under five seconds changes nothing; any other starts the claims at the schedule's first run |
| ScheduledSequence.NeverEarly | apps/api/src/automation/database/repositories/scheduled-job.repository.ts:65-77 | no run is claimed or dispatched before its due time by the clock of its poll |
| ScheduledPass.EveryDueJobIsDispatched | apps/api/src/automation/scheduled-jobs-runner.service.ts:53-132 | one undisturbed pass dispatches every active job that is due, moves each on to the next run of its schedule, and changes no other row |
| ScheduledPass.PassDispatches | apps/api/src/automation/scheduled-jobs-runner.service.ts:53-132 | a pass dispatches its batch in order, each once, up to the first job whose schedule throws, and leaves all other rows and runs alone |
| ScheduledJobsRunner.Runner.AdvanceNextRunIfDue | apps/api/src/automation/database/repositories/scheduled-job.repository.ts:95-112 | the conditional update moves the due time if and only if the row is active and still due at the time read |
| ScheduledJobsRunner.Runner.ProcessDueScheduledJob | apps/api/src/automation/scheduled-jobs-runner.service.ts:81-132 | the sequential code, guard by guard, does what the specification of one job of a batch says |
| ScheduledJobsRunner.Runner.ProcessDueSchedules | apps/api/src/automation/scheduled-jobs-runner.service.ts:53-79 | the loop over the batch with its two counters; started counts exactly the dispatches |
| ScheduledJobsRunner.Runner.DispatchScheduledJobRun | apps/api/src/automation/scheduled-jobs-runner.service.ts:134-195 | the run row is written as running and then as the engine answered, and ends so |
| ScheduledJobsRunner.ProcessedIsProtocolRun | apps/api/src/automation/scheduled-jobs-runner.service.ts:81-132 | processing one job without interruption is a run of the protocol |
| JsonGraph.IsJsonCompatible | packages/plugin-sdk/src/plugin-runtime-protocol.schema.ts:65-118 | accepts if and only if the value is a tree of JSON values of at most the remaining depth, with no object reached by two paths or seen before; on acceptance the seen set gains exactly the reached objects, on refusal no others |
| JsonGraph.EveryJsonCompatible | packages/plugin-sdk/src/plugin-runtime-protocol.schema.ts:104-106 | the same for a list of items checked from the left with one shared seen set, stopping at the first refusal |
| JsonGraph.TreeExact | packages/plugin-sdk/src/plugin-runtime-protocol.schema.ts:89-117 | an object is a tree if and only if its items form a forest that avoids it, one level lower |
| JsonGraph.AcceptedByShape | packages/plugin-sdk/src/plugin-runtime-protocol.schema.ts:65-118 | constructor by constructor: scalars and finite numbers are accepted, functions and the like never, an array only with own items and a record only if plain, and then if and only if each item or field, read off the object, would be accepted one level lower and no two share an object |
| JsonGraph.LoopsAreRefused | packages/plugin-sdk/src/plugin-runtime-protocol.schema.ts:89-93 | an object one of whose items or fields leads back to it is refused |
| JsonGraph.ForestGrows | packages/plugin-sdk/src/plugin-runtime-protocol.schema.ts:115-117 | checking an item against the objects already reached keeps the earlier items and the new one disjoint |
| JsonGraph.CyclesAreRefused | packages/plugin-sdk/src/plugin-runtime-protocol.schema.ts:89-93 | a value from which an object leads back to itself is refused at every depth limit |
| JsonGraph.SharingIsRefused | packages/plugin-sdk/src/plugin-runtime-protocol.schema.ts:89-93 | an array holding one empty object twice is refused, although each of its parts is a JSON value at an admitted depth |
| JsonGraph.PartsOfTrees | packages/plugin-sdk/src/plugin-runtime-protocol.schema.ts:65-118 | every part of an accepted value would be accepted alone, and the value itself is not accepted again with the same seen set |
| SseParser.ParseSseStream | apps/api/src/acp/acp-http.client.ts:208-242 | for every way of cutting the text into chunks the events are those of the text read at once |
| SseParser.ReadLines | apps/api/src/acp/acp-http.client.ts:224-236 | the inner loop yields the events of the lines before the first sentinel and says whether it was met |
| SseParser.AppendText | apps/api/src/acp/acp-http.client.ts:220-222 | a chunk completes the unfinished line and leaves the lines before it alone |
| SseParser.MoreTextExtends | apps/api/src/acp/acp-http.client.ts:214-238 | more text only extends the output, and text without a newline adds nothing |
| SseParser.RoundTrip | apps/api/src/acp/acp-http.client.ts:224-236 | events printed one per data line are read back, whatever follows the sentinel |
| SseParser.CarriageReturns | apps/api/src/acp/acp-http.client.ts:220-228 | with lines ended by carriage return and newline the sentinel is not recognised: the output is that of plain newlines if and only if no event follows the sentinel |
| ToolNames.Sanitize | packages/harness-engine-pi/src/contribution-tool-adapter.ts:24-34 | always a provider name |
| ToolNames.NameCharacters | packages/harness-engine-pi/src/contribution-tool-adapter.ts:24 | the characters of a provider name are the letters, the digits, underscore and hyphen, one by one |
| ToolNames.SanitizeIdempotent | packages/harness-engine-pi/src/contribution-tool-adapter.ts:26-34 | sanitizing twice is sanitizing once, and a name is left alone if and only if it is a provider name |
| ToolNames.SanitizeKeepsLetters | packages/harness-engine-pi/src/contribution-tool-adapter.ts:29-33 | a changed name keeps its letters, digits and hyphens in order, or becomes `tool` if it has none |
| ToolNames.SanitizeJoins | packages/harness-engine-pi/src/contribution-tool-adapter.ts:29-31 | between two parts that are provider names a run of other characters becomes one underscore |
| ToolNames.SanitizeTrims | packages/harness-engine-pi/src/contribution-tool-adapter.ts:29-31 | a changed name neither starts nor ends with an underscore |
| ToolNames.FirstFree | packages/harness-engine-pi/src/contribution-tool-adapter.ts:47-54 | the suffix search ends within as many tries as names are taken, at the least suffix that is free |
| ToolNames.FreeCandidate | packages/harness-engine-pi/src/contribution-tool-adapter.ts:47-55 | the do-while loop finds that suffix and terminates |
| ToolNames.DedupeToolNameMapping | packages/harness-engine-pi/src/contribution-tool-adapter.ts:36-63 | one pass over the names fills both maps as specified |
| ToolNames.AssignedDistinct | packages/harness-engine-pi/src/contribution-tool-adapter.ts:44-57 | the provider names given out are pairwise distinct, duplicates in the input included |
| ToolNames.AssignedAreProviderNames | packages/harness-engine-pi/src/contribution-tool-adapter.ts:44-57 | each of them matches the provider pattern, suffix included |
| ToolNames.NamesStandFor | packages/harness-engine-pi/src/contribution-tool-adapter.ts:58 | the provider name given to an original name maps back to it |
| ToolNames.SanitizedToOriginalKeys | packages/harness-engine-pi/src/contribution-tool-adapter.ts:58 | the first map has exactly the provider names given out |
| ToolNames.RestoresOriginal | packages/harness-engine-pi/src/contribution-tool-adapter.ts:58-59 | mapping an original name forth and back gives that name |
| ToolNames.LastOccurrenceWins | packages/harness-engine-pi/src/contribution-tool-adapter.ts:59 | an original name maps to the provider name of its last occurrence |
| ToolNames.AdvertisedDistinct | packages/harness-engine-pi/src/contribution-tool-adapter.ts:72-110 | the names advertised for a list of tools are distinct if and only if the tools' own names are |
| ToolNames.DedupeTools | packages/harness-engine-pi/src/contribution-tool-adapter.ts:167-175 | keeps exactly the tools with no earlier tool of the same name, in order |
| ToolNames.DedupedDistinct | packages/harness-engine-pi/src/contribution-tool-adapter.ts:167-175 | no two tools kept share a name |
| ChatRetryDecision.ConfigNormalized | apps/api/src/chat-execution/chat-session-auto-retry.helpers.ts:70-113 | the settings read are within their bounds if and only if the longest delay is a number or its default is not below the first delay |
| ChatRetryDecision.DelaysGrow | apps/api/src/chat-execution/chat-session-auto-retry.helpers.ts:181-190 | the delays start at the first delay, never shrink and stay within the longest |
| ChatRetryDecision.DelayWithinBounds | apps/api/src/chat-execution/chat-session-auto-retry.helpers.ts:138-178 | a retry's delay is the one the provider announced or lies within the configured bounds |
| ChatRetryDecision.RetriedExactly | apps/api/src/chat-execution/chat-session-auto-retry.helpers.ts:131-178 | a failure is retried if and only if the setting is on and it is a rate limit within the configured duration of the first, or an overload with attempts left |
| ChatRetryDecision.DelayExactly | apps/api/src/chat-execution/chat-session-auto-retry.helpers.ts:138-190 | after the delay the provider announced, else the first delay multiplied once for each attempt and capped by the longest |
| ChatRetryDecision.DelayMultiplies | apps/api/src/chat-execution/chat-session-auto-retry.helpers.ts:181-190 | each delay is the one before times the multiplier, or the longest if that is more |
| ChatRetryDecision.ConfigReadsBack | apps/api/src/chat-execution/chat-session-auto-retry.helpers.ts:70-113 | normalized settings of whole milliseconds, stored and read, are unchanged |
| ChatRetryDecision.DefaultConfig | apps/api/src/chat-execution/chat-session-auto-retry.helpers.ts:26-33 | without settings: 5 attempts, a day, a minute, an hour, and a factor of 2 |
| ChatRetryDecision.WholeNumbersAreKept | apps/api/src/chat-execution/chat-session-auto-retry.helpers.ts:214-241 | where a whole number is asked for, a number loses its fraction and is raised to the least value allowed |
| ChatRetryDecision.NumbersAreKept | apps/api/src/chat-execution/chat-session-auto-retry.helpers.ts:214-241 | elsewhere it is kept, or raised to the least value allowed |
| ChatRetryIds.AttemptReads | apps/api/src/chat-execution/chat-session.consumer.ts:195-198 | the attempt read from a retry job's id is the one written into it |
| ChatRetryIds.IdsNameJobs | apps/api/src/chat-execution/chat-execution.service.ts:310-320 | within a session an id names one generation and one attempt |
| ChatRetryIds.ManualIdsAreNot | apps/api/src/chat/chat-sessions/chat-sessions.service.ts:463-465 | the id of a manual retry is not taken for a retry job's id |
| ChatRetryQueue.OneLiveRetry | apps/api/src/chat-execution/chat-session.consumer.ts:106-156 | in every reachable state a session has at most one job that would pass the retry check, and has one if and only if its row says a retry is scheduled and the queue has the job it names waiting |
| ChatRetryQueue.RecordingIsLive | apps/api/src/chat-execution/chat-execution.service.ts:246-300 | in every reachable state a retry that is recorded has a job that will be executed if and only if the queue does not hold its id as finished |
| ChatRetryQueue.NextKeepsBacked | apps/api/src/chat-execution/chat-execution.service.ts:246-300 | a step keeps a waiting job behind every scheduled retry if and only if it records no retry whose id is held as finished, ends or removes no job a row waits for, and puts back no row whose job is gone |
| ChatRetryQueue.BackedThroughout | apps/api/src/chat-execution/chat-execution.service.ts:246-300 | so over whole runs, if and only if every step was such a step |
| ChatRetryQueue.SafeRunsAgree | apps/api/src/chat-execution/chat-session.consumer.ts:106-156 | after such runs a session has a job that would pass the retry check exactly when its row says a retry is scheduled |
| ChatRetryQueue.WaitsInVain | apps/api/src/chat-execution/chat-session.consumer.ts:106-156 | in every reachable state a session that waits for a retry is retried in some continuation that leaves it to the queue if and only if the queue has the job waiting |
| ChatRetryQueue.SkippedRetryBlocksId | apps/api/src/chat-execution/chat-execution.service.ts:246-300 | after a crash between queueing and recording the queued job is skipped and retained, and the retry recorded next under its id waits for ever; no manual retry is needed |
| ChatRetryFreshness.RecordedIdIsFresh | apps/api/src/chat-execution/chat-execution.service.ts:246-320 | over every run in which manual retries are tidy and at different times, no stale first or manual job is processed and no retry is left queued unrecorded, each retry that is recorded has an id the queue does not hold, so it will be executed |
| ChatRetryFreshness.OrderlyRunsAreSafe | apps/api/src/chat-execution/chat-execution.service.ts:246-320 | so such runs keep a waiting job behind every scheduled retry, unless the queue gives a job up or a manual retry removes one or puts a row back |
| ChatRetryProtocol.ReachableIsConsistent | apps/api/src/chat-execution/chat-execution.service.ts:246-320 | every step keeps ids named by session, generation and attempt, and a scheduled retry on a running row that names it, crashes, failed writes and overlapping manual retries included |
| ChatRetryHistory.ExecutedWasRecorded | apps/api/src/chat-execution/chat-session.consumer.ts:106-156 | over every run each retry executed had been recorded on its session as scheduled before |
| ChatRetryHistory.AttemptsIncrease | apps/api/src/chat-execution/chat-execution.service.ts:211-300 | until the metadata is forgotten or put back the executed attempts of a session strictly increase, so none is executed twice however often it is delivered |
| ChatRetryHistory.History | apps/api/src/chat-execution/chat-execution.service.ts:211-300 | the number of retries scheduled is the growth of the recorded attempt; rate limits are retried only within the configured duration after one first failure |
| ChatRetryHistory.OverloadsAreCapped | apps/api/src/chat-execution/chat-session-auto-retry.helpers.ts:160-169 | without rate limits a session is scheduled at most the configured number of attempts |
| ChatRetryHistory.RateLimitsAreUncapped | apps/api/src/chat-execution/chat-session-auto-retry.helpers.ts:138-158 | rate limits alone are retried any number of times |
| ChatRetryHistory.OffSchedulesNothing | apps/api/src/chat-execution/chat-session-auto-retry.helpers.ts:131-137 | with the setting off no run schedules a retry |
| ChatRetryGenerations.RetryIdsExecutedOnce | apps/api/src/chat-execution/chat-execution.service.ts:310-320 | over every run in which manual retries are at different times, do not write over each other and put back only a row read just before, a session's retry id is executed at most once unless a first or manual job of a generation its row does not count is processed |
| ChatRetryGenerations.StaleFailureRepeats | apps/api/src/chat-execution/chat-execution.service.ts:211-300 | in every reachable state, when a first or manual job fails and is retried, the next attempt is executed unless the queue holds its id as finished, under an id executed before if and only if that attempt of its generation was, whatever generation the row counts |
| ChatRetryGenerations.RetryExecutedTwice | apps/api/src/chat/chat-sessions/chat-sessions.service.ts:394-461 | a manual retry and one more delivery of a first job make a retry id that was executed before be executed again, the queue still having its failed job waiting for another attempt |
| ChatRetryGenerations.RollbackRepeats | apps/api/src/chat/chat-sessions/chat-sessions.service.ts:417-457 | a manual retry that puts back a row it read before the retry was executed makes that retry be executed again |
| ChatDeliveries.CrashBeforeRunIsNothing | apps/api/src/chat-execution/chat-execution.service.ts:69-157 | a worker that crashes before it touched the row has changed nothing, so the next delivery finds everything as this one did |
| ChatDeliveries.DeliveryIsLocal | apps/api/src/chat-execution/chat-execution.service.ts:69-308 | a delivery touches no session but that of its job, and in the queue nothing but the job and the session's next retry |
| ChatDeliveries.DeliveryEnds | apps/api/src/chat-execution/chat-session.consumer.ts:25-46 | a job is delivered until the queue ends it: one that is skipped or has run does end, one whose worker crashed while executing it does not |
| ChatDeliveries.CrashAfterQueueing | apps/api/src/chat-execution/chat-execution.service.ts:246-300 | a crash between queueing and recording leaves the row as it was, or as running, and the next retry in the queue |
| ChatDeliveries.FailureOutcome | apps/api/src/chat-execution/chat-execution.service.ts:211-308 | a session whose job fails waits for its next attempt, named by session, generation and attempt, if one is due and could be queued and recorded, and has failed otherwise |
| ChatDeliveries.ManualRetryAllowed | apps/api/src/chat/chat-sessions/chat-sessions.service.ts:394-416 | a manual retry is begun for a session that has failed or waits for a retry and for no other |
| ChatDeliveries.SessionMoves | apps/api/src/chat-execution/chat-session-terminal.router.ts:90-133 | what the rest of the system writes to a session: only the completion of a subagent forgets the retry metadata, and only the guarded failure spares a session that has ended |
| ChatExecution.ChatWorker.Process | apps/api/src/chat-execution/chat-session.consumer.ts:25-46 | one delivery by the queue, through the code of the worker to the end of the job, is the protocol's step, crashes included |
| ChatExecution.ChatWorker.HandleJob | apps/api/src/chat-execution/chat-session.consumer.ts:25-46 | the handler skips, or executes the session; it throws only after failing the row or for a session that is gone |
| ChatExecution.ChatWorker.ExecuteChatSession | apps/api/src/chat-execution/chat-execution.service.ts:69-157 | dispatches, or on a failure schedules the retry, or fails the row and throws |
| ChatExecution.ChatWorker.TryScheduleRetry | apps/api/src/chat-execution/chat-execution.service.ts:211-308 | queues and records the next attempt, or leaves the row; the job of a failed record is withdrawn if the queue lets it |
| ChatExecution.ChatWorker.ShouldSkipRetryJob | apps/api/src/chat-execution/chat-session.consumer.ts:106-156 | the chain of tests skips exactly the retry jobs the row does not record as scheduled |
| ChatManualRetry.ChatSessionsService.RetrySession | apps/api/src/chat/chat-sessions/chat-sessions.service.ts:394-461 | uninterrupted, a failed or waiting session starts anew with a job of its own and without the old one; a failed add leaves everything as it was; refusals exactly as in the source |
| ChatManualRetry.RetriedInSteps | apps/api/src/chat/chat-sessions/chat-sessions.service.ts:394-461 | that is the read, the write, the add and the removal of the protocol in a row |
| OverrideLayers.ReplaceHides | apps/api/src/config-resolution/override-merge.ts:5-14 | what lies rootward of a replacing layer matters only by being complete or not |
| OverrideLayers.FailsOnIncomplete | apps/api/src/config-resolution/override-merge.ts:6-12 | applying layers throws if and only if some layer lacks the definition or the patch its strategy needs |
| OverrideLayers.MostSpecificWins | apps/api/src/config-resolution/override-merge.ts:5-14 | each key has the value of the most specific layer that replaces everything or names the key |
| OverrideLayers.RootToLeaf | apps/api/src/config-resolution/scoped-config-resolver.service.ts:77-81 | the layers are applied from the root to the leaf |
| OverrideLayers.OrderedElements | apps/api/src/config-resolution/scoped-config-resolver.service.ts:77-81 | exactly the candidates of a listed scope apply |
| OverrideLayers.OrderMattersWithinScope | apps/api/src/config-resolution/scoped-config-resolver.service.ts:79-81 | with two rows of one scope the order they are loaded in decides |
| ConfigResolution.ResolutionMeaning | apps/api/src/config-resolution/scoped-config-resolver.service.ts:68-118 | a resolution succeeds if and only if some layer applies and all that apply are complete; its value is key by key the most specific one |
| ConfigResolution.ResolutionIgnoresOrder | apps/api/src/config-resolution/scoped-config-resolver.service.ts:75-98 | with one row per scope the result is the same for every order of the candidates |
| ConfigResolution.ScopedConfigResolver.ReduceLayers | apps/api/src/config-resolution/scoped-config-resolver.service.ts:68-118 | the filter, the sort and the loop give the reduction, or one of the two exceptions |
| ConfigResolution.ScopedConfigResolver.Resolve | apps/api/src/config-resolution/scoped-config-resolver.service.ts:29-66 | returns the cached value or resolves and caches; only successes are cached |
| ConfigAnswers.ResolvingAnswers | apps/api/src/config-resolution/scoped-config-resolver.service.ts:29-118 | on an empty cache a resolution succeeds if and only if some row of the object is global or of a scope of the ancestry and all such rows are complete; the contributing layers are exactly those rows, global first and then in the order of the ancestry; each key has the setting of the last of them that settles it |
| ConfigAnswers.EveryRunAnswers | apps/api/src/config-resolution/scoped-config-resolver.service.ts:29-118 | the same through the cache after every run in which writes are followed by an invalidation |
| ConfigResolution.ConfigResolutionCache.Get | apps/api/src/config-resolution/config-resolution-cache.service.ts:24-37 | the value of the key if it has not expired; an expired entry is removed |
| ConfigResolution.ConfigResolutionCache.Set | apps/api/src/config-resolution/config-resolution-cache.service.ts:39-49 | the entry replaces any other and expires a minute later |
| ConfigResolution.ConfigResolutionCache.Invalidate | apps/api/src/config-resolution/config-resolution-cache.service.ts:51-56 | the loop removes exactly the keys that start with the prefix |
| ConfigResolution.KeyInjective | apps/api/src/config-resolution/config-resolution-cache.service.ts:16-22 | a key names one object type, object and scope, whatever colons the name holds, as long as scope ids have none |
| ConfigResolution.PrefixCovers | apps/api/src/config-resolution/config-resolution-cache.service.ts:51-55 | an invalidation covers the keys of the object at every scope, and of other objects exactly those of its type whose name followed by two colons starts with the object's name followed by two colons |
| ConfigResolution.KeysCollide | apps/api/src/config-resolution/config-resolution-cache.service.ts:16-22 | with colons in scope ids every object shares a key with each object of its type whose name continues its own |
| ConfigResolution.CachedIsUncached | apps/api/src/config-resolution/scoped-config-resolver.service.ts:29-66 | over every run in which writes are followed by an invalidation, resolving through the cache is resolving without it |
| ConfigResolution.StaleForUnderAMinute | apps/api/src/config-resolution/config-resolution-cache.service.ts:32-35 | without invalidation what is returned was right at some moment less than 60000 ms ago |
| ConfigAnswers.KeptForAMinute | apps/api/src/config-resolution/config-resolution-cache.service.ts:24-49 | a value that was resolved is returned for 60000 ms unless its object is invalidated, and after that is resolved anew |
| ConfigAnswers.OwnEntryOnly | apps/api/src/config-resolution/config-resolution-cache.service.ts:24-49 | resolving touches no entry but that of its own key, and a failure leaves none |
| GlobPattern.EscapedIsTranslated | apps/api/src/capability-governance/tool-approval-rule.service.ts:15-20 | the four whole-string replacements are one character-by-character translation |
| GlobPattern.CompiledGlob | apps/api/src/capability-governance/tool-approval-rule.service.ts:15-22 | for a pattern without other metacharacters the anchored expression accepts the glob language with wildcards that cross no line terminator |
| GlobPattern.CompiledGlobOnOneLine | apps/api/src/capability-governance/tool-approval-rule.service.ts:40-41 | on a subject without line terminators that is the plain glob language, on any subject a part of it |
| GlobPattern.MeaningIsKept | apps/api/src/capability-governance/tool-approval-rule.service.ts:15-22 | of all patterns that compile to an expression that is modelled, or fail to compile, exactly those without other metacharacters keep the glob's meaning: one with a plus, an anchor, a parenthesis or a bar never does |
| GlobPattern.PlusRefusesItself | apps/api/src/capability-governance/tool-approval-rule.service.ts:15-22 | the pattern `a+` accepts `a` and refuses its own text |
| GlobPattern.StarRefusesNewline | apps/api/src/capability-governance/tool-approval-rule.service.ts:15-22 | the pattern `*` refuses a newline |
| ApprovalRules.GlobRule | apps/api/src/capability-governance/tool-approval-rule.service.ts:24-41 | a glob pattern of a rule without other metacharacters accepts exactly the scalars in its language |
| ApprovalRules.GlobRuleIsExact | apps/api/src/capability-governance/tool-approval-rule.service.ts:24-41 | of the glob patterns that compile exactly those do so on every payload |
| ApprovalRules.FindBestMatchingRule | apps/api/src/capability-governance/tool-approval-rule.service.ts:274-315 | filter, sort and search give the preflight or the execution decision |
| ApprovalRules.Selection | apps/api/src/capability-governance/tool-approval-rule.service.ts:280-314 | the rule found matches, is in scope and is beaten by no other such rule on scope priority, then priority; among equals the first loaded; none only if none matches |
| ApprovalRules.ExecutionDecides | apps/api/src/capability-governance/tool-approval-rule.service.ts:24-89 | said of the call alone: the rule applied governs the run, the session, the project, an ancestor of it, the agent, or every call; each of its patterns finds an argument that equals its value, contains it or is accepted by its expression; it outranks every such rule loaded before it and none outranks it; no rule is applied only if there is none such |
| ApprovalRules.PreflightDecides | apps/api/src/capability-governance/tool-approval-rule.service.ts:289-303 | before execution the best governing rule without patterns answers, except that a denial is held back while a governing rule has patterns |
| ApprovalRules.SortingFindsBest | apps/api/src/capability-governance/tool-approval-rule.service.ts:283-287 | sorting and taking the first match is choosing the best in one pass |
| ApprovalRules.NarrowerScopeBeats | apps/api/src/capability-governance/tool-approval-rule.service.ts:72-89 | a rule of a narrower scope beats every rule of a wider one, whatever their priorities |
| ApprovalRules.PreflightDenies | apps/api/src/capability-governance/tool-approval-rule.service.ts:289-303 | preflight denies if and only if no rule in scope has patterns and the best rule denies |
| ApprovalRules.PreflightIsExecution | apps/api/src/capability-governance/tool-approval-rule.service.ts:289-314 | when preflight denies, execution finds the same rule for every payload |
| ApprovalRules.LazyAncestors | apps/api/src/capability-governance/tool-approval-rule.service.ts:265-272 | skipping the ancestor lookup when no rule needs it changes no decision |
| ApprovalRules.LookupWhenNeeded | apps/api/src/capability-governance/tool-approval-rule.service.ts:265-272 | the ancestors are looked up if and only if a rule is about a scope node and the call names a scope; without a scope there are none |
| ApprovalWaiters.WaitersSettle | apps/api/src/capability-governance/tool-call-approval-request.service.ts:140-198 | in every reachable state a promise has settled with a verdict only if it was given while the request was pending, as expired only if a timeout fired, and once its deadline has passed it has settled and both timers are off |
| ApprovalWaiters.SettlesOnce | apps/api/src/capability-governance/tool-call-approval-request.service.ts:140-198 | a settled promise keeps its value through every further run |
| ApprovalWaiters.VerdictReachesLastWaiter | apps/api/src/capability-governance/tool-call-approval-request.service.ts:168-177 | in every reachable state resolving a verdict settles the last waiter of the request with it, unless it had settled |
| ApprovalWaiters.PollReachesItsWaiter | apps/api/src/capability-governance/tool-call-approval-request.service.ts:179-198 | in every reachable state a poll that found a verdict settles its own waiter, replaced or not, and clears its timers |
| ApprovalTimers.WaitsAsLongAsAsked | apps/api/src/capability-governance/tool-call-approval-request.service.ts:140-166 | a promise expires by its own timer no sooner than the time asked for, and after that time it has settled and both timers are off |
| ApprovalTimers.PollTellsOpenPromise | apps/api/src/capability-governance/tool-call-approval-request.service.ts:143-198 | an open promise polls, and a poll settles it with what its row says, clears its timers and forgets the request if and only if the row is no longer pending; without timers nothing is polled |
| ApprovalTimers.ExpiryWriteDecides | apps/api/src/capability-governance/tool-call-approval-request.service.ts:151-165 | when its time is over an open promise expires; if the write of that fails the request stays pending and can be approved after all, if it lands it cannot |
| ApprovalTimers.VerdictFindsNobody | apps/api/src/capability-governance/tool-call-approval-request.service.ts:151-198 | once a timer or a poll has ended a promise of a request, a verdict settles no promise of it until someone waits on it again |
| ApprovalTimers.ReplacedTimerHidesVerdict | apps/api/src/capability-governance/tool-call-approval-request.service.ts:151-177 | the timer of a replaced promise takes its successor's place away: the verdict that would have settled the successor leaves it waiting |
| ApprovalOutcomes.CanExpire | apps/api/src/capability-governance/tool-call-approval-request.service.ts:151-177 | in every reachable state a request, pending or decided, can still end expired, without a new wait on it, if and only if a waiter of it has its timeout set or an expiry of it is still to be written |
| ApprovalOutcomes.CanTurn | apps/api/src/capability-governance/tool-call-approval-request.service.ts:94-138 | once it is no longer pending it can come to another verdict if and only if an unsaved decision carries that verdict |
| ApprovalOutcomes.AfterSave | apps/api/src/capability-governance/tool-call-approval-request.service.ts:104-115 | both, right after a verdict is saved |
| ApprovalOutcomes.PromiseIsSure | apps/api/src/capability-governance/tool-call-approval-request.service.ts:94-177 | a promise that settled with the row's verdict is contradicted in no continuation if and only if neither is ahead |
| ApprovalWaiters.PromiseAgreesWithRow | apps/api/src/capability-governance/tool-call-approval-request.service.ts:94-138 | promise and row agree when no timeout fired and one verdict only was given while the request was pending |
| ApprovalWaiters.ApprovedThenExpired | apps/api/src/capability-governance/tool-call-approval-request.service.ts:168-177 | resolving leaves the timers set, so an approved request can be marked expired |
| ApprovalWaiters.ApprovedThenRejected | apps/api/src/capability-governance/tool-call-approval-request.service.ts:94-138 | an approval and a rejection that both read pending leave a promise approved and its row rejected |
| ApprovalRequests.ToolCallApprovalRequestService.ResolveWait | apps/api/src/capability-governance/tool-call-approval-request.service.ts:168-177 | resolves and forgets the last waiter of the request |
| ApprovalRequests.ToolCallApprovalRequestService.WaitForResolution | apps/api/src/capability-governance/tool-call-approval-request.service.ts:140-150 | registers the waiter, replacing another one of the same request, and sets both timers |
| ApprovalRequests.ToolCallApprovalRequestService.OnTimeout | apps/api/src/capability-governance/tool-call-approval-request.service.ts:151-165 | clears the interval, forgets the request, starts the write and settles as expired |
| ApprovalRequests.ToolCallApprovalRequestService.DecideRequest | apps/api/src/capability-governance/tool-call-approval-request.service.ts:94-138 | uninterrupted, a pending request gets the verdict and its last waiter is resolved with it, any other is left alone; this is what the steps of the protocol do in a row |
| ApprovalRequests.ToolCallApprovalRequestService.PollResolution | apps/api/src/capability-governance/tool-call-approval-request.service.ts:179-198 | uninterrupted, a poll settles its waiter, clears its timers and forgets the request if and only if the request is no longer pending, and changes nothing else |
| PiSession.PiHarnessSession.OnRawEvent | packages/harness-engine-pi/src/pi-harness-session.ts:94-157 | the handler, branch by branch, is the specified transition and output |
| PiSession.TextIsConserved | packages/harness-engine-pi/src/pi-harness-session.ts:99-155 | until a suspension each end of a turn carries exactly the text of its turn and the text not yet given is kept for the next |
| PiSession.AllPassedOn | packages/harness-engine-pi/src/pi-harness-session.ts:108-156 | until a suspension every event is passed on in order, changed only in the response of turn ends |
| PiSession.OthersKeepOrder | packages/harness-engine-pi/src/pi-harness-session.ts:108-156 | suspended or not, events other than ends of turns and of the agent are passed on unchanged and in order |
| PiSession.OnlySuspendedEnd | packages/harness-engine-pi/src/pi-harness-session.ts:125-142 | once suspended no end of a turn is given and one suspended end at most, if and only if the agent ends |
| PiSession.SuspendedSession | packages/harness-engine-pi/src/pi-harness-session.ts:94-185 | both laws over a whole session, suspended at any point |
| CostGovernance.SumOfCeilings | apps/api/src/cost-governance/cost-estimator.service.ts:60-75 | charging n turns in whole cents costs at least as much as charging them together and at most n - 1 cents more |
| CostGovernance.MillionsAtRates | apps/api/src/cost-governance/cost-estimator.service.ts:60-75 | whole millions of tokens cost their number times their rate |
| CostGovernance.EvaluateAction | apps/api/src/cost-governance/budget-decision.service.ts:72-92 | the fold gives the worst decision of the policies and the first policy that gives it |
| CostGovernance.WorstIsMonotone | apps/api/src/cost-governance/budget-decision.service.ts:76-92 | the decision does not depend on the order of the policies, is never milder with one more, nor with more spend |
| CostGovernance.PolicyOutcomes | apps/api/src/cost-governance/budget-decision.service.ts:156-206 | a policy denies if and only if its hard limit is passed before its token limit, or a limit it enforces by blocking is; it asks for approval or warns if and only if it is set to and such a limit is passed |
| CostGovernance.Severity | apps/api/src/cost-governance/budget-decision.service.ts:15-23 | the decisions are ordered: allow, warn, approval, deny |
| CostGovernance.TokenLimitHidesHardLimit | apps/api/src/cost-governance/budget-decision.service.ts:156-191 | more tokens never make a policy milder if and only if its token limit cannot hide a hard limit, because the token check returns first |

## Left out

- Zod, RegExp, `Date`, `Intl`, `TextDecoder` and JSON text internals: stated as small semantics or parameters.
- Strings are sequences of characters; UTF-16 surrogate pairs are not modelled.
- Desired state: the uuid pattern of `id` fields, the constants `apiVersion` and `kind`, error messages, and `bodyRef` sidecar files beyond being ignored; that a document satisfies a schema is its kind matching plus its name and path fields.
- GitopsRepository.RepositoryRoundTrip: the directory is a map from paths to contents, without case folding or a path prefix, and its walk is an arbitrary order.
- JSON Schema: an empty array as enum member, for which Zod throws while compiling, is a literal that accepts nothing.
- JSON Schema: keywords other than the modelled ones are an arbitrary reading in `JsonSchemaPromise.NeverOverconstrains`; property names inherited from `Object.prototype` are ordinary names.
- Schedules: the parsing of interval and date strings and of cron expressions; a cron schedule is a function that answers a later time. Deleting a job is not a step.
- Scheduled dispatch: which due jobs a poll finds is arbitrary, so the limit of a batch and the order of `findDueJobs` are not modelled.
- Recogniser of JSON values: getters, proxies and symbol keys; the byte limit applied after it.
- Event stream: several data lines for one event, and the other fields of the format, which the source ignores too.
- Tool names: rewriting of prompts and the wrapping of tool calls.
- ChatRetryIds.AttemptReads: reads decimal digits only; `Number` also accepts other spellings, which no retry id has.
- Chat retries: the number of retries in flight is a parameter; the number of attempts the queue gives a job that throws, delays, the payload of jobs, containers, events and the budget check before a run are not modelled.
- Configuration: an ancestry that changes, a resolution that overlaps an invalidation, and the registration of sources.
- GlobPattern.MeaningIsKept: patterns whose expression holds a character class or a brace are not modelled.
- Approval rules: creation, update and validation of rules, and the query for active rules.
- ApprovalWaiters.PromiseAgreesWithRow: a sufficient condition over a whole history; the exact condition, in terms of the present state, is ApprovalOutcomes.PromiseIsSure.
- Approval requests: the hash that identifies equal requests.
- Pi session: the mapping of raw events beyond their kind, several subscribers, and disposal.
- Cost: resolution of models, estimates from a total only, windows of spend, and the remaining budget, which drives no decision; floating-point rounding.
- Controllers, repositories, containers, websockets, the web interface, secrets and authentication.
