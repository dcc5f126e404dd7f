# DynAgent runtime: a verified model

DynAgent lets a language model choose, one hop at a time, which registered node runs next, while the
runtime keeps the authority: it admits or refuses the hop, executes the node in a sandbox, merges only
the returned patch into the task state, and persists task, snapshot and step so that the run can be
replayed and resumed. This project models that runtime in Dafny and proves what holds of every run,
every chain of resumes and every interleaving.

How the modules fit together:

- `Basics`, `Text`: optional and error values, JSON trees, and the parts of Go's `strings` package in use.
- `StateModel`, `StateBus`: the task state as a value with its patch algebra, and the same state on the
  heap, where containers are objects, `Clone` copies them and a struct copy shares them.
- `Expressions`, `Rules`: the rule-expression rewriter, the path walk, and nested rule sets with their
  cache of compiled expressions. The expression library is a record of uninterpreted functions.
- `Patterns`, `Memory`: the compacted index of past runs and the node ranking computed from it.
- `Contract`, `Gateway`, `MockProvider`, `Config`: the decision contract, call validation, retry and
  fallback, the rule-based mock provider, and the settings that establish what the others rely on.
- `Ledger`, `EngineSpec`: what is stored about a task, and the scheduler as functions on values. The
  model, the registry, the nodes, the deadline and every store, clone or conversion failure are
  arbitrary functions in an `Env`.
- `Lineage`, `Recovery`, `Admission`, `Bounds`, `Learning`: theorems about `EngineSpec` over all environments.
- `Store`, `Engine`, `Resume`: the memory store, the scheduler loop and resume on the heap, proved to do
  exactly what `EngineSpec` says, with the sharing and separation of containers made explicit.
- `KeyedSnapshots`: snapshots in a table keyed by task and version, as in PostgreSQL.
- `Registry`, `Composition`: the node registry, and the scheduler with the gateway behind it, whose log is
  evidence of what the model was offered and chose.
- `Workflows`, `WeatherNodes`, `Liveness`, `BuiltinNodes`, `BuiltinLiveness`, `Summary`: the concrete
  nodes, and proofs that runs with the mock provider reach their end.
- `Sandbox`: the semaphore, goroutine, two-channel and deadline protocol as a state machine.

The scheduler, the memory store, the state, the rule evaluator, the registry and the configuration
update objects in place in the source and are classes here; each method is tied to a function on values,
and the properties are proved about those functions. Every quantity of time is in nanoseconds.

Where the documentation promises more than the code does, the model follows the code:

- `docs/architecture.en.md:54` says the sandbox applies concurrency limits. The limit holds for calls
  inside `Execute`, not for nodes: a node that outlives its deadline keeps running after its permit is
  returned (`Sandbox.PermitsDoNotBoundNodes`). Call a node late when it still runs after its call's context
  has ended. If only the calls in a set may have late nodes, `maxParallel` plus the size of that set bounds
  the nodes at work, and the bound is attained (`Sandbox.ExecutingBound`, `Sandbox.ExecutingBoundAttained`);
  `maxParallel` alone bounds them if and only if the set is empty (`Sandbox.LimitHoldsIffNoneLate`).
- With `MaxAttempts` at zero or below the gateway answers nothing without an error
  (`Gateway.DecideIsSound`, `Composition.NoAttemptsNoRun`); validated settings exclude it.
- The stored task shares its maps with the live state, so writes show in it without a store call
  (`Resume.WriteAfterUpdate`); stored snapshots share nothing and never change. After a merge whose clone,
  task update or snapshot write fails, the stored task therefore holds the contents of a patch that no
  snapshot has, and in no other case (`Recovery.ContentsAhead`, `Resume.RunAndInspect`). In `Ledger` a
  stored task is its header (version, status and log) with its steps, snapshots and summary.
- The conclusion in a summary may depend on map iteration order (`Summary.ConclusionIsUnique` says when).

## Model

| member | source | states |
|---|---|---|
| Lineage.EventSourcing | internal/engine/engine.go:192-201 | Over a first run from a new task and any number of resumes, whatever fails: stored snapshots are versions 2, 3, ..., n+1 and each one's working memory, outputs and sensitive map are the fold of all stored patches up to it |
| Lineage.LineageReplays | internal/engine/engine.go:141-214 | When steps are not lost, steps and snapshots pair one to one; logging the step's hop on its input and applying the patch rebuilds the stored state; decision logs form a strict prefix chain across resumes |
| Admission.RunEarns | internal/engine/engine.go:161-201 | Whatever the model decides and whatever fails: every snapshot a run stores is the returned patch of an admitted, successful execution, merged into the very state the hop was decided on, and every step it stores carries the output of such an execution and that state |
| Admission.AdmissionDecides | internal/engine/engine.go:161-192 | A counted hop to a registered node is executed if and only if its rules hold and its own check allows; otherwise only the reason is remembered, and nothing is stored |
| Admission.RefusalMeans | internal/engine/engine.go:166-178 | Refusal happens exactly when the hop is not admitted, and the reason belongs to a rejecting rule leaf, the failed conversion or the node |
| Admission.RequestTells | internal/engine/engine.go:79-98 | A routing request tells of the live state, the candidates of its step, the recommendation its keywords call for, and the last rejection exactly when there is one |
| Admission.RefusalIsHeard | internal/engine/engine.go:166-178 | After a refusal the next request carries the very reason of the refusal, and nothing but log and extensions has changed |
| Lineage.IterateShape | internal/engine/engine.go:78-218 | Every iteration either leaves the stored history alone and touches only status, extensions and the end of the log, or persists the result of the hop it logged |
| Lineage.PersistShape | internal/engine/engine.go:192-214 | Persisting stores nothing, a snapshot only (then the step write failed), or one snapshot with its step; never a step alone |
| Lineage.RunKeeps | internal/engine/engine.go:59-251 | A run that starts where the stored history ends keeps it replayable, however the run ends |
| Lineage.ResumeKeeps | api/http/router.go:116-123 | Resuming from the latest snapshot continues the stored history |
| Lineage.RunExtends | internal/persistence/store.go:90-114 | A run only ever appends to the stored snapshots and steps |
| Recovery.ChainRecovers | internal/engine/engine.go:196-211 | Crash consistency over any chain of runs stopped at any error: the stored header (version, status, log) is never behind the last snapshot and at most one version ahead, and a strictly increasing map sends every step to the snapshot whose last decision names its node and index, which the step replays when its input was kept |
| Recovery.RecordByCases | internal/engine/engine.go:196-214 | Task, snapshot, step and trajectory are written in this order: for each failing write, exactly the earlier ones are in place and none of the later ones |
| Recovery.CloseByCases | internal/engine/engine.go:228-250 | After the loop pattern, summary and final task are written in this order: for each failing call exactly the earlier ones are in place, and only a failing pattern update is passed over |
| Recovery.ContentsAhead | internal/engine/engine.go:192-208 | However a run ends, its live contents are the fold of the stored snapshots' patches and one pending patch, pending exactly when the last iteration merged it and its clone, task update or snapshot write failed; they equal the fold alone if and only if there is no such patch or it changes nothing |
| Recovery.RecordRecovers | internal/engine/engine.go:196-211 | From a level task, the four writes leave a recoverable one whichever of them fails |
| Bounds.OutcomeIsConsistent | internal/engine/engine.go:219-250 | A finished run reports one of ai_terminate/Completed, loop_detected/Failed, max_steps/Failed, task_timeout/TimedOut (TimedOut also stays when the start was timed out and nothing executed), and task_timeout exactly past the deadline; decisions are numbered 1..k, termination is last, loop_detected means one node was chosen M+1 times, max_steps means k is the budget; the stored status and summary are the reported ones, and the summary holds the nodes of the stored steps in order, the final log, outputs and keywords, and the plan exactly when there is one |
| Bounds.RunIsBounded | internal/engine/engine.go:75-159 | With N registered ids, visit limit M and P plans: at most P + N*M + 1 decisions, at most M stored steps of each node, and max_steps only when the budget is at most P + N*M |
| Bounds.HopsAreLimited | internal/engine/engine.go:155-192 | However a run ends, every node is chosen at most M times, and M + 1 times only by the hop that trips the loop detector, which ends the run as loop_detected unless deadline or store overrules it; every node is executed at most M times, failing executions included |
| Bounds.ExecutesOnlyThere | internal/engine/engine.go:155-184 | An iteration depends on node execution only at the node, step and state where a counted, registered and admitted hop leads to it |
| Bounds.Pigeonhole | internal/engine/engine.go:155-159 | Hops over a finite set of ids, each at most m times, number at most ids times m |
| Bounds.IterateLogs | internal/engine/engine.go:105-218 | An iteration aborts without logging, or logs exactly one decision of its step: a plan, a halting hop, or a counted hop refused, failed, or executed and recorded once |
| Bounds.IterateEndsExactly | internal/engine/engine.go:78-218 | When an iteration ends the loop and how: one condition on model, registry, nodes and failures for each reason and each error, both ways; an unanswered decision marks the live task failed |
| Bounds.RunErrsExactly | internal/engine/engine.go:59-251 | A run ends in an error exactly when it cannot be opened, its last iteration aborts, or closing it fails, and in that error; a run that cannot be opened changes nothing |
| EngineSpec.Loop | internal/engine/engine.go:78-221 | The loop always ends with a reason or an error |
| Engine.Engine.RunTask | internal/engine/engine.go:59-251 | On the heap: state and stored book end as the specification says, only fresh containers, the live state's own and the store are written, no stored snapshot is touched, all other tasks' records stay as they were, an opened task keeps sharing the live containers, and a normal return stores the final struct |
| Engine.Engine.RunLoop | internal/engine/engine.go:75-221 | The loop over steps with its visit counters is the specified loop |
| Engine.Engine.Iterate | internal/engine/engine.go:79-218 | One iteration: hints, read-only view, decision, branch |
| Engine.Engine.Take | internal/engine/engine.go:105-140 | The plan branch logs and goes on, the route branch is taken, other types abort |
| Engine.Engine.TakePlan | internal/engine/engine.go:106-131 | A plan is remembered and logged; the store is untouched |
| Engine.Engine.TakeRoute | internal/engine/engine.go:137-164 | Log first, then terminate, count, detect the loop, or visit |
| Engine.Engine.Visit | internal/engine/engine.go:161-214 | Lookup, admission, execution; a refusal only sets the rejection reason |
| Engine.Engine.Admit | internal/engine/engine.go:166-178 | Manifest rules first, then the node's own check, through the cached evaluator |
| Engine.Engine.Persist | internal/engine/engine.go:192-214 | Merge the patch, then record |
| Engine.Engine.Record | internal/engine/engine.go:196-214 | Task, snapshot, step and trajectory in order, stopping at the first store failure |
| Engine.Engine.RunNode | internal/engine/engine.go:180-192 | A failed node aborts with nothing changed; a successful one has its patch persisted |
| Engine.Engine.Refuse | internal/engine/engine.go:166-178 | A refusal writes the rejection reason into the live extensions and leaves the store alone |
| Engine.Engine.OpenTask | internal/engine/engine.go:64-73 | The task is created when it cannot be read and updated otherwise |
| Engine.Engine.CloseTask | internal/engine/engine.go:219-250 | Final reason and status, pattern memory, summary and the last task update |
| Engine.Engine.Report | internal/engine/engine.go:236-250 | Without a readable task nothing is written; otherwise pattern, summary and final task in this order, stopping at the first store failure |
| Engine.Engine.MakeRequest | internal/engine/engine.go:79-98 | The routing context carries a deep copy of the state and the canonical hints |
| Engine.BuildSummary | internal/summary/summary.go:16-37 | The payload tells of the state and of the stored steps: the node sequence is the steps' nodes, one for one; log, outputs and keywords are the state's; the latest plan is there exactly when the state has one |
| Summary.ExtractFinalConclusion | internal/summary/summary.go:39-49 | Working memory's final text, else some nonempty one among the outputs, else empty exactly when there is none |
| Summary.ConclusionIsUnique | internal/summary/summary.go:39-49 | The conclusion is independent of map order exactly when working memory has one or all nonempty output texts agree |
| Summary.WeatherConclusion | internal/summary/summary.go:39-49 | A weather run asked about the weather, with plain facts and a budget for its course, has one conclusion: a nonblank answer, which, unless it was given from the start, speaks of the location and the weather the run ends with |
| Resume.StartTask | internal/state/state.go:82-108 | A first run on the heap is the one-launch chain of the specification, and leaves all other tasks alone |
| Resume.LatestSnapshot | internal/resume/resume.go:19-29 | A deep copy of the last stored snapshot's state |
| Resume.ResumeTask | api/http/router.go:116-123 | A resume answers nothing exactly without a snapshot; otherwise its outcome and its effect on the store are those of a run from the latest one, it keeps the history and never rewrites it, and leaves all other tasks alone |
| Resume.WriteThroughView | internal/state/state.go:147-157 | Whatever is written through a read-only view's containers, the master state does not change |
| Resume.WriteAfterUpdate | internal/persistence/store.go:77-88 | The stored task aliases the live state while stored snapshots do not |
| Resume.RunAndInspect | internal/persistence/store.go:77-88 | After a run, the containers the stored task holds have the contents of the stored snapshots' patches and of the pending one, if any |
| StateBus.MasterState.New | internal/state/state.go:82-108 | A null state exactly without a task id, an error exactly without task id or trace id |
| StateBus.MasterState.ReadOnly | internal/state/state.go:147-153 | The view equals the state and shares no container with it |
| StateBus.MasterState.ApplyPatch | internal/state/state.go:175-224 | An invalid state is refused unchanged; otherwise the state becomes the patched one and the returned snapshot is a fresh deep copy with its version |
| StateBus.MasterState.MergePatch | internal/state/state.go:180-210 | The nested loops, in any map order, are the two-level merge with allow-listed sensitive keys |
| StateBus.MasterState.AppendDecision | internal/state/state.go:226-229 | One record at the end of the log, nothing else |
| StateBus.StateStruct.Clone | internal/state/state.go:135-145 | Same value, all containers fresh and pairwise distinct |
| StateBus.WriteRows | internal/state/state.go:183-190 | Outputs are merged node by node in any order; a new row is never the patch's own map |
| StateBus.WriteAllowed | internal/state/state.go:191-202 | Exactly the allow-listed sensitive keys are written |
| StateModel.MergeMonoid | internal/state/state.go:180-208 | Patches merge associatively with the empty patch as unit |
| StateModel.PatchTwice | internal/state/state.go:180-208 | Applying p then q is applying their merge, except that the version grows by two |
| StateModel.PatchReads | internal/state/state.go:175-210 | Reading a patched state key by key: the patch's value where it has one and the old one elsewhere, in memory, extensions and each node's outputs; sensitive values from the allow-list only; version plus one, status running, identity, input and log as before |
| StateModel.AnyOrderSameMap | internal/state/state.go:180-208 | Writing a map key by key in any complete order, repeats allowed, gives the right-biased union |
| Expressions.NormalizeExpression | internal/rules/rules.go:138-162 | The method with its shortcuts computes the token-wise rewriting |
| Expressions.RewriteParts | internal/rules/rules.go:145-160 | The parts array is rewritten in place, token by token |
| Expressions.NormalizeIdempotent | internal/rules/rules.go:138-162 | Rewriting twice is rewriting once |
| Expressions.NormalizedTokens | internal/rules/rules.go:145-161 | The rewritten text splits into exactly the rewritten tokens, as many as before |
| Expressions.BracketRoundTrip | internal/rules/rules.go:150-159 | The bracket form of a state path reads back to the path's segments if and only if no segment has a quote, a backslash, a line break or surrounding space |
| Expressions.LookupPath | internal/state/state.go:231-246 | The loop walks the dotted segments through nested objects |
| Expressions.WalkPieces | internal/state/state.go:231-246 | One key reads one field, and a path is walked piece by piece |
| Expressions.RewrittenPathReadsSameValue | internal/rules/rules.go:145-161 | On clean paths a rewritten rule indexes the state by the keys the path lookup walks |
| Text.JoinSplit | internal/rules/rules.go:145-161 | Joining what was split gives the text back |
| Text.SplitJoin | internal/rules/rules.go:145-161 | Splitting what was joined gives the parts back when none contains the separator |
| Text.TrimSpaceCuts | internal/rules/rules.go:91-93 | Trimming cuts white space off both ends and nothing else |
| Text.BlankMeansOnlySpace | internal/rules/rules.go:91-93 | Trimming leaves nothing exactly when every character is white space |
| Rules.VerdictIsMeaning | internal/rules/rules.go:49-88 | Evaluation equals the boolean meaning of the nested tree over what the expression library makes of each leaf, and a rejection's nonempty reason belongs to a leaf that does not hold |
| Rules.LeafVerdict | internal/rules/rules.go:90-136 | A rule is allowed exactly when its rewritten expression is empty or parses, checks, builds and evaluates to true; false gives the rule's own reason or names the expression, anything else passes on the library's first complaint |
| Rules.CombineFinds | internal/rules/rules.go:71-88 | "or" allows when some result does and otherwise gives the first nonempty reason; any other operator gives the first rejection |
| Rules.Evaluator.Evaluate | internal/rules/rules.go:49-88 | Evaluation with the cache equals evaluation without one, for every history of the cache |
| Rules.Evaluator.EvaluateRule | internal/rules/rules.go:90-136 | Each cache entry stays the successful compilation of its own key, and the rule is allowed exactly when its leaf holds, whatever the cache |
| Rules.CombineResults | internal/rules/rules.go:71-87 | The or/and search over the collected results |
| Patterns.IndexAgrees | internal/persistence/store.go:162-174 | For any sequence of upserts: hits per node sequence and node scores equal those of the raw history, and no two entries are the same |
| Patterns.IndexRecommendsLikeHistory | internal/memory/memory.go:34-64 | With no keywords the compacted index recommends what the uncompacted history would |
| Patterns.RecommendationIsCanonical | internal/memory/memory.go:34-64 | Patterns recalled in any order, scored and sorted in any way, give the same list |
| Patterns.RankingIsUnique | internal/memory/memory.go:53-58 | A score table has only one order by score descending and id ascending |
| Patterns.LessIsLexicographic | internal/memory/memory.go:55 | Ids are compared at the first difference, a prefix going first |
| Memory.RecommendNodes | internal/memory/memory.go:34-64 | Exactly the nodes of the stored patterns that share a keyword with the query, or of all patterns without keywords, by descending sum of hits times occurrences in those patterns, equal sums by id |
| Ledger.RecommendationMeans | internal/memory/memory.go:34-64 | The specified recommendation is that list |
| Ledger.RecallCounts | internal/persistence/store.go:176-193 | The specified recall is every stored pattern that shares a keyword, or all without keywords, each as often as stored |
| Ledger.HopsInOrder | internal/memory/memory.go:66-74 | The hops of a log are its non-termination decisions in order |
| Learning.RunIsRemembered | internal/memory/memory.go:26-32 | A finished run adds one hit to exactly its own hop sequence, and one vote per occurrence to its nodes when its keywords are asked for; memory changes in no other way, and not at all when the update fails |
| Learning.NextRunIsAdvised | internal/engine/engine.go:79-98 | A later request with the same keywords is recommended every hop of the finished run |
| Memory.ScorePatterns | internal/memory/memory.go:40-48 | The accumulated map scores exactly the nodes of the patterns, hits times occurrences |
| Memory.RankNodes | internal/memory/memory.go:49-63 | Any map order and the insertion sort give the ranking |
| Memory.CurrentSequence | internal/memory/memory.go:66-74 | Every decided hop but termination, plans and rejected hops included |
| Memory.Finalize | internal/memory/memory.go:26-32 | The run's keywords and sequence are upserted with one hit |
| Memory.RecordStep | internal/memory/memory.go:20-24 | The trajectory is the logged hops with the executed node once more at the end |
| Store.MemoryStore.CreateTask | internal/persistence/store.go:66-75 | An existing task is refused unchanged |
| Store.MemoryStore.UpdateTask | internal/persistence/store.go:77-88 | An unknown task is refused; otherwise the struct is kept as a shallow copy |
| Store.MemoryStore.SaveSnapshot | internal/persistence/store.go:103-114 | Appends, and from then on the snapshot's containers are frozen |
| Store.MemoryStore.SaveStep | internal/persistence/store.go:90-101 | Appends a step |
| Store.MemoryStore.SaveSummary | internal/persistence/store.go:116-127 | Replaces the summary of a known task, refuses an unknown one |
| Store.MemoryStore.GetTask | internal/persistence/store.go:129-138 | A record exactly when the task has a view, and then the record that view is of |
| Store.MemoryStore.GetLatestSnapshot | internal/persistence/store.go:140-152 | The last appended snapshot |
| Store.MemoryStore.UpsertPattern | internal/persistence/store.go:162-174 | The first same pattern takes the hits, otherwise the pattern is appended |
| Store.MemoryStore.RecallPatterns | internal/persistence/store.go:176-193 | Each pattern as often as it is stored if it shares a keyword or none are given, and otherwise not at all; by descending hits when keywords are given |
| Store.SamePattern | internal/persistence/store.go:195-205 | Same node sequence and a shared keyword |
| Store.Overlaps | internal/persistence/store.go:207-218 | Some keyword is in both lists |
| KeyedSnapshots.ChainsAgree | internal/persistence/postgres.go:191-205 | Over any run and resumes, resuming by greatest version gives the same history as resuming from the last appended snapshot |
| KeyedSnapshots.StoresAgree | internal/persistence/postgres.go:85-96 | On a stored history no upsert overwrites and the row of greatest version is the last appended snapshot, and no other row is |
| KeyedSnapshots.NothingOverwritten | internal/persistence/postgres.go:88-94 | Upserting keeps every snapshot if and only if no task and version repeats |
| KeyedSnapshots.LatestOfTask | internal/persistence/postgres.go:195-198 | Other tasks in the table do not affect a task's latest row |
| KeyedSnapshots.SnapshotTable.SaveSnapshot | internal/persistence/postgres.go:85-96 | The table stays the upsert of everything saved |
| KeyedSnapshots.SnapshotTable.GetLatestSnapshot | internal/persistence/postgres.go:191-205 | A row exactly when one was saved for the task, and then the one of greatest version |
| Gateway.DecideIsSound | internal/ai/gateway.go:146-216 | A decision without an error is a route to a candidate or termination, or with planning on a nonempty plan over candidates, if and only if at least one attempt is allowed |
| Gateway.DecideExactly | internal/ai/gateway.go:146-216 | With at least one attempt a decision d is returned if and only if the call is admitted, there are candidates, and the primary gives d at one of its attempts after failed calls, or gives nothing and the fallback so gives d |
| Gateway.AcceptedCallsAreSound | internal/ai/gateway.go:257-346 | A call the validator accepts is sound for the scheduler |
| Gateway.CallsAcceptedExactly | internal/ai/gateway.go:257-346 | A call is accepted exactly when it names the route function with a candidate or termination, or with planning on the plan function with nonblank candidate nodes and well-formed edges; the decision then says field by field what the call says |
| Gateway.EdgesAccepts | internal/ai/gateway.go:368-392 | Plan edges are accepted exactly when all items are objects with nonblank ends, and are kept in order and trimmed |
| Gateway.StringsAccepts | internal/ai/gateway.go:348-366 | Plan nodes are accepted exactly when all items are nonblank strings, and are kept in order and trimmed |
| Gateway.ReadStrings | internal/ai/gateway.go:348-366 | The loop reads the trimmed strings or reports the first bad item |
| Gateway.ReadEdges | internal/ai/gateway.go:368-392 | The loop reads the edges or reports the first bad item |
| Gateway.RunModel | internal/ai/gateway.go:188-216 | The attempt loop is the specified retry |
| Gateway.DecisionIsAnAnswer | internal/ai/gateway.go:146-216 | A decision without an error is the normalized answer of one call, every earlier call of which failed: the primary's, or, when the primary gave none, the fallback's; it costs exactly these calls, their time and the delays between them, the fallback's on top of all of the primary's |
| Gateway.DecideCost | internal/ai/gateway.go:146-216 | With n attempts per model: at most 2n calls, at most baseDelay*n*(n+1) waiting, at most n times each timeout spent |
| Gateway.DelaysClosed | internal/ai/gateway.go:208-212 | The delays of attempts from..top in closed form |
| Gateway.AllFailWaits | internal/ai/gateway.go:194-213 | The bound is reached when every call fails and every timer fires: every attempt is made and every delay waited |
| MockProvider.MockCallsAreAccepted | internal/ai/gateway.go:407-442 | Round trip: the validator reads back every mock call as exactly the plan or hop it meant |
| MockProvider.MockDecides | internal/ai/gateway.go:146-216 | With the mock provider a decision is its own call, on the first attempt |
| MockProvider.EdgesAccepted | internal/ai/gateway.go:475-487 | The edges written for a plan are read back as one edge between each two neighbours |
| MockProvider.ToPlanEdges | internal/ai/gateway.go:475-487 | The loop builds one edge between each two neighbours |
| MockProvider.HopsAreCandidates | internal/ai/gateway.go:497-537 | The mock router only names candidates or termination |
| Config.Config.ApplyDefaultsAndValidate | internal/config/config.go:128-244 | Fills exactly the unset settings, fails exactly on an unknown mode or provider, and otherwise establishes what engine and gateway rely on |
| Config.ValidateAI | internal/config/config.go:246-271 | No error if and only if mode and both providers are known |
| Config.FillingIsIdempotent | internal/config/config.go:146-230 | Filling twice changes nothing more, and accepted settings stay as they are |
| Config.FillingMeans | internal/config/config.go:146-230 | Setting by setting: a positive value, a given mode or provider stays, anything else becomes the documented default |
| Config.ProvidersSupported | internal/config/config.go:250-261 | Every provider validation accepts is one the gateway knows |
| Config.ValidatedRunsAreOrderly | internal/config/config.go:203-205 | Under any validated configuration and a fixed registry a run never meets a missing payload, an unsupported type or an unknown node |
| Config.DefaultsCompleteTheDemo | internal/config/config.go:146-190 | Without a configured provider and with a budget unset or at least five, the weather demo completes |
| Composition.GatewayRunsAreOrderly | internal/engine/engine.go:105-164 | Behind the gateway the protocol errors are unreachable, and without planning no plan is logged |
| Composition.NeverOutOfSteps | internal/engine/engine.go:75-221 | Without planning and with more steps than nodes times visits, a run never ends with max_steps |
| Composition.NoAttemptsNoRun | internal/ai/gateway.go:194-215 | With no attempts the empty answer ends a run at once with an unsupported type |
| Composition.LogIsEvidence | internal/engine/engine.go:106-150 | Behind the gateway every decision a run logs is evidence for itself: the recorded function name and arguments, validated again for the candidates of its step, give the recorded hop, or the recorded plan field by field |
| Composition.PlanReadsBack | internal/engine/engine.go:106-131 | Round trip: an accepted plan kept as JSON and submitted again is accepted as the same plan |
| Composition.TakeAuditable | internal/engine/engine.go:105-150 | A decision taken logs its evidence, and a plan taken is kept in the state so that it reads back as that plan |
| Registry.BuiltinRuns | internal/node/node.go:124-143 | The same over a registry of builtins, whose size is the number of nodes |
| Registry.CandidatesAreSorted | internal/engine/engine.go:260-273 | The candidate list is the one ascending list of the builtin ids, whatever the map order |
| Registry.ListedIsRegistered | internal/node/node.go:135-156 | Of what List returns, every id can be looked up if and only if each dynamic node's own id is registered |
| Registry.Registry.RegisterBuiltin | internal/node/node.go:124-133 | Refused exactly without an id, stored under its own id otherwise |
| Registry.Registry.Get | internal/node/node.go:135-143 | A dynamic entry shadows a builtin |
| Registry.Registry.List | internal/node/node.go:145-156 | The ids of the builtins' entries, one for each key in some order, then those of the dynamic entries, shadowed builtins included |
| Registry.Registry.StoreDynamic | internal/node/node.go:237-243 | A loaded manifest is stored under the manifest's id, builtins stay |
| Registry.Registry.BuildCandidates | internal/engine/engine.go:260-273 | What List returns, sorted: ascending, each id as often as entries carry it, and with builtins only the canonical list |
| Registry.AscendingIsUnique | internal/engine/engine.go:260-263 | That determines the list: neither the map order nor the sort can change it |
| Workflows.WorkflowCompletes | internal/engine/engine.go:78-250 | If every iteration moves the head of the course into the log, the run takes exactly the course, executes the nodes ahead, reaches the goal and completes if and only if the budget covers the course; otherwise it takes what the budget allows and ends with max_steps |
| Workflows.HopExecutes | internal/engine/engine.go:141-214 | A first visit to an admitting, succeeding node merges and records its patch |
| Liveness.WeatherCompletes | internal/ai/gateway.go:497-521 | From any state whose facts are absent or nonblank strings, with or without planning, the run takes exactly the plan due, the missing hops and termination, executes every hop, rejects nothing, keeps every given fact and adds each missing one as its node is to say it, and completes, if and only if the budget covers these decisions |
| Liveness.CourseIsShort | examples/weatherdemo/weatherdemo.go:222-396 | That is at most five decisions |
| Liveness.AskedMeansAnswered | examples/weatherdemo/weatherdemo.go:343-396 | A question about the weather ends with a nonblank final text |
| Liveness.NeededSucceeds | examples/weatherdemo/weatherdemo.go:222-396 | The node the facts call for admits the state, succeeds and provides its fact only, in memory and output: the fixed location, the fixed weather, or a text that holds the location and the weather it was given |
| WeatherNodes.MockTextIsSolid | internal/ai/gateway.go:444-463 | The mock text is never blank for a nonblank prompt |
| WeatherNodes.PromptHolds | examples/weatherdemo/weatherdemo.go:343-396 | The prompt holds the question, the location and the weather |
| WeatherNodes.AdmitsExactly | examples/weatherdemo/weatherdemo.go:222-396 | A weather node admits a state exactly when what it needs is there and what it adds is not, so it never overwrites its fact |
| BuiltinLiveness.CompletesIffAdmitted | internal/ai/gateway.go:523-536 | A builtin run completes if and only if its first needed node admits the start and the budget covers the course; admitted but short of budget it stops inside its course; not admitted, nothing executes and it fails by loop detection, or by budget when that is smaller |
| BuiltinLiveness.AdmittedCompletes | plugins/builtin/text_transform.go:24-48 | From an admitted state every builtin node without output runs once, then termination, if and only if the budget covers it; intent, transformed text and final text then are what their nodes are to say |
| BuiltinLiveness.LoopRepeats | internal/engine/engine.go:155-178 | A rejected hop is chosen again until visit M + 1 or the end of the budget, whichever comes first, and nothing is stored |
| BuiltinLiveness.NeededSucceeds | plugins/builtin/finalize.go:24-54 | On an admitted state the needed builtin node succeeds and writes its own fact only, and says in it what it is to say |
| BuiltinNodes.BuiltinSays | plugins/builtin/intent_parse.go:31-64 | The intent is the first of translate, summarize, external call and general the text has words for; the transformed text is the trimmed text in upper case; the final text holds the intent and the transformed text, or the user's text when there is none |
| BuiltinNodes.ExtractKeywords | plugins/builtin/intent_parse.go:66-84 | The loop with its set computes the keyword list |
| BuiltinNodes.KeywordsOnce | plugins/builtin/intent_parse.go:66-84 | Exactly the trimmed fields of four bytes or more, none twice, in order of first occurrence |
| BuiltinNodes.FieldsAreWords | plugins/builtin/intent_parse.go:66-69 | A text is cut at its separators and nowhere else, and empty fields are dropped |
| Sandbox.PermitsConserved | internal/sandbox/executor.go:26-30 | In every interleaving, free permits plus calls inside equal maxParallel |
| Sandbox.WorkersNeverBlock | internal/sandbox/executor.go:35-44 | A goroutine sends at most one message and can always send it, even after its caller left |
| Sandbox.ReturnsOwnResult | internal/sandbox/executor.go:46-53 | A nil error comes only with the call's own node result, a panic error only from its own panic |
| Sandbox.ReturnsByTheSteps | internal/sandbox/executor.go:26-54 | Along any interleaving: a call is denied a slot only after its parent ended and told of the deadline only after deadline or parent ended its context; without either it returns exactly what its node ended with, and it returns only once the node has ended |
| Sandbox.EveryEndingIsReturned | internal/sandbox/executor.go:26-54 | Wherever a permit is free, a new call can return any result with a nil error, or any panic, and give the permit back |
| Sandbox.RaceIsOpen | internal/sandbox/executor.go:46-53 | With the node's ending and the deadline both there, either may be returned |
| Sandbox.DeadlineIsSeen | internal/sandbox/executor.go:32-48 | A waiting caller can leave by the deadline exactly when deadline or parent has ended its context, before or after the goroutine started |
| Sandbox.NodeMayEnd | internal/sandbox/executor.go:37-44 | A node at work may still end in any way after its caller left: its message finds room and its goroutine stops |
| Sandbox.StepLowersRank | internal/sandbox/executor.go:26-54 | Every step but a call's arrival lowers the rank of the calls, by their parents' ending excepted |
| Sandbox.InterleavingsAreFinite | internal/sandbox/executor.go:26-54 | An interleaving with k calls has at most 11 * k steps |
| Sandbox.NeverStuck | internal/sandbox/executor.go:26-54 | With a permit to give, some step is possible until every caller has returned, even if no node ever ends |
| Sandbox.AtRestAllReturned | internal/sandbox/executor.go:26-54 | At rest all callers have returned and all permits are back |
| Sandbox.ExecutingBound | internal/sandbox/executor.go:30-47 | If only the calls in a finite set ever have a node running after their context ended, nodes at work number at most maxParallel plus the size of the set, in every interleaving |
| Sandbox.ExecutingBoundAttained | internal/sandbox/executor.go:30-47 | For every such set some interleaving has that many nodes at work |
| Sandbox.LimitHoldsIffNoneLate | internal/sandbox/executor.go:30-47 | maxParallel bounds the nodes at work in all such interleavings if and only if the set is empty |
| Sandbox.PermitsDoNotBoundNodes | internal/sandbox/executor.go:46-48 | For every maxParallel and every k an interleaving has k nodes at work with all permits free |

## Left out

- HTTP and gRPC surfaces, remote nodes, manifest files, process start, command-line programs: I/O. Resume follows the order of calls in the HTTP handler.
- Provider HTTP calls, request payloads, schemas and JSON text parsing: decisions start from a decoded function call.
- Circuit breaker and rate limiter internals: the breaker passes calls through and the limiter's answer is a parameter.
- The expression compiler and evaluator: uninterpreted functions. Messages quote an expression with plain quotes, not with Go's escaping.
- Encryption, masking, metrics, logging, trace ids beyond being nonempty, and clock values: records carry no timestamps.
- Parent-context cancellation of a whole run: a run's deadline is a fact of its environment; the sandbox model does have it per call.
- 64-bit overflow of versions, visit counts and durations: integers are unbounded.
- JSON marshalling and unmarshalling of states, which may fail: a failing clone or conversion is an environment choice, a successful one keeps the value. Nil and empty maps or slices are one value.
- Containers nested inside JSON values: isolation is proved for the maps of the state and of each node's outputs; values inside them are immutable trees here.
- Nodes that write through their read-only view while running: the environment's nodes are functions of the view's value, and `Resume.WriteThroughView` covers such writes on their own.
- Letter case outside ASCII in `ToLower` and `ToUpper`.
- Printing of JSON values other than strings and nil by `fmt.Sprint`: a parameter.
- The text-generation retry loop, which repeats the decision loop without validation: a node's generator is a parameter, for the demo the mock's.
- Concurrent runs of one task and concurrent use of store, registry and cache: their locks make calls atomic, and one run at a time is modelled per task.
- Keyword-filtered agreement between pattern index and raw history: merging drops the later pattern's keywords, so it does not hold.
- Acyclicity of plans and agreement of plan edges with plan nodes: the code does not enforce either.
- PostgreSQL tables other than snapshots, Redis, cold storage and pattern hashing; step rows keyed by index are not an append log after a resume.
- Settings of server, storage, observability, rate limit and breaker: defaults without consequences for the modelled parts.
- The generic HTTP node and the description, labels and schemas of nodes.
- Summary payload: the final conclusion is modelled beside it, because its value may depend on map order.
