# Verified models of the AI Marketing Department core

Dafny models of five parts of the repository, each proved against an
independent statement of what the part promises.

1. **Streaming** (`JsonText`, `SseFrames`, `StreamingBridge`, `StreamingRuns`,
   `StreamingTheorems`, `StreamingContent`). The bridge that carries progress events and text deltas
   from worker threads to one response writer. Every region under the lock is one
   atomic step, every write and flush a step outside it. All interleavings of any
   number of calling threads with the consumer are covered, including closes and
   broken connections, down to what an EventSource client decodes and the text it
   shows.
2. **Plans and goals** (`Digraphs`, `PlanGraph`, `Planning`, `Replanning`,
   `GoalDependencies`, `GoalHierarchy`). The recursive three-colour search and
   Kahn's loop both decide the same thing, absence of a cycle; revisions keep a
   plan valid over any chain; ready steps lead to completion; parent links form a
   tree and descendant checks are its transitive closure.
3. **Evidence to memory** (`Evidence`, `Collaboration`, `Decisions`,
   `MemoryPolicy`, `Learning`). Folds over submitted records refine declarative
   verdicts that do not depend on order or replay; acceptance, authorization and
   promotion count distinct agents and sources.
4. **World state** (`WorldState`, `WorldStateChains`, `TemporalModel`,
   `Transitions`). Belief histories built one snapshot at a time are exactly what
   the temporal lineage check accepts, and the derived transition log replays them.
5. **Connections and configuration** (`EnvLoader`, `EnvRoundTrip`, `EnvFiles`,
   `ConnectionModels`, `ConnectionProfiles`, `ConnectionManager`, `ControlPlane`).
   The quoting parser's exact round-trip domain, the write-through cache and its
   table, and the scoped choice of a unique most specific connection.

Each imperative operation is a method (with the source's loops) proved equal to a
specification function or predicate; the lemmas then say what that function
means. Identifiers are taken as the source leaves them after stripping. A raised
exception is an `Err` value or an error code; the codes appear in the order in
which the source checks, so a method's result also fixes which error comes first.

`dafny verify dfyconfig.toml` checks the whole project.

Where the code and its documentation differ, the code is followed:

- `format_sse_event` strips its event type, so an all-blank type prints an empty
  one, which a client reads as the default type `message`
  (`SseFrames.FrameIsOneMessage`).
- `close()` promises to mark the bridge disconnected; a close that comes after the
  consumer has read the terminal event is overwritten by COMPLETE or ERROR
  (`StreamingTheorems.CloseSticksIff`, with a run in `LateCloseIsOverwritten`).
  "Zero-drop" holds while the bridge is open: what a thread has not had accepted by
  the step that ends the stream is dropped, blocked or not
  (`StreamingTheorems.DroppedIff`, with a run in `BlockedDeltaCanBeDropped`).
- A plan revision must use step ids new to the plan it revises, not to its whole
  history: an id invalidated in one revision can return, rebound, in a later one.
  It never does if and only if every revision's replacement ids are new to all
  earlier plans (`Replanning.NoIdReturnsIff`, with a chain in
  `InvalidatedIdCanReturn`).
- A world-state request checks its snapshot id against the immediate predecessor
  only, so a chain can be refused later by the lineage check, exactly when a
  snapshot id was used twice (`TemporalModel.ChainAcceptedIff`, with a chain in
  `RepeatedSnapshotIsRefused`). Revision ids are joined with colons, so an accepted
  request can fail to build, exactly when an id it would append is already in the
  belief's history (`WorldStateChains.BuildSucceedsIff`, with a chain in
  `JoinedIdsCanCollide`).
- Double-quoted `.env` values are documented to support the standard escapes; the
  sequential replacements misread a backslash followed by `n`, `r` or `t`
  (`EnvRoundTrip.SurvivesEscapingIff`).
- A collaboration whose proposal references are a permutation of the canonical ones
  is accepted by the decision request but never proceeds, and escalates when every
  reference the decision cites is verified (`Decisions.BindingNeedsCanonicalOrder`,
  with requests in `PermutedRefsEscalate`).
- With three or more runs a retained contradicting reference that no run lists as
  supporting makes consolidation fail instead of leaving a candidate
  (`Learning.ConsolidationOutcome`, with requests in `RetainedContradictionFails`).
- A connection reloaded from the table has the same safe dictionary but is the same
  profile only if its metadata holds no set
  (`ConnectionProfiles.DecodeInvertsEncode`). A removed connection stays away if and
  only if no registration or update of it takes effect afterwards, and an enable that
  overlaps the remove is one (`ConnectionManager.StaysAbsentIff`, with a run in
  `StaleUpdateResurrects`).

## Model

| member | source | states |
|---|---|---|
| `JsonText.PrintIsOneLine` | app_api/streaming.py:45-50 | the JSON text of any payload holds no raw CR or LF |
| `JsonText.ParseInvertsPrint` | app_api/streaming.py:45-50 | parsing the JSON text of any value gives that value back, so distinct payloads never share a text |
| `JsonText.PrintSpelled` | app_api/streaming.py:45-50 | the literals, brackets and separators of the JSON text |
| `SseFrames.Frame` | app_api/streaming.py:36-53 | a frame of one of the four event types is always formatted, never refused |
| `SseFrames.FrameSpelled` | app_api/streaming.py:36-53 | the four frames character by character: the event line with the type's name, the data line, a blank line |
| `SseFrames.FrameIsOneMessage` | app_api/streaming.py:36-53 | under sections 9.2.5 and 9.2.6 of the WHATWG HTML standard a frame at the head of any stream is one message with exactly its type and data (the empty type reads as `message`), and the rest of the stream is read as if it stood alone |
| `SseFrames.CutFrameIsSilent` | app_api/streaming.py:52-53 | a frame cut anywhere before its last character dispatches nothing |
| `SseFrames.StreamRoundTrip` | app_api/streaming.py:221-234 | any list of frames followed by a torn one reads back as exactly that list of messages |
| `SseFrames.ClientDecodesStream` | app_api/streaming.py:221-234 | a client that parses the data recovers exactly the typed events written, in order |
| `StreamingBridge.StreamingChatBridge.constructor` | app_api/streaming.py:130-136 | a new bridge is OPEN with an empty queue and no terminal event |
| `StreamingBridge.StreamingChatBridge.SendProgress` | app_api/streaming.py:148-158 | waits while OPEN and full, is dropped once not OPEN, otherwise appends the event at the tail and changes nothing else |
| `StreamingBridge.StreamingChatBridge.SendDelta` | app_api/streaming.py:160-177 | waits while OPEN and full, is dropped once not OPEN or when empty, otherwise appends one delta event at the tail in which a reader finds the text under "content", the provider under "provider" and the model under "model_name" |
| `StreamingBridge.StreamingChatBridge.Enqueue` | app_api/streaming.py:150-158 | the shared lock region of both producers |
| `StreamingBridge.StreamingChatBridge.SendComplete` | app_api/streaming.py:179-186 | sets the COMPLETE terminal event and TERMINAL_PENDING only from OPEN |
| `StreamingBridge.StreamingChatBridge.SendError` | app_api/streaming.py:188-196 | sets the ERROR terminal event and TERMINAL_PENDING only from OPEN |
| `StreamingBridge.StreamingChatBridge.Close` | app_api/streaming.py:198-203 | disconnects from OPEN or TERMINAL_PENDING, keeps every other state and the queue |
| `StreamingBridge.StreamingChatBridge.Take` | app_api/streaming.py:209-219 | waits when OPEN and empty; otherwise removes the head, or reports that the terminal event is due, or stops |
| `StreamingBridge.StreamingChatBridge.DrainOne` | app_api/streaming.py:209-224 | one item leaves the queue head and reaches the writer whole, or the connection breaks inside its frame and the bridge is disconnected |
| `StreamingBridge.StreamingChatBridge.DrainQueue` | app_api/streaming.py:207-224 | the drain loop writes the whole queue in FIFO order, or a prefix and one torn frame when the connection breaks |
| `StreamingBridge.StreamingChatBridge.DrainToWriter` | app_api/streaming.py:205-252 | with quiet producers the writer receives exactly the queue and then a pending terminal event, the final state follows that event, and a broken connection leaves a prefix and DISCONNECTED |
| `StreamingRuns.InitInv` | app_api/streaming.py:130-136 | a new bridge satisfies the run invariant for any scripts of calls |
| `StreamingRuns.StepKeepsInv` | app_api/streaming.py:148-252 | every step of every thread and of the consumer, broken writes and flushes included, keeps the invariant: bounded queue, zero-drop FIFO, terminal event last, lifecycle, bytes on the wire, per-thread order |
| `StreamingRuns.RunKeepsInv` | app_api/streaming.py:148-252 | so every reachable state satisfies it |
| `StreamingTheorems.EveryRunIsSafe` | app_api/streaming.py:148-252 | in every reachable state: queue within a positive capacity; accepted equals written, in flight, queued, in order; the wire holds those frames and at most one cut one; the terminal event is written only after everything accepted; a consumer that returned without a failure has written everything accepted, after a close too; each thread's accepted events are a prefix of what it offers, and while the state is OPEN nothing of it is missing but what is still to be called |
| `StreamingTheorems.RunFollows` | app_api/streaming.py:179-241 | along any run OPEN is never re-entered, the terminal event is set at most once, accepted, written and wire only grow, and nothing is written after the terminal event |
| `StreamingTheorems.StepDecreases` | app_api/streaming.py:148-252 | every step decreases one measure of remaining calls, queued events and consumer position |
| `StreamingTheorems.RunsAreBounded` | app_api/streaming.py:148-252 | so every run is at most as long as that measure of its first state |
| `StreamingTheorems.StuckOnlyWhenQuiet` | app_api/streaming.py:150-158 | no deadlock: when nothing can move, all calls have returned and the consumer has returned or, no thread having ended the stream, waits with everything written |
| `StreamingTheorems.BlockedProducerIsWoken` | app_api/streaming.py:169-177 | while a producer is blocked the consumer can move, and the next dequeue or state change enables the producer |
| `StreamingTheorems.BlockedProducerIsServed` | app_api/streaming.py:207-224 | the consumer alone enables a blocked producer within three of its own steps |
| `StreamingTheorems.WritesAreBounded` | app_api/streaming.py:207-234 | once the state has left OPEN the consumer makes at most queue length plus one further writes, plus the one in flight |
| `StreamingTheorems.SingleProducerIsExact` | app_api/streaming.py:160-241 | one producer, no close, no failure: when the consumer returns the bytes are exactly every non-empty event sent, in order, then the one terminal event; the client decodes exactly those and the state names that event |
| `StreamingTheorems.ClientDecodesAPrefix` | app_api/streaming.py:221-234 | in every reachable state the client has decoded a prefix of the accepted events followed by the terminal event |
| `StreamingTheorems.CloseSticksIff` | app_api/streaming.py:198-241 | in any run from a close to the consumer's return, the final state is DISCONNECTED if and only if the consumer had not yet read the terminal event when the close came, or a write or flush breaks afterwards; otherwise it is the outcome that event stands for |
| `StreamingTheorems.LateCloseIsOverwritten` | app_api/streaming.py:198-241 | a run from a new bridge in which a close comes after that read and the state ends COMPLETE |
| `StreamingTheorems.DroppedIff` | app_api/streaming.py:160-186 | after the step that leaves OPEN, however the run goes on, everything a thread offers is accepted if and only if it had nothing left to offer at that step; the rest is dropped |
| `StreamingTheorems.BlockedDeltaCanBeDropped` | app_api/streaming.py:169-174 | a concrete run in which a delta blocked on a full queue is dropped because another thread completes the stream |
| `StreamingTheorems.BlockedIff` | app_api/streaming.py:150-152 | in every reachable state a call waits if and only if it offers a progress event or a non-empty delta, the bridge is OPEN with a positive capacity, and the queue holds exactly that many |
| `StreamingTheorems.BreaksDisconnect` | app_api/streaming.py:221-252 | the connection can break in every write and every flush and nowhere else; the consumer's next step then disconnects the bridge and returns |
| `StreamingContent.ClientIsToldTheScript` | app_api/streaming.py:148-241 | one producer, no close, no failure: what the client reads off the bytes, by name in each payload, is exactly what the script tells, call by call: progress events, deltas with their text, provider and model, and the ending payload; the concatenated texts are those of its deltas before the ending call, and the state is COMPLETE if and only if the last thing read is a success |
| `PlanGraph.CycleSearch.Visit` | brain/planning.py:211-220 | the recursive visit terminates; it finishes with the node visited and no cycle through visited nodes, or stops on a real cycle |
| `PlanGraph.SearchForCycle` | brain/planning.py:208-223 | the three-colour search succeeds if and only if the dependency relation is acyclic |
| `Planning.ValidateGraph` | brain/planning.py:194-223 | returns exactly the first failure: a duplicate step id, an unresolved dependency, or a cycle, and none if and only if ids are distinct, dependencies resolve and the graph is acyclic |
| `Planning.SnapshotError` | brain/planning.py:146-245 | no error if and only if the snapshot is valid: lineage header, graph and completed-state consistency |
| `Planning.NewSnapshot` | brain/planning.py:146-192 | the constructor accepts exactly the valid snapshots, unchanged; an error names a flaw of the snapshot |
| `Planning.ReadyAmong` | brain/planning.py:408-417 | an id is listed exactly when it is a pending step whose dependencies are all completed |
| `Planning.SomeOpenStepIsUnlocked` | brain/planning.py:225-245 | a valid plan with an incomplete step has an incomplete step whose dependencies are all completed |
| `Planning.ReadyUnlessBlocked` | brain/planning.py:394-417 | in a valid ACTIVE unfinished plan no step is ready if and only if every unlocked open step is BLOCKED |
| `Planning.MarkCompletedValid` | brain/planning.py:225-245 | completing any ready step gives a plan that re-validates |
| `Planning.MarkCompletedCount` | brain/planning.py:394-417 | and leaves exactly one pending step fewer |
| `Planning.GreedyRunKeeps` | brain/planning.py:394-417 | every greedy run keeps the plan valid and counts down the pending steps one by one |
| `Planning.GreedyRunCompletes` | brain/planning.py:394-417 | with no BLOCKED step every greedy order completes the plan in exactly as many moves as there were pending steps and cannot stop earlier |
| `Replanning.ApplyPlanRevision` | brain/planning.py:420-485 | accepted exactly on the condition below; then the next revision of the same plan, active, with its parent and reason, the preserved steps first in their order and the replacements last, and valid; an error names what is wrong with the revision or with that candidate |
| `Replanning.RevisionErrorMeans` | brain/planning.py:248-300 | the revision constructor accepts exactly a positive revision number, disjoint preserved and invalidated ids and something to change, and an error says which fails |
| `Replanning.CyclesAreAmongReplacements` | brain/planning.py:468-485 | any cycle of the candidate plan lies wholly among the replacement steps |
| `Replanning.RevisionAcceptedIff` | brain/planning.py:420-485 | a revision is accepted if and only if it is of this open plan at this revision, names every step as preserved or invalidated and no other, leaves or brings a step, brings replacements with distinct fresh ids for this goal, keeps steps that need kept steps only, and the replacements resolve, are acyclic among themselves and are completed only on completed dependencies |
| `Replanning.ChainKeepsSurvivors` | brain/planning.py:468-485 | over any chain of revisions every plan is valid, the revision number grows by one a step, and the steps kept by all revisions stay unchanged, in order and in front |
| `Replanning.NoIdReturnsIff` | brain/planning.py:459-466 | over any chain of revisions an id that left the plan never returns if and only if no revision's replacement ids meet those of any earlier plan |
| `Replanning.InvalidatedIdCanReturn` | brain/planning.py:459-466 | a concrete chain in which an invalidated step id returns with other content |
| `Replanning.ApplyAdaptiveReplan` | brain/adaptive_replanning.py:161-214 | accepted exactly on the condition below; then the plan is valid, one revision on, active, with the unaffected steps unchanged in order and the replacements after them; a refusal is never one of the classification errors and names what is wrong |
| `Replanning.AdaptiveNeverTripsClassification` | brain/adaptive_replanning.py:180-206 | the revision it builds never trips the overlap, empty, unknown, unclassified, plan-id or from-revision checks |
| `Replanning.AdaptiveAcceptedIff` | brain/adaptive_replanning.py:161-214 | for every signal, the exact condition under which an adaptive replan is accepted |
| `GoalDependencies.NoEdgeErrorIff` | brain/goal_decomposition.py:225-237 | the edge loop accepts exactly distinct, known, non-self edges |
| `GoalDependencies.BuildTables` | brain/goal_decomposition.py:221-239 | the loop builds the dependents lists and in-degrees of exactly that graph, or reports the first bad edge |
| `GoalDependencies.CountOrdered` | brain/goal_decomposition.py:241-249 | Kahn's loop terminates; it visits all goals if and only if the graph is acyclic |
| `GoalDependencies.KahnVerdict` | brain/goal_decomposition.py:241-251 | all visited gives a dependency order; fewer visited leaves an actual cycle among the goals not visited |
| `GoalDependencies.ValidateDependencyDag` | brain/goal_decomposition.py:217-251 | the first failure, which names a fault of the edges, and none if and only if the edges are distinct, known, without self-edges, and acyclic |
| `GoalHierarchy.HierarchyOkIff` | brain/goal_decomposition.py:175-214 | the hierarchy check accepts if and only if there is a subgoal, goal ids are distinct and parent links form a tree rooted at the parentless root |
| `GoalHierarchy.ValidateParentHierarchy` | brain/goal_decomposition.py:175-214 | the loops and parent walks compute that check, with the first error in source order |
| `GoalHierarchy.WalkToRoot` | brain/goal_decomposition.py:200-212 | once every parent is known, the walk from a goal ends at the root or finds a repeat, which is a cycle of parents |
| `GoalHierarchy.IsStrictDescendant` | brain/goal_decomposition.py:254-271 | on any goal map the walk answers the strict transitive closure of the parent relation |
| `GoalHierarchy.TreePathsDoNotRepeat` | brain/goal_decomposition.py:261-270 | on an accepted hierarchy no walk meets a goal twice, so the cycle guards are unreachable |
| `GoalHierarchy.DescendantIsStrictOrder` | brain/goal_decomposition.py:254-271 | on an accepted hierarchy descendance is a strict partial order |
| `GoalHierarchy.ValidateCriterionTraces` | brain/goal_decomposition.py:274-312 | returns exactly the first failing trace check |
| `GoalHierarchy.BuildGoalDecomposition` | brain/goal_decomposition.py:315-345 | the first failing check of the whole decomposition, which names a fault of the request |
| `GoalHierarchy.DecompositionAcceptedIff` | brain/goal_decomposition.py:315-345 | a decomposition is accepted if and only if the hierarchy is a rooted tree with a subgoal, the dependencies are distinct, known, without self-edges and acyclic, every trace is of a declared criterion to strict descendants of its owner, and every root criterion is traced |
| `GoalHierarchy.AcceptedDecomposition` | brain/goal_decomposition.py:274-345 | so in an accepted decomposition every root criterion is traced to a strict descendant of the root, and every responsible goal of any trace is a strict descendant of the criterion's owner |
| `Evidence.SideQualifies` | brain/evidence.py:158-182 | the per-source fold qualifies exactly when an observed STRONG signal exists or two distinct sources each have an observed MODERATE one |
| `Evidence.BestQualifies` | brain/evidence.py:166-182 | a table of the best strength per source decides that declarative form |
| `Evidence.ScanEvidence` | brain/evidence.py:233-263 | the id-replay loop fails exactly on a conflicting id and otherwise splits first occurrences into the two sides and the ignored references |
| `Evidence.AssessClaimEvidence` | brain/evidence.py:212-287 | the assessment fails if and only if two signals share an id with different identity; otherwise CONTESTED if and only if both sides qualify, SUPPORTED if and only if support alone does, REFUTED if and only if contradiction alone does, INSUFFICIENT if and only if neither does |
| `Evidence.AssessmentMeaning` | brain/evidence.py:233-287 | an assessment carries the request's ids; each list cites exactly the records of this goal and claim on its side, in order of first occurrence; set aside are exactly the ids of replays, of records of another goal or claim, and of neutral ones |
| `Evidence.MirrorLaw` | brain/evidence.py:233-287 | exchanging support and contradiction in every record exchanges SUPPORTED with REFUTED and the two lists of references, and keeps the other two verdicts |
| `Evidence.RefsMeaning` | brain/evidence.py:256-261 | a reference is listed on a side exactly when an in-scope record of that side has the id |
| `Evidence.OrderAndReplayInvariance` | brain/evidence.py:212-287 | failure, verdict and the sets of references depend only on the set of records: permuting or replaying signals changes none of them |
| `Evidence.SideRefsDistinct` | brain/evidence.py:242-261 | the references of a side are distinct |
| `Evidence.SupportedHasSources` | brain/evidence.py:265-276 | a SUPPORTED claim cites an in-scope observed supporting record |
| `Evidence.RepeatedSourcesInvariance` | brain/evidence.py:168-182 | adding any number of records that their own source already matches or outranks, or that are derived, neutral or out of scope, never changes the verdict |
| `Evidence.OnlyTheStrongestMatter` | brain/evidence.py:168-182 | a side qualifies exactly when the strongest observations of each source do |
| `Collaboration.EvaluateCollaboration` | brain/collaboration.py:350-545 | ACCEPT, REVISE, ESCALATE and INCONCLUSIVE each on an exact condition over the reviews: REVISE on a REFUTED proposal or a re-derived, independent refutation of a SUPPORTED one, ESCALATE on a CONTESTED one or any other dissent, no verdict with a repeated reviewer; the three lists hold exactly the ids of the backing, the dissenting and the ignored reviews |
| `Collaboration.DispositionMeaning` | brain/collaboration.py:478-536 | the same four conditions of the policy itself, quantified over the reviews |
| `Collaboration.RederivedMeaning` | brain/collaboration.py:117-161 | a claimed verdict that raw evidence re-derives says which sides of it qualify, and its references are those of the supporting side, the contradicting side, or both in that order |
| `Collaboration.SplitStructural` | brain/collaboration.py:371-390 | keeps in order exactly the reviews of this goal and proposal by someone else than the author, and lists the ids of the others |
| `Collaboration.CountReviewers` | brain/collaboration.py:392-399 | a reviewer is counted more than once exactly when two kept reviews are theirs |
| `Collaboration.DropRepeated` | brain/collaboration.py:401-409 | drops every review of a repeated reviewer |
| `Collaboration.FindCommonMode` | brain/collaboration.py:419-441 | a review is common-mode exactly when a source of it also serves the proposal or another eligible review |
| `Collaboration.AcceptedIsIndependentlyBacked` | brain/collaboration.py:411-537 | ACCEPT with quorum q means at least q reviewers, pairwise distinct and none the author, with re-derived evidence from non-empty source sets disjoint from one another and from the proposal's, and no refuting or contesting review |
| `Collaboration.AcceptedCounts` | brain/collaboration.py:411-537 | so at least q + 1 distinct agents back the claim, and q + 1 distinct sources with an observed, in-scope, supporting record |
| `Collaboration.IrrelevantReviewsInvariance` | brain/collaboration.py:371-390 | permuting reviews, or adding self-reviews and reviews of other goals or proposals, changes neither the disposition nor who supports or dissents |
| `Decisions.AssessDecisionRisk` | brain/decisions.py:222-259 | the loops compute the fold of the worst values and the unique sources |
| `Decisions.AggregateIsWorst` | brain/decisions.py:228-239 | the aggregate is at least as bad as every signal in each field |
| `Decisions.AggregateIsAttained` | brain/decisions.py:228-245 | each field is attained by some signal, and the sources are exactly the signals' sources, once each |
| `Decisions.CheckRisk` | brain/decisions.py:329-353 | the risk stage of the request in source order |
| `Decisions.ValidateRequest` | brain/decisions.py:300-441 | accepts exactly the requests whose reasoning agrees with the aggregated risk, whose assessment is the one the evidence gives, and whose collaboration cites exactly the in-scope supporting records under that verdict; otherwise the first failing check in source order |
| `Decisions.CheckRequestIff` | brain/decisions.py:300-441 | the same exact condition for the chain of checks |
| `Decisions.EvaluateDecision` | brain/decisions.py:494-692 | refused if and only if not well formed; otherwise PROCEED, REVISE and ESCALATE each on an exact condition over the proposed disposition, the qualifying sides, the cited records and the reviews, with the collaboration id if and only if the reviews were consulted, and the two lists splitting the cited references, in order, by whether a supporting record backs them |
| `Decisions.Decide` | brain/decisions.py:566-692 | the chain of early results computes that answer and collaboration id |
| `Decisions.OutcomeMeaning` | brain/decisions.py:592-692 | for every well-formed request, when the answer is PROCEED, REVISE or ESCALATE, as three if-and-only-ifs, and when the collaboration id is reported |
| `Decisions.ErrorMeans` | brain/decisions.py:282-440 | a refusal names a check that the request fails |
| `Decisions.ProceedsIff` | brain/decisions.py:590-681 | a decision proceeds if and only if its request is well formed, it proposes PROCEED, support qualifies and contradiction does not, every cited reference names an in-scope supporting record, the collaboration cites them in canonical order, no reviewer repeats, nobody dissents and the backed supporters reach the quorum |
| `Collaboration.AcceptIff` | brain/collaboration.py:443-537 | ACCEPT if and only if the proposal is supported by its own re-derived evidence, no reviewer repeats, no review refutes or contests, and the independently backed supporters reach the quorum |
| `Decisions.ProceedIsIndependentlyBacked` | brain/decisions.py:590-681 | PROCEED requires a PROCEED proposal, every cited reference naming an in-scope supporting record, and accepted review: q independent peers, q + 1 agents, q + 1 sources of observed in-scope support |
| `Decisions.AdvisoryInputsHaveNoAuthority` | brain/decisions.py:548-564 | among accepted requests the submitted risk, reasoning, assessment and proposal evidence never change the outcome |
| `Decisions.NeverUpgraded` | brain/decisions.py:590-605 | REVISE and ESCALATE proposals are never upgraded and STOP always escalates |
| `Decisions.BindingNeedsCanonicalOrder` | brain/decisions.py:664-672 | on supported evidence the bound collaboration is valid if and only if its references are the canonical list in canonical order; otherwise the decision does not proceed, and escalates if it proposes PROCEED and all it cites is verified |
| `Decisions.PermutedRefsEscalate` | brain/decisions.py:436-441 | for any two distinct records and a peer with a third source: the request citing them in canonical order proceeds, the one citing them the other way round is accepted and escalates |
| `MemoryPolicy.CanonicalSupportedRunRefs` | brain/memory_policy.py:183-210 | the loop returns the merged supporting references, empties on the first unsupported run, or fails on the first mismatch |
| `MemoryPolicy.MergeRefs` | brain/memory_policy.py:205-208 | appends the unseen references in order |
| `MemoryPolicy.EvaluateMemoryCandidate` | brain/memory_policy.py:237-352 | REJECTED, PROMOTED, EPHEMERAL, VERIFIED and CANDIDATE each if and only if its condition on kind, authority, verdict, references, scope, run count and runs holds; the effective scope is the requested one unless it would broaden, and then the origin; an error if and only if the provenance of three or more runs fails |
| `MemoryPolicy.EvaluationMeaning` | brain/memory_policy.py:237-352 | the same of the policy itself, for every candidate; a verdict other than SUPPORTED never reaches the provenance check |
| `MemoryPolicy.ScanRunsIff` | brain/memory_policy.py:190-210 | the scan succeeds if and only if every run backs this very claim under its own assessment id, and then holds exactly their supporting references |
| `MemoryPolicy.PromotedIff` | brain/memory_policy.py:213-341 | institutional memory is PROMOTED if and only if scope does not broaden and at least three runs, as many as claimed, each re-derive support under distinct assessments and are cited exactly |
| `MemoryPolicy.ReplayedSourcePromotes` | brain/memory_policy.py:190-210 | for any three assessment ids: three runs that replay one record of one source are promoted, since between runs only the assessment ids must differ; independent sources are asked for by consolidation alone (`Learning.PromotionNeedsIndependentRuns`) |
| `Learning.AnalyzeLearningEpisode` | brain/learning.py:288-373 | each of the five dispositions if and only if its condition on the qualifying sides, the claim kind and the controls holds; the lesson is the hypothesis, on a candidate lesson alone; the references are those of both sides, each once, the supporting ones first; nothing if and only if two records conflict |
| `Learning.CandidateLessonIff` | brain/learning.py:311-373 | a candidate lesson arises exactly from qualifying observed support without qualifying contradiction, and for causal claims a controlled experiment |
| `Learning.ValidateRuns` | brain/learning_consolidation.py:118-133 | the first invalid episode or repeated run id |
| `Learning.AddRun` | brain/learning_consolidation.py:203-263 | after pairwise independent runs one iteration takes the next run exactly when it passes by itself and shares no episode, assessment or observed source with any of them and teaches the same lesson; otherwise the first failing check |
| `Learning.ConsolidateLearning` | brain/learning_consolidation.py:188-294 | a consolidation lists the run and episode ids in order and every reference of either side of some run, puts to the memory policy a candidate of kind EXPERIMENT if and only if every run is one, observed, supported and with all the runs, and holds that policy's decision; an error names a run, a pair of runs or a rule that fails |
| `Learning.ConsolidationMeaning` | brain/learning_consolidation.py:188-294 | the same of the fold itself: what each consolidation holds and what each error says |
| `Learning.FoldIff` | brain/learning_consolidation.py:203-263 | the loop succeeds if and only if every run passes by itself and is independent of all earlier ones in episode, assessment and observed sources while sharing the lesson |
| `Learning.ConsolidationOutcome` | brain/learning_consolidation.py:268-294 | for accepted runs: REJECTED if scope would broaden, CANDIDATE for one, VERIFIED for two, and for three or more PROMOTED if and only if every contradicting reference is also a supporting reference of some run, otherwise an error |
| `Learning.RetainedContradictionFails` | brain/learning_consolidation.py:268-294 | for any three run names: an accepted request of three passing independent runs, each with a weak contradiction, that returns the reference mismatch |
| `Learning.OnlyAcceptedConsolidate` | brain/learning_consolidation.py:203-266 | no other request consolidates |
| `Learning.PromotionNeedsIndependentRuns` | brain/learning_consolidation.py:244-253 | PROMOTED implies at least three runs whose observed source sets are non-empty and pairwise disjoint |
| `WorldState.CheckPropositions` | brain/world_state.py:284-304 | the first bad proposition in order, and the set of known ids |
| `WorldState.CheckEvidence` | brain/world_state.py:308-330 | the first bad evidence request in order |
| `WorldState.CheckContinuity` | brain/world_state.py:347-363 | the first earlier proposition that disappears or is rewritten |
| `WorldState.SnapshotAcceptedIff` | brain/world_state.py:128-263 | a snapshot is accepted if and only if it has beliefs about different propositions, all of its goal and agent, each with a history of distinct revision ids whose statuses are those their assessments' verdicts stand for, and the status and lists of the last |
| `WorldState.CheckRequest` | brain/world_state.py:276-363 | the first failing request check, which names what is wrong, and none if and only if the request is acceptable |
| `WorldState.RequestErrorIff` | brain/world_state.py:276-363 | accepted if and only if there are propositions, distinct and of this goal and agent, at most one evidence request for each, of the same goal and agent, and a previous state, if any, is valid, of the same goal and agent, under another snapshot id, with all its propositions kept unchanged |
| `WorldState.BuildWorldState` | brain/world_state.py:376-478 | a built snapshot has one belief for each proposition: if the request assesses it, ESTABLISHED, REFUTED, CONTESTED or UNKNOWN exactly as support alone, contradiction alone, both or neither side of that evidence qualifies, citing its records and with one revision appended; otherwise carried forward unchanged or introduced as UNKNOWN; an error names what is wrong |
| `WorldState.NextBeliefs` | brain/world_state.py:397-456 | the loop over the propositions returns the beliefs in order or the first error |
| `WorldState.BuiltFits` | brain/world_state.py:102-456 | the status and the lists of every belief of a built snapshot, in the records of its evidence |
| `WorldState.BuildErrorMeans` | brain/world_state.py:276-478 | an error of a build names a check that the request or its evidence fails |
| `WorldState.PropositionErrorIff` | brain/world_state.py:284-304 | propositions are accepted if and only if ids are distinct and all are of the request's goal and agent |
| `WorldState.AcceptedKeepsPropositions` | brain/world_state.py:347-363 | an accepted request keeps every earlier proposition unchanged |
| `WorldState.BuildIsValid` | brain/world_state.py:397-478 | a built snapshot passes its own constructor and holds one belief for each requested proposition, in order |
| `WorldState.BuildExtends` | brain/world_state.py:397-456 | no proposition disappears or is rebound and every revision list is only appended to |
| `WorldStateChains.BeliefMeaning` | brain/world_state.py:397-456 | over a chain from scratch a belief's status says which sides qualify in the evidence of the last request that assessed it, or is UNKNOWN if none did, with one revision for each of those and one more if it was introduced unassessed |
| `WorldStateChains.BuildSucceedsIff` | brain/world_state.py:376-478 | for every request: the build succeeds if and only if the request is acceptable, no evidence request conflicts, and no revision id it would append is already in that belief's history |
| `WorldStateChains.FreshIdsNeverCollide` | brain/world_state.py:430-433 | along any chain, a colon-free snapshot id not used before, among colon-free ones, makes every revision id new, which leaves only the request checks and the evidence |
| `WorldStateChains.JoinedIdsCanCollide` | brain/world_state.py:430-433 | a chain of two accepted requests, with snapshot ids x and x:p, whose second build is refused for a repeated revision id |
| `TemporalModel.ValidateFrameLineage` | brain/temporal_world_model.py:300-362 | none if and only if the frames are a lineage; otherwise the frames before some frame are one and that frame has the fault returned |
| `TemporalModel.CheckLink` | brain/temporal_world_model.py:328-359 | the checks between two adjacent frames, in order |
| `TemporalModel.LineageErrorIff` | brain/temporal_world_model.py:300-362 | a lineage is accepted if and only if frame ids and snapshot ids are distinct, goal and agent match, positions strictly increase, and each state extends the one it names as previous |
| `TemporalModel.ChainAcceptedIff` | brain/world_state.py:343-363 | the frames of any chain of builds are accepted if and only if frame ids are distinct, positions increase and no snapshot id was used twice |
| `TemporalModel.ChainRefusal` | brain/temporal_world_model.py:300-362 | with distinct frame ids and increasing positions a repeated snapshot id is the only fault the frames of a chain can have |
| `TemporalModel.RepeatedSnapshotIsRefused` | brain/world_state.py:343-346 | a chain of three builds with snapshot ids A, B, A, refused for that reason |
| `Transitions.DeriveTransitions` | brain/temporal_world_model.py:386-430 | the nested loops build the specified log |
| `Transitions.TransitionsDescribe` | brain/temporal_world_model.py:365-430 | each transition of a belief: its ids, the two statuses, the references that are new, in order, and each of the seven change kinds as an if-and-only-if on the statuses and the new references |
| `Transitions.ReplayReproduces` | brain/temporal_world_model.py:386-430 | folding the log over the first frame's statuses reproduces every later frame's |
| `Transitions.FromStatusIsFolded` | brain/temporal_world_model.py:389-428 | each transition starts from the status the fold has reached, absent exactly when it is an addition, and joins two different snapshots |
| `Transitions.ChainFramesAreValid` | brain/world_state.py:467-478 | the frames of a chain of builds are valid snapshots, so the replay applies to them |
| `EnvLoader.FindClosingQuote` | config/env_loader.py:164-177 | the scanner loop with its escaped flag |
| `EnvLoader.ParseQuotedValue` | config/env_loader.py:158-231 | a double-quoted value ends at the first quote after an even run of backslashes and is its unescaped text, a single-quoted one ends at the next single quote and is taken as it stands, either followed by nothing but a comment; an unquoted one ends before the first space and hash sign and holds no quote; otherwise which error |
| `EnvLoader.ValueMeaning` | config/env_loader.py:158-231 | the same for the specification of the value |
| `EnvLoader.ParseEnvLine` | config/env_loader.py:119-152 | a line is skipped exactly when it is blank or a comment, and assigns v to k exactly when k is the stripped text before its first equals sign, a new identifier, and v the value of the stripped text after it; otherwise an error that names its fault |
| `EnvLoader.ParseEnvContent` | config/env_loader.py:92-155 | a NUL is refused first; otherwise the line loop returns the specified map, or the error of a line that has that fault after lines that all parse |
| `EnvLoader.ScannerClosesAtFirstEvenQuote` | config/env_loader.py:164-177 | the scanner closes at the first quote after an even run of backslashes, and fails exactly when there is none |
| `EnvRoundTrip.UnescapeEscape` | config/env_loader.py:192-199 | decoding any escaped value gives the value with every n, r or t directly after a backslash turned into its control character |
| `EnvRoundTrip.SurvivesEscapingIff` | config/env_loader.py:192-199 | so a value survives if and only if it has no such pair |
| `EnvRoundTrip.DoubleQuotedParses` | config/env_loader.py:163-199 | an escaped value between double quotes parses to that reading, whatever the value |
| `EnvRoundTrip.SingleQuotedParsesIff` | config/env_loader.py:201-217 | a single-quoted value parses back if and only if it holds no single quote |
| `EnvRoundTrip.FileParses` | config/env_loader.py:109-155 | a rendered file parses to exactly its keys, each with what its quoting reads back as |
| `EnvFiles.FileRoundTripsIff` | config/env_loader.py:109-217 | for any list of entries, each in single or double quotes: the rendered file parses back to exactly their map if and only if the keys are distinct identifiers, no value holds NUL, a line end other than the \n, \r and \t that double quotes escape, or a single quote between single quotes, and no double-quoted value has a backslash directly before n, r or t |
| `ConnectionModels.FreezeIdempotent` | connections/models.py:59-66 | freezing twice is freezing once |
| `ConnectionModels.GroupBecomesSortedList` | connections/models.py:74-75 | a frozen set thaws to the list of its thawed members, one each, sorted by repr |
| `ConnectionModels.ThawThaws` | connections/models.py:69-76 | thawed metadata holds only dicts, lists and scalars |
| `ConnectionModels.ThawFreezeThaw` | connections/models.py:59-76 | thaw, freeze, thaw equals thaw |
| `ConnectionModels.FreezeThawExactIff` | connections/models.py:59-76 | freezing a thawed value gives the original if and only if no set is in it |
| `ConnectionProfiles.ConstructorIsStable` | connections/models.py:111-131 | the constructor returns valid profiles and accepts each of them unchanged, so changing the enabled flag never fails |
| `ConnectionProfiles.NewProfileMeans` | connections/models.py:111-131 | the constructor accepts exactly non-blank fields, a well-formed secret reference and a mapping without sensitive keys; it de-duplicates the two scope lists, freezes the metadata, changes nothing else, and an error says what is wrong |
| `ConnectionProfiles.SecretRefIff` | connections/models.py:37 | a secret reference is exactly a scheme, a colon and a locator |
| `ConnectionProfiles.SensitiveIff` | connections/models.py:20-42 | a key is sensitive if and only if one of the markers stands somewhere in it, up to case and up to hyphen, space and underscore |
| `ConnectionProfiles.DecodeMeans` | connections/manager.py:102-136 | exactly when a row loads and when it reports a hash mismatch, an invalid payload or a mismatch with its index columns |
| `ConnectionProfiles.DecodeInvertsEncode` | connections/manager.py:102-136 | a stored profile always decodes, with the same safe dictionary, and to the same profile if and only if its metadata holds no set |
| `ConnectionManager.ConnectionManager.Open` | connections/manager.py:59-92 | opening without a database gives the empty cache; on rows it loads them and fails exactly when a row does; on any table a manager left behind it succeeds with cache and table in agreement |
| `ConnectionManager.EmptyAgrees` | connections/manager.py:64-92 | the starting points agree: the empty cache without a table and with the empty one |
| `ConnectionManager.ConnectionManager.Register` | connections/manager.py:167-185 | the exact result and the new cache and table; nothing changes on any failure, a failed write included |
| `ConnectionManager.ConnectionManager.Get` | connections/manager.py:187-192 | succeeds exactly on an open manager that has the id; what it returns is valid, under that id, resolvable, and the profile whose row is in the table |
| `ConnectionManager.ConnectionManager.SetEnabled` | connections/manager.py:201-217 | changes only the flag of that one profile, in cache and table, or nothing |
| `ConnectionManager.ConnectionManager.Remove` | connections/manager.py:219-229 | removes the row and the cached profile, or nothing |
| `ConnectionManager.ConnectionManager.Close` | connections/manager.py:231-237 | only marks the manager closed |
| `ConnectionManager.ConnectionManager.AuthorizeProfile` | connections/manager.py:239-283 | authorized if and only if the manager is open and the profile is registered, enabled and in the requested scope; otherwise the first reason |
| `ConnectionManager.LoadProfiles` | connections/manager.py:138-149 | the loop succeeds if and only if every row decodes to a resolvable profile, and otherwise reports why the first that does not fails |
| `ConnectionManager.EveryRunAgrees` | connections/manager.py:151-229 | after every sequence of lock regions from any threads, stale updates and failed writes included, cache and table agree |
| `ConnectionManager.ReopenSucceeds` | connections/manager.py:138-149 | reopening on the table of any run succeeds, in any row order, with the same ids and safe dictionaries |
| `ConnectionManager.ReopenedAgrees` | connections/manager.py:138-149 | and the reopened manager agrees with that table |
| `ConnectionManager.StaysAbsentIff` | connections/manager.py:167-229 | over every run a connection that is not there stays away if and only if no registration or update of it takes effect: without a database any does, with one those committed before the manager is closed |
| `ConnectionManager.StaleUpdateResurrects` | connections/manager.py:201-229 | an enable that read its profile before a remove puts it back |
| `ControlPlane.ConnectorControlPlane.Bind` | connectors/control_plane.py:154-164 | adds exactly that connection to that connector, or reports the first failing check and changes nothing |
| `ControlPlane.ConnectorControlPlane.Unbind` | connectors/control_plane.py:166-174 | removes exactly that binding and says whether there was one |
| `ControlPlane.ConnectorControlPlane.AuthorizedCandidates` | connectors/control_plane.py:194-221 | the loop returns the candidates and counters, or the first error that is not a refusal |
| `ControlPlane.ConnectorControlPlane.SelectProfile` | connectors/control_plane.py:223-272 | explicit and implicit selection, with the first error |
| `ControlPlane.ConnectorControlPlane.GetStatus` | connectors/control_plane.py:274-345 | reports a configured connection c if and only if the connector is enabled and needs one and c would be chosen; and each other state, local, disabled, missing, out of scope, ambiguous, or an error, if and only if its own condition on the bindings, the profiles and the scope holds |
| `ControlPlane.ConnectorControlPlane.ResolveForExecution` | connectors/control_plane.py:347-390 | reaches the secret lookup of c exactly when the status would name c, and the reference looked up is the one registered for c |
| `ControlPlane.SelectsIff` | connectors/control_plane.py:223-272 | for any bindings and manager state, implicit selection returns c if and only if the manager is open, no bound id is unregistered or usable under another provider, and c is bound, enabled, in scope and strictly more specific than every other such connection, in any visiting order |
| `ControlPlane.RefusalsMean` | connectors/control_plane.py:253-271 | for any bindings and manager state, exactly when selection reports no binding, a closed manager, an unregistered id, a foreign provider, all disabled, none in scope, or ambiguity |
| `ControlPlane.StatusMeaning` | connectors/control_plane.py:274-345 | each reported state that is no configured connection, asked for by name or implied, as an if-and-only-if |
| `ControlPlane.LosersAreIrrelevant` | connectors/control_plane.py:194-272 | binding or unbinding disabled, out-of-scope or strictly less specific connections never changes the result, be it a selection or an ambiguity |
| `ControlPlane.SpecificityIsLexicographic` | connectors/control_plane.py:135-145 | the 4/2/1 score is the lexicographic order on business, project and brand scope |
| `ControlPlane.SelectedIsAuthorized` | connectors/control_plane.py:223-272 | a selected profile is authorized for that scope and has the connector's provider |
| `ControlPlane.StatusMatchesResolution` | connectors/control_plane.py:274-390 | the status names a configured connection exactly when execution would get as far as reading that connection's secret |

## Left out

- Text stripping, enum coercion, rebuilding models from dictionaries, deep copies and the semantic-snapshot tamper checks: values here are immutable, so those checks cannot fail. The one permitted downgrade of a learning episode's controls after construction goes with them.
- The step constructor of a plan, which already refuses a step that depends on itself: here such a step reaches the snapshot check, which reports a cycle.
- Human-readable `reasons` and `rationale` strings, except where a constructor needs one to exist.
- The next strategy of a learning decision, which its disposition determines, and the peer-review flag of a decision evaluation, which is always set.
- UTF-8 encoding of frames: the stream is a sequence of characters, so a write torn inside a character counts as torn before it, and payloads with lone surrogates, which cannot be encoded, are not values of the model.
- JSON numbers: a finite float is the text `repr` gives it, and the non-finite ones, which are not JSON, are no values of the model. An object JSON cannot hold is the string `default=str` makes of it.
- Wait timeouts of the bridge: a timed-out wait only looks at its guard again, so a wait is a step that is not enabled. Which of several woken producers proceeds is left to the interleaving.
- Error sanitising and the classification of exceptions in the drain: a failing write or flush is one kind of step.
- Execution of several consumers on one bridge: the server runs exactly one.
- SQL mechanics, SHA-256 and JSON text of the connection table: a transaction commits or changes nothing, digests are equal only for equal payloads, and JSON text is what it parses to.
- Endpoint syntax checks of a connection profile (`urlsplit`), non-ASCII case folding in key and scheme matching, and metadata keys that are not strings.
- ConnectionProfiles.DecodeInvertsEncode: takes a stored safe dictionary as a record with its ten keys, so a document with a missing key counts as garbage.
- The `repr` that orders a thawed set is any function on the thawed members; Python's own is not modelled.
- The alphabetical order in which bound ids are visited: every enumeration is covered instead.
- Secret values and the secret provider: resolution stops at the reference that would be read.
- Clock, file and environment access of the configuration loader, and its typed value helpers.
- The minimum of two temporal frames, causal links, agent bindings of actions and evidence needs, the reasoning assessment beyond its risk fields, and the finite policy tables of the other brain modules.
- The HTTP server, routing, model gateway and user interface.
