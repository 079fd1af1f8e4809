# Campaign planning, central dispatch and browser ownership, verified

This project models the decision-making core of the repository and proves what it promises:

* **Campaign planning.** A template's steps form a reply tree. Each step gets its own eligible
  profile and its own text, both by augmenting-path matching, and an execution position.
  `Bipartite` holds the matching theory both searches share, `ProfileMatching` and `ContentFreeze`
  the two searches, `TemplateTree`, `ParentForest` and `ExecutionOrders` the trees,
  `CampaignAllocation` the whole plan, and `TemplateImport` the import of spreadsheet trees.
* **The central service.** Tasks become subtasks joined by dependencies, dispatched to devices
  under leases with fencing generations, retried, reclaimed, parked and requeued. `TaskGraph` is
  Kahn's algorithm, `CentralModel` the rows and the atomic steps, `CentralSafety` what every run
  keeps, `CentralLife` and `CentralCreation` what becomes of a subtask, in the fields of the rows,
  messages and requests, `CentralPasses` what whole scheduler passes achieve, `DispatchOrder` which
  subtasks a pass takes, `CentralService` the endpoints and passes as methods of a class whose
  effect is a run of those steps, `CentralAccounts` what results do to an account,
  `CapacityPlacement` the account import.
* **Ownership.** `ProfileGateway` follows the leases of browser profiles while any call to the
  browser provider or the store may fail or be cancelled, `OpeningEffects` states the effect of an
  opening on every exit and what follows from it, `OpeningCalls` which calls are made to the outside
  and how their replies decide the way it ends. `JobQueue` is the gate that lets concurrent
  callers create one job.
* **Exact algorithms.** `WindowTiling` is the window grid, `XPathLiteral` the string printer,
  `VideoSwitching` the retrying scroll loop and its accounts.

Code that works by changing state is a class or a method with loops, proved against functions and
predicates; the theorems are about those.

Where the code departs from what one might expect, the model follows the code:

* Submitting a handle makes a subtask successful whatever its status and generation, so failed and
  cancelled subtasks can be revived: `CentralSafety.OnlySuccessIsFinal`.
* A dry-run import looks neither at capacity nor at repetitions inside the request:
  `CapacityPlacement.DryRunPredictsIff` says exactly when its count is right and `DryRunMiscounts`
  gives requests for which it is not.
* An expiry can lead to a second job. `JobQueue.SecondJobIff` says exactly which expiries do, from
  the state before them: a gate that lapses under a caller that has not enqueued the first job while
  another has yet to pass the gate, and a job record that lapses while some caller may still create
  a job. `TwoJobsIff` says it of whole schedules, and `ExpiredGateCreatesTwo` and
  `ExpiredRecordCreatesTwo` show that both occur.
* Opening a profile again while its browser runs loses the first lease: the second acquisition is
  refused, since every acquisition has its own owner, and the release pass then gives up the lease
  held. `OpeningEffects.AlwaysGuardsIff` says it before the call: every exit keeps running browsers
  their leases if and only if no profile of the batch may be running, which is what
  `Gateway.NoneRunning` says of a gateway. `GuardedIff` says it of the run taken, `RefusedReopening`
  gives the failing exit of every other batch and `ReopeningLosesTheLease` an input.
* A wheel event is counted only once its call has been answered, so a page that scrolled while the
  answer was lost is missing from the report. `VideoSwitching.FinishedReport` says exactly when the
  report is right and how far it can be off, and `HangingWheelGoesUncounted` gives the input.
* The tree check reads an empty parent string as no parent, the role as a reply. The request schema
  turns empty parents into absent ones, so every threaded plan of a stored template has exactly one
  owner (`CampaignAllocation.StoredPlanHasOneOwner`). Only a direct call of `allocate` with
  unnormalised steps can plan a thread without one (`BlankRootHasNoOwner`), exactly when some parent
  field is an empty string (`OwnerUnlessRootParentIsBlank`).

## Model

| member | source | states |
|---|---|---|
| `Bipartite.HallViolatorRefutes` | comment_campaign/allocation.py:217-230 | a set of steps that outnumbers its own candidates rules out every complete matching |
| `Bipartite.AugmentThrough` | comment_campaign/allocation.py:217-226 | rerouting a profile whose holder found another keeps the assignment injective and eligible, with one step more, although entries at claimed profiles may be stale meanwhile |
| `Bipartite.ExhaustedViolates` | comment_campaign/allocation.py:217-230 | a search that fails with nothing seen before has reached one step more than it has seen profiles, and all their candidates |
| `ProfileMatching.ProfileSearch.Assign` | comment_campaign/allocation.py:217-226 | a search succeeds with the assignment augmented by the step, or leaves it unchanged with everything it reached closed; which assignment it finds is the first in candidate order; it terminates because it claims unseen profiles |
| `ProfileMatching.ProfileSearch.AssignAll` | comment_campaign/allocation.py:215-230 | the searches end with every step matched, or no complete matching exists |
| `ProfileMatching.MatchProfiles` | comment_campaign/allocation.py:198-231 | it succeeds if and only if steps and profiles are well named and every step can be given a suitable profile of its own, and returns such an assignment, the first found scarcest step first; otherwise the error carries the first reason that applies and the counts |
| `ProfileMatching.CompleteMeansAssigned` | comment_campaign/allocation.py:96-114 | a complete matching of the eligibility graph is exactly an assignment of different profiles each of which is enabled, healthy, not cooling down, and has the step's tags and language |
| `ProfileMatching.NameableMeansValid` | comment_campaign/allocation.py:179-196 | the accepted inputs are one to 100 steps and one to 300 profiles, each under its own non-empty name |
| `ProfileMatching.ReasonIsFirst` | comment_campaign/allocation.py:127-176 | the reason reported is the first that applies: too few profiles, one disabled, unhealthy or cooling down, a step whose tags, then whose language, nobody in use serves |
| `ProfileMatching.EligibleCountMeans` | comment_campaign/allocation.py:127-140 | the count reported is the number of profiles that suit some step |
| `CampaignModel.ScarceComesFirst` | comment_campaign/allocation.py:212-214 | of two steps the one with fewer candidates is searched for first, then the one with the lesser id |
| `ProfileMatching.ReasonTellsWhetherAStepHasNoCandidate` | comment_campaign/allocation.py:127-176 | when every profile is usable and there are enough of them, a tag or language reason is reported if and only if some step has no candidate at all |
| `ProfileMatching.CandidatesAreEligible` | comment_campaign/allocation.py:96-113 | the sorted candidate lists hold exactly the eligible profiles of each step |
| `ProfileMatching.InputOrderIrrelevant` | comment_campaign/allocation.py:179-214 | whether a matching exists depends on the sets of steps and profiles, not on their order, the seed or the sort key |
| `ProfileMatching.MatchingForgetsInputOrder` | comment_campaign/allocation.py:203-231 | with sort keys free of ties the matching itself is the same for every listing of the same steps and profiles |
| `ProfileMatching.RecommendProfiles` | comment_campaign/allocation.py:234-248 | it returns exactly the profiles of one complete matching, one per step, whenever there is one, none before one whose casefolded name is lesser, or the same with a lesser ref |
| `ProfileMatching.RecommendedSuffice` | comment_campaign/allocation.py:234-248 | matching again with only the recommended profiles at the same instant always succeeds, and every such matching uses all of them |
| `ContentFreeze.ReadLibraries` | comment_campaign/service.py:867-903 | reading succeeds if and only if every named library resolves to usable items within the item limits; each is read once and sorted by item id |
| `ContentFreeze.ReadableMeans` | comment_campaign/service.py:867-903 | the libraries can be read if and only if each one named resolves to one to 300 items with short enough texts and ids, no id twice, and together they hold at most 3000 items |
| `ContentFreeze.ItemsReadIsTotal` | comment_campaign/service.py:870-902 | each library is counted once, however many steps name it |
| `ContentFreeze.ListOptions` | comment_campaign/service.py:905-919 | it succeeds if and only if every step has a fixed text that is not empty, or a library holding the item it prefers, any item when it prefers none; otherwise the error is that of the first step that has not |
| `ContentFreeze.OptionsMeaning` | comment_campaign/service.py:908-918 | a step's options are exactly its own text, or the items of its library, only the preferred one if it prefers one |
| `ContentFreeze.ContentSearch.Assign` | comment_campaign/service.py:932-943 | the text search augments both the key holders and the selected items in step, or changes neither and has exhausted what it reached; which choice it finds is the first in the keyed item order |
| `ContentFreeze.ContentSearch.AssignAll` | comment_campaign/service.py:945-947 | it ends with every step holding a text key, or no choice of pairwise different texts exists |
| `ContentFreeze.SelectThrough` | comment_campaign/service.py:932-943 | through every reassignment the holder of a key has selected an item with that key |
| `ContentFreeze.HoldersSelected` | comment_campaign/service.py:929-953 | when all steps are held, each selected item's key is held by its own step, so the texts are pairwise different |
| `ContentFreeze.ChoiceIsMatching` | comment_campaign/service.py:921-947 | a choice of pairwise different non-empty texts is a complete matching of steps to text keys |
| `ContentFreeze.FreezeContent` | comment_campaign/service.py:865-953 | it succeeds if and only if the libraries are readable and every step can be given its own text or an item of its library, the preferred one if any, with pairwise different non-empty normalised texts; it returns the first such choice found, and otherwise the error of the check that failed |
| `ContentFreeze.ChoiceIsPublished` | comment_campaign/service.py:905-947 | a choice among the listed options is exactly one that the steps' own sources allow, with different texts |
| `ContentFreeze.ChoiceForgetsListingOrder` | comment_campaign/service.py:903-947 | the texts chosen do not depend on the order in which a library lists its items |
| `ParentForest.AcyclicIffNothingTrapped` | comment_campaign/allocation.py:71-86 | parent pointers are acyclic exactly when no non-empty set of nodes has all its parents inside |
| `ParentForest.DepthExists` | comment_campaign/allocation.py:290-303 | acyclic parent pointers have a depth for every node, one more than the parent's |
| `ParentForest.DepthUnique` | comment_campaign/allocation.py:290-303 | and only one |
| `TemplateTree.CycleCheck.Visit` | comment_campaign/allocation.py:73-86 | the coloured walk up the parents finishes with the node and all its ancestors grounded, or has met a cycle |
| `TemplateTree.ValidateTemplateTree` | comment_campaign/allocation.py:50-86 | a template is accepted if and only if its size, mode, ids and parent graph are right: no parents in independent mode, one root, known parents and no cycle in threaded mode |
| `TemplateTree.AssignPositions` | comment_campaign/allocation.py:290-303 | the ready-layer loop always terminates on an accepted tree and numbers the steps in execution order |
| `ExecutionOrders.PositionsRespectTree` | comment_campaign/allocation.py:290-303 | the positions are a bijection onto 1..n and every parent comes before its children |
| `ExecutionOrders.ExecutionOrderUnique` | comment_campaign/allocation.py:290-303 | the execution order is determined by the tree and the template order |
| `CampaignAllocation.DuplicateCheckMeaning` | comment_campaign/allocation.py:285-289 | comparing the number of normalised texts with the size of their set rejects exactly the empty and the repeated ones |
| `CampaignAllocation.SortedIsSequence` | comment_campaign/allocation.py:318 | sorting the steps by position reads the execution order back |
| `CampaignAllocation.Allocate` | comment_campaign/allocation.py:271-319 | allocation succeeds if and only if graph, tree, matching and texts are all right, with a complete plan; the error tells which check failed first |
| `CampaignAllocation.PlanProperties` | comment_campaign/allocation.py:308-319 | a complete plan has one row per step, all profiles different; each row carries a step, a profile suitable for it, their names, the step's text, its place, and the role its mode and parent field give it |
| `CampaignAllocation.RepliesFollowTheirParents` | comment_campaign/allocation.py:304-319 | a reply is planned after the comment it answers and names that comment's assignment |
| `CampaignAllocation.OwnerUnlessRootParentIsBlank` | comment_campaign/allocation.py:65-93 | a threaded plan has at most one owner, and has one if and only if no step's parent field is an empty string |
| `CampaignAllocation.StoringKeepsTheTree` | comment_campaign/schemas.py:37-40 | turning empty parent fields into absent ones does not change which trees are valid |
| `CampaignAllocation.StoredPlanHasOneOwner` | comment_campaign/schemas.py:37-40 | every threaded plan of a stored template has exactly one owner |
| `CampaignAllocation.BlankRootHasNoOwner` | comment_campaign/allocation.py:89-93 | a one-step thread whose parent field is an empty string can be allocated directly, and its plan has no owner |
| `CampaignAllocation.FrozenTextsUsable` | comment_campaign/service.py:945-953 | the texts freezing chose never trigger the duplicate-text check of allocation |
| `CampaignAllocation.PlanCampaign` | comment_campaign/service.py:515-524 | planning succeeds if and only if the tree, the libraries, the texts and the profiles allow it, with a complete plan; the error is that of the first check that fails, in this order |
| `CampaignAllocation.RecommendedProfilesPlan` | comment_campaign/allocation.py:234-248 | a campaign that can be planned can be planned with just the recommended profiles |
| `TemplateImport.NormalizeNodes` | comment_campaign/template_import.py:230-251 | each node keeps its row's number and text and replies to the parent cell or, if that is empty, to the row above, if that has a number |
| `TemplateImport.CycleReport.Visit` | comment_campaign/template_import.py:254-278 | the reporting walk goes on after a cycle, and reports one only if there is one |
| `TemplateImport.DetectCycles` | comment_campaign/template_import.py:254-278 | no cycle is reported if and only if the parent pointers are acyclic |
| `TemplateImport.ScanNodes` | comment_campaign/template_import.py:192-210 | no error is reported if and only if every node fits the limits and the numbers are distinct; the nodes kept have distinct numbers |
| `TemplateImport.NormalizeImportedTree` | comment_campaign/template_import.py:165-227 | a tree is reported valid if and only if it is well formed |
| `TemplateImport.ImportTreeToTemplate` | comment_campaign/template_import.py:93-127 | the conversion accepts exactly the well-formed trees given distinct non-empty ids; each step carries the id, the text and the renamed parent of its node, and what is returned passes the threaded template check |
| `TemplateImport.ImportedTreeIsValid` | comment_campaign/template_import.py:93-127 | renaming the nodes of a well-formed tree gives a valid threaded template |
| `TemplateImport.StepParent` | comment_campaign/template_import.py:104-119 | a step's parent is the step made from its node's parent |
| `TaskGraph.CountEdges` | central/tasks.py:62-70 | children and in-degrees are counted with multiplicity, and the first edge with an unknown end is rejected |
| `TaskGraph.ReleaseChildren` | central/tasks.py:75-79 | each child's count drops once per edge, and exactly those reaching zero are released, once each |
| `TaskGraph.Drain` | central/tasks.py:71-79 | the nodes ordered are downstream of no cycle, and every node left has a parent left |
| `TaskGraph.DetectCycle` | central/tasks.py:61-82 | it returns no node if and only if the edges are acyclic, and otherwise, sorted, the largest set in which every node has a parent inside |
| `TaskGraph.CycleIsClosed` | central/tasks.py:61-82 | the nodes of a cycle all have a parent among themselves |
| `TaskGraph.ClosedHasCycle` | central/tasks.py:61-82 | a non-empty set in which every node has a parent inside contains a cycle |
| `CentralSafety.GateEntry` | central/dependencies.py:48-94 | a subtask leaves the waiting stage towards dispatch only when its parents are all successful with verified handles |
| `CentralSafety.ParentsHeldStep` | central/dependencies.py:48-94 | every step keeps: a subtask that is queued, leased, parked or cancelled has all its parents successful and verified |
| `CentralSafety.CreateCycle` | central/tasks.py:113-122 | creating a task closes a cycle only if its own dependencies had one |
| `CentralSafety.AcyclicStep` | central/tasks.py:113-207 | every step keeps the stored dependency graph acyclic |
| `CentralSafety.FencedStep` | central/scheduler.py:239-277 | every step keeps: assignment messages and results of a subtask have rising generations, and a leased generation was announced to its owner and has no result yet |
| `CentralSafety.ExclusiveStep` | central/assignment.py:84-97 | every step keeps: two leased subtasks of one tenant never share a non-empty profile |
| `CentralSafety.SafeRun` | central/db.py:49-59 | all of these hold after every sequence of transactions |
| `CentralSafety.RunMonotone` | central/assignment.py:54-61 | along every run generations never fall, success stays, and accepted results are never lost |
| `CentralSafety.ResultAcceptedOnce` | central/scheduler.py:239-277 | once a result is accepted, no result for that or an earlier generation of the subtask is accepted at any later time, with any message id |
| `CentralSafety.StaleGenerationIgnored` | central/leases.py:30-38 | a result or renewal for a superseded generation leaves the state unchanged, at any later time |
| `CentralSafety.DispatchIsFresh` | central/assignment.py:54-75 | each dispatch announces a generation higher than any announced before, with no result yet |
| `CentralSafety.OnlySuccessIsFinal` | central/dependencies.py:12-39 | a status can never change if and only if it is success, because a handle revives every other one |
| `CentralSafety.GenerationCounts` | central/leases.py:81-96 | over every run a subtask's generation is the number of its dispatches, reclaims, retries and human requeues |
| `CentralSafety.RetryBudget` | central/leases.py:81-96 | between two human requeues a subtask is dispatched at most once more than the larger of the two retry limits, over every run |
| `CentralLife.SuccessIff` | central/scheduler.py:312-313 | over every run a subtask is successful if and only if a successful result or a handle for it was accepted |
| `CentralLife.FieldsFitStatus` | central/leases.py:80-96 | over every run a row that waits, is queued, failed or cancelled holds no lease field, and a leased one names its owner's device and times out the lease time after its last progress |
| `CentralLife.ReclaimedExactlyWhenLapsed` | central/leases.py:59-96 | a visit of the reclaimer takes exactly the leases past their timeout or whose owner is not heard of; the row goes back to the queue while the attempts that result are within the bound, and is parked otherwise |
| `CentralLife.LeaseLasts` | central/leases.py:34-37 | a lease taken or renewed outlives a visit of the reclaimer if and only if its owner is still heard of and no more than the lease time has passed |
| `CentralLife.DispatchedExactlyWhen` | central/assignment.py:31-61 | a visited queued subtask gets a lease if and only if its account is deployed, and active unless it is a probe, no other leased subtask of the tenant has the account's profile, and a device of the tenant is heard of; the lease goes to the account's own device if that is |
| `CentralLife.ResultDecides` | central/scheduler.py:312-326 | an accepted success finishes the subtask; an accepted failure counts an attempt and requeues it under a fresh generation if and only if it is retryable and at most three attempts result, and parks it otherwise |
| `CentralLife.ParkedExactlyWhen` | central/scheduler.py:315-323 | a step parks a subtask if and only if it reports a failure that is final or one too many, or reclaims a lapsed lease one time too many |
| `CentralLife.ProbeDecides` | central/scheduler.py:287-306 | a probe's result makes a manually verified account active or sends it back to the captcha, the third failure in a row suspends, and nothing else changes an account's standing |
| `CentralPasses.PassProgress` | central/dependencies.py:42-94 | an activation pass changes nothing if and only if no waiting subtask can move; otherwise fewer wait after it, whatever the row order |
| `CentralPasses.ReadyNotDoomed` | central/dependencies.py:55-93 | a subtask whose parents are all delivered has no failed ancestry, so the two outcomes exclude each other |
| `CentralPasses.ActivationFixpoint` | central/dependencies.py:42-94 | as many passes as there are waiting subtasks decide every row from the start alone: failed exactly where a chain of waiting ancestors leads to a failed or cancelled one, queued exactly where all parents are delivered, otherwise as it was |
| `CentralPasses.FixpointUnique` | central/dependencies.py:42-94 | any two listings of enough passes end in the same state, revisions included |
| `CentralPasses.NoDependencyDeadlock` | central/dependencies.py:48-93 | if everything in a task past waiting is delivered and something waits, the next pass queues at least one of its subtasks |
| `CentralPasses.StillQueuedIsBlocked` | central/assignment.py:32-61 | after a dispatch pass every considered subtask still queued has an ineligible account, a busy profile or no online device |
| `CentralService.Central.ReclaimStale` | central/leases.py:52-97 | exactly the leased subtasks whose owner is offline or whose lease ran out are freed, each with a new generation, one more attempt and the status its attempts allow |
| `CentralService.Central.ActivateReadyDependents` | central/dependencies.py:42-94 | one pass visits every waiting subtask in scope once, each seeing the earlier ones' new status |
| `CentralService.Central.DispatchQueued` | central/assignment.py:16-76 | one pass takes the first queued subtasks by urgency and age up to the limit, and dispatches each that is not blocked when its turn comes |
| `DispatchOrder.BatchConsidered` | central/assignment.py:17-29 | no subtask is taken before, or left out for, one that is less urgent or as urgent and younger |
| `DispatchOrder.RankMeansAhead` | central/assignment.py:13-26 | sorting by the numeric key is sorting by urgency, high, medium and low with a missing task as medium, and then by age |
| `DispatchOrder.RequestedPriorityFirst` | central/assignment.py:21-29 | in a pass after any run no subtask is taken before one whose request named a higher priority, nor before an older one of the same priority, whether that is later in the batch or left out of it |
| `CentralModel.PickDeviceMeaning` | central/assignment.py:100-121 | the choice is a reachable device of the tenant, if there is one: the account's own when that is reachable, otherwise the first in row order |
| `CentralService.Central.SchedulerTick` | central/scheduler.py:41-48 | a tick frees stale leases, then activates what waits after that, then dispatches what is queued after that, and keeps every safety property |
| `CentralService.Central.SubmitResult` | central/scheduler.py:234-341 | a result is accepted if and only if its message is new and it is for the current generation of a leased subtask of the tenant; an accepted one decides the status, the attempts and the generation, and a rejected one leaves no trace, in the inbox either |
| `CentralAccounts.SuspendedIff` | central/scheduler.py:279-310 | over every run in which only results write to accounts, the failure count is the streak of failures at the end, and an account is suspended exactly when it was before or the streak once reached three |
| `CentralAccounts.ThreeInARowSuspend` | central/scheduler.py:295-306 | three failures in a row at any point leave the account suspended, whatever results follow |
| `CentralAccounts.StreakIsTrailingFailures` | central/scheduler.py:288-296 | from a clean count the streak is the number of failures since the last success |
| `CentralAccounts.ThreeFailuresStopDispatch` | central/assignment.py:42-52 | after three failures in a row at any point of a run, no ordinary subtask of the account is dispatched at its end |
| `CentralService.Central.RenewLease` | central/leases.py:15-38 | only the owner of the current generation of a leased subtask renews, and each refusal has its own reason |
| `CentralService.Central.SubmitHandle` | central/dependencies.py:12-39 | the handle given is recorded and its subtask succeeds, whatever its status or generation |
| `CentralService.Central.RequeueDlq` | central/human_review.py:63-79 | only a parked subtask is requeued, with a new generation and a clean attempt count |
| `CentralService.Central.TerminateDlq` | central/human_review.py:82-96 | only a parked subtask is cancelled |
| `CentralService.Central.CreateTask` | central/tasks.py:86-236 | a task is created if and only if its type, priority and schedule are known and well-formed, its accounts deployed, its dependencies known and acyclic and its rows new; otherwise the outcome names the first check it fails, and exactly the subtasks nothing points at start queued |
| `CentralCreation.StoredIffAdmissible` | central/tasks.py:92-151 | a request stores anything if and only if its kind, priority and policy are known, its dates parse, its accounts are deployed and different, its dependencies are among them and acyclic, and its ids are fresh |
| `CentralCreation.CreatedRows` | central/tasks.py:161-219 | creation stores the named priority and one row per account, waiting if and only if some dependency names the account as its child, and changes no other row or task |
| `CentralCreation.CreatedEdges` | central/tasks.py:188-205 | the edges stored among the new rows are exactly the dependencies among their accounts |
| `CentralCreation.ProbeRow` | central/scheduler.py:86-121 | a probe is stored exactly for a manually verified account, as one queued row of low priority |
| `CentralCreation.CreationStays` | central/tasks.py:161-186 | along every run a row keeps the creation time and the priority it was requested with |
| `ProfileGateway.Gateway.Resolve` | comment_campaign/profile_gateway.py:44-59 | a profile resolves if and only if it is enabled and healthy, has a raw id and is listed by discovery, if there is any; discovery that fails has its own error |
| `ProfileGateway.Gateway.Acquire` | comment_campaign/profile_gateway.py:283-297 | a lease is recorded exactly when it was granted, and nothing is when there is no factory |
| `ProfileGateway.Gateway.ConfirmClosed` | comment_campaign/profile_gateway.py:242-252 | a browser counts as closed if and only if an attempt at it found it inactive, and is given up on only after every configured attempt |
| `ProfileGateway.Gateway.CloseMany` | comment_campaign/profile_gateway.py:242-260 | a lease is given up only for a browser seen inactive, the others keep lease and mapping, also when closing is cancelled at any point and when raw ids repeat; the last answer for a raw id is the one returned |
| `ProfileGateway.Gateway.ReleaseUnstarted` | comment_campaign/profile_gateway.py:310-314 | the pass releases exactly the leases of profiles never started or confirmed closed, as far as it gets |
| `ProfileGateway.Gateway.QuarantineUnclosed` | comment_campaign/profile_gateway.py:373-378 | exactly the known profiles whose browser was started and not confirmed closed become disabled and unhealthy, as far as the pass gets before the store raises |
| `ProfileGateway.Gateway.CleanUp` | comment_campaign/profile_gateway.py:105-122 | handling a failure gives up exactly the leases its course says and marks exactly the profiles it reached, wherever it is cut short |
| `ProfileGateway.Gateway.OpenMany` | comment_campaign/profile_gateway.py:61-129 | nothing is opened if and only if the refs are empty or repeat or one does not resolve; otherwise it succeeds exactly when every call, in the order of the leases, browsers, tiling and confirmation, was answered well, is interrupted exactly when one was cancelled, and else fails with the first failing reply's code, or with that of an unconfirmed close, unless cleaning up is itself cut short; the effect is that of `OpeningEffects.Ran` on every exit, and running browsers, also those really live, keep their leases exactly when the release pass spares every profile that was running before |
| `OpeningCalls.CallsDecideTheEnding` | comment_campaign/profile_gateway.py:61-129 | what the calls were answered decides whether an opening succeeds, is interrupted, is cut short or fails, and with which code |
| `ProfileGateway.Gateway.OpenIdentityBatch` | comment_campaign/profile_gateway.py:146-240 | the same for a batch under a campaign lease, which is required and never changed here; contention for a lease, a failing start and a failing connection have their own codes, and other exceptions are passed on |
| `ProfileGateway.Gateway.CloseBindings` | comment_campaign/profile_gateway.py:262-267 | exactly the browsers some attempt found inactive lose their leases and no running browser is left without its lease, also when closing is cancelled or the store raises, which exactly the last call tells; the profiles the quarantine reached no longer resolve |
| `OpeningEffects.GivenUpMeans` | comment_campaign/profile_gateway.py:242-314 | closing and releasing together give up exactly the leases of confirmed browsers and of profiles the release pass met unstarted |
| `OpeningEffects.CleanedUp` | comment_campaign/profile_gateway.py:84-122 | opening followed by a clean-up that stops anywhere has the stated effect as a whole |
| `OpeningEffects.GuardedIff` | comment_campaign/profile_gateway.py:299-314 | on every exit, running browsers keep their leases if and only if the release pass met no profile that was running before and was not started again |
| `OpeningEffects.AlwaysGuardsIff` | comment_campaign/profile_gateway.py:283-314 | known before the call: with a lease factory, an opening keeps running browsers their leases on every exit it can take if and only if no profile of the batch may be running |
| `OpeningEffects.RefusedReopening` | comment_campaign/profile_gateway.py:283-314 | a refused first acquisition gives up every profile lease of the batch, and for every batch with a running profile that exit leaves a browser without its lease |
| `OpeningEffects.SuccessHoldsAll` | comment_campaign/profile_gateway.py:71-104 | success takes every lease of the batch and changes nothing in the store |
| `OpeningEffects.FailureKeepsRunning` | comment_campaign/profile_gateway.py:105-122 | after a plain failure exactly the leases of the batch's running browsers are held, those profiles are quarantined, the campaign lease is gone and all else is as before |
| `OpeningEffects.WhatACutLeaves` | comment_campaign/profile_gateway.py:105-122 | when the handling is cut short every running browser holds its lease; exactly those the quarantine pass did not reach are unmarked, and the campaign lease is still held unless only its own release was cancelled |
| `OpeningEffects.ReopeningLosesTheLease` | comment_campaign/profile_gateway.py:283-314 | opening a running profile again and being refused leaves its browser without a lease |
| `JobQueue.Lease.Acquire` | comment_campaign/queueing.py:50-54 | the key is set only when absent; an answer is right, and without one the command ran or did not |
| `JobQueue.Lease.Refresh` | comment_campaign/queueing.py:56-63 | only the owner's key is extended |
| `JobQueue.Lease.Release` | comment_campaign/queueing.py:65-69 | only the owner's key is deleted |
| `JobQueue.ExclusiveNext` | comment_campaign/queueing.py:187-213 | every timely move of any caller keeps: at most one caller between gate and enqueue, and only while no job exists |
| `JobQueue.AtMostOneJob` | comment_campaign/queueing.py:187-221 | for any number of callers, interleavings, failures and lost answers at most one job is created, if gates outlive their critical sections and the record stays fetchable |
| `JobQueue.OnlyTheOwnerTouches` | comment_campaign/queueing.py:13-24 | at any point of any schedule, expiries included, an entry goes or changes only by a move of its owner or by its own expiry |
| `JobQueue.AbsentOwnerKeepsEntry` | comment_campaign/queueing.py:13-24 | over a whole schedule in which its owner does not move, an entry survives unchanged unless it expires |
| `JobQueue.SecondJobIff` | comment_campaign/queueing.py:187-221 | a move makes a second job possible exactly when it is an expiry of the gate under a caller that has not enqueued the first job while another has yet to pass, or of the record while some caller may still create a job |
| `JobQueue.TwoJobsIff` | comment_campaign/queueing.py:187-221 | from fresh callers on, two jobs are out of reach all along a schedule if and only if none of its expiries is such a one |
| `JobQueue.SecondCaller` | comment_campaign/queueing.py:187-213 | a caller past the gate, or before a free one, that sees no record gets to enqueue a second job, after the first or beside a caller about to create it |
| `JobQueue.ReturnedIsCreated` | comment_campaign/queueing.py:187-228 | over every schedule a caller that returns a job returns one that was created |
| `JobQueue.LoneCallerCreates` | comment_campaign/queueing.py:187-206 | left alone, a caller that finds neither job nor gate creates one job, keeps the gate for the time of the result, and returns the job |
| `JobQueue.SeenIsReturned` | comment_campaign/queueing.py:190-199 | a caller that sees the job at any look returns it without creating another |
| `JobQueue.FailureFreesTheGate` | comment_campaign/queueing.py:207-213 | a caller that fails under its gate gives the gate back |
| `JobQueue.LooksInVain` | comment_campaign/queueing.py:215-221 | a caller kept from the gate looks exactly as often as configured before it raises |
| `JobQueue.AnsweredRaisesOnlyAfterLooking` | comment_campaign/queueing.py:187-221 | over every schedule a caller all of whose calls are answered raises only after all its looks |
| `JobQueue.ExpiredGateCreatesTwo` | comment_campaign/queueing.py:187-213 | with two callers an early expiry of the gate leads to two jobs |
| `JobQueue.ExpiredRecordCreatesTwo` | comment_campaign/queueing.py:187-213 | so does an expiry of the first job's record before the other caller has looked |
| `WindowTiling.RoundMonotone` | window_tiler.py:196-204 | half-even rounding keeps order |
| `WindowTiling.RoundExact` | window_tiler.py:196-204 | and is exact on integers, so the last edges meet the area's |
| `WindowTiling.BestRowGroups` | window_tiler.py:148-172 | the balanced split of a row count that no other row count beats is chosen |
| `WindowTiling.BestComparesWell` | window_tiler.py:157-170 | against every other row count, the one chosen has the lesser fit, or the same with fewer empty slots, or as many and no less even rows |
| `WindowTiling.BalancedSum` | window_tiler.py:157-159 | a balanced split has no empty row and adds up to the count |
| `WindowTiling.LayoutTiles` | window_tiler.py:191-207 | any split into positive rows covers every pixel, inside the area, without overlap |
| `WindowTiling.ExactlyOneCell` | window_tiler.py:521-527 | in a tiling without overlapping rectangles every pixel lies in exactly one cell |
| `WindowTiling.CellInGrid` | window_tiler.py:191-207 | every cell of a layout is a column of a row, within one pixel of the row's share of the height and of an equal share of the width |
| `WindowTiling.RowHeight` | window_tiler.py:196-206 | a row's height is within one pixel of its share of the height |
| `WindowTiling.ColumnWidth` | window_tiler.py:199-204 | a column's width is within one pixel of an equal share of the width |
| `WindowTiling.PlaceRows` | window_tiler.py:191-207 | the running edges produce the layout of the row groups |
| `WindowTiling.BuildLayoutCells` | window_tiler.py:175-209 | for positive count and sizes, and only then, it returns exactly `count` cells that tile the area, by fixed grids for two and four and the best split otherwise |
| `XPathLiteral.SplitProperties` | browser_element_resolver.py:103 | the parts between apostrophes hold none, and with the apostrophes put back give the string |
| `XPathLiteral.ParsesQuoted` | browser_element_resolver.py:99-102 | a value without one of the quotes is read back from its literal, section 3.7 of XPath 1.0 |
| `XPathLiteral.ParsesArguments` | browser_element_resolver.py:110 | a printed argument list is read back value by value |
| `XPathLiteral.ConcatArguments` | browser_element_resolver.py:104-109 | the arguments are the quoted non-empty parts with a quoted apostrophe between parts |
| `XPathLiteral.XPathStringLiteral` | browser_element_resolver.py:98-110 | evaluating the printed expression gives the string back, for every string; a concat, section 4.2 of XPath 1.0, has at least two arguments |
| `CapacityPlacement.SelectDevice` | central/allocation.py:17-35 | the chosen device has room and the least water level, the lowest row id among equals; none only if no device has room |
| `CapacityPlacement.PlacedIsBalanced` | central/allocation.py:26-35 | placing on a least loaded device leaves it at most one account ahead of every enabled device |
| `CapacityPlacement.StaysBalanced` | central/allocation.py:26-35 | and later placements on others keep that |
| `CapacityPlacement.ImportStaysLevel` | central/accounts.py:71-122 | an import pushes no device past its capacity, and every device that gained an account ends at most one ahead of every enabled device of the tenant |
| `CapacityPlacement.DeploysUpToCapacity` | central/accounts.py:71-122 | a real import deploys as many accounts as the smaller of the distinct new ones and the free places, and each takes one place |
| `CapacityPlacement.EveryNewAccountRecorded` | central/accounts.py:87-121 | stored accounts are untouched, and each new one is either deployed to a device of the tenant that its deploy task names, or stored as imported and reported as a capacity failure |
| `CapacityPlacement.FailuresCounted` | central/accounts.py:71-133 | failures and successes add up to the request, in both modes |
| `CapacityPlacement.DuplicatesReported` | central/accounts.py:71-90 | an account is reported as a duplicate if and only if it is stored already or, in a real import, requested twice |
| `CapacityPlacement.DryRunPredictsIff` | central/accounts.py:83-85 | a dry run reports the real run's successes if and only if no new account is requested twice and all of them find free places |
| `CapacityPlacement.DryRunMiscounts` | central/accounts.py:83-85 | two requests for one free place, for one account twice or for two, are both reported as succeeding by the dry run and deployed once by the real one |
| `CapacityPlacement.Import.ImportAccounts` | central/accounts.py:54-133 | the loop's counts, failures and rows are those of the import function; a dry run writes nothing |
| `VideoSwitching.AwaitStableChange` | browser_video_switch.py:478-517 | the first poll that repeats a different video at the same place, or raises, decides; without one nothing changed |
| `VideoSwitching.SwitchOnce` | browser_video_switch.py:520-625 | an attempt is what it met with: a switch is to the first video the last pulse's polls decided for, a missing one comes after exactly the limit of pulses for the captured height, each answered and showing nothing new, a timeout after a late answer or no time left, and every exception from the call that raised it; it reports exactly the answered wheel calls |
| `VideoSwitching.ToldUnique` | browser_video_switch.py:531-625 | what the page answered determines how the attempt is reported |
| `VideoSwitching.LimitUnique` | browser_video_switch.py:558-561 | the limit of pulses is determined by the height: four more than it takes to scroll it, between four and 24 |
| `VideoSwitching.Absorb` | browser_video_switch.py:691-803 | a closed page is replaced once at most and only if a lifecycle can find another; every replacement gets exactly one log entry, when its retry succeeds or the run stops |
| `VideoSwitching.ExecuteVerifiedSwitches` | browser_video_switch.py:628-848 | it completes exactly the requested switches or stops with an error that explains the last attempt, after at most one attempt more than requested; there is a rest between any two switches and the run stops at the first that fails, a lifecycle is asked for a page at the first closed one only, and stops the run exactly if it finds none; records and recovery log are exact, and the wheel events reported are the answered calls |
| `VideoSwitching.FinishedReport` | browser_video_switch.py:655-848 | the wheel events reported are the answered calls, at most 24 an attempt; they miss at most one event for each attempt that may have lost an answer and at most two, and none if and only if no unanswered call scrolled; a run that completes without replacing its page reports every event, all in its records |
| `VideoSwitching.ScrollingBounded` | browser_video_switch.py:555-568 | the page itself never scrolls more than 24 times an attempt and twice more |
| `VideoSwitching.HangingWheelGoesUncounted` | browser_video_switch.py:361-371 | one wheel call that scrolls and is never answered ends in a timeout reporting no wheel event |

## Left out

- Hashes, UUIDs, Unicode normalisation and case folding are function parameters; dates are integers, the clock is read once per pass, and whether a deadline has passed is a nondeterministic answer.
- HTTP routing, request validation, SQL, migrations, event publishing and the counters in the responses of the scheduler passes and endpoints (activated, assigned, skipped, reclaimed).
- central/scheduler.py, `probe_tick`: the cooldown and the one-probe-at-a-time guard are dropped, so the model allows more probes than the code; every safety property holds all the same.
- Other endpoints that write accounts and devices (registration, heartbeats, settings) are steps that set those tables to anything.
- central/relay.py, central/outbox.py, central/websocket.py and central/events.py: delivery of messages. The model ends where an assignment message is stored.
- comment_campaign/executor.py and store.py: execution of a plan, whose guarantees rest on compare-and-set operations of the store.
- The campaign, target and snapshot checks around planning, and storing the plan (service.py, `plan_campaign`); the library and step snapshots `_freeze_content` also returns.
- TemplateImport.NormalizeImportedTree: which errors an invalid tree gets, and in which order, is computed but not stated beyond whether there are any.
- Workbook parsing, text trimming and the row numbers inside import errors (template_import.py).
- Message texts: errors name the check that failed.
- WindowTiling.BestRowGroups: the logarithmic fit is an arbitrary real-valued score, because float logarithms are outside the model; every theorem holds for any score.
- WindowTiling.Round: rounding is half-even on exact rationals, not on the float quotient Python forms first.
- CapacityPlacement.SelectDevice: water levels are exact rationals compared by cross multiplication, not floats.
- ProfileGateway.Gateway.OpenMany: raw ids of different profiles are assumed different, as the provider's are, and a lease once granted is assumed to last; the timing of the heartbeat task is not modelled, only that it may make the opening fail.
- ProfileGateway.Gateway.StartOne: the checks after connecting one browser (heartbeat, campaign, refreshed leases) are one call, and so are those after tiling.
- ProfileGateway.Outside.Start: a start that was answered is over, so a browser seen inactive after it is assumed not to come up by itself later.
- ProfileGateway.Gateway.Acquire: other processes' leases appear only as refusals.
- JobQueue.AtMostOneJob: times to live are not counted down; an expiry is a move that may come at any time. Job arguments and sleeping are left out.
- VideoSwitching.ExecuteVerifiedSwitches: the contents of diagnostic pulse records, page origins and safe fingerprints are left out, and a strategy pause leaves without a report, as in the code.
- Mouse placement, page scaling, locator building and every call into a browser are nondeterministic answers or left out.
