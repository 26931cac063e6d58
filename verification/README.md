# Manager service: protocols and data structures, verified

A Dafny model of the parts of the Manager service that coordinate shared state, with proofs of what they promise.

- **Knowledge ingestion** (`IngestionTables`, `IngestionStore`, `IngestionProtocol`, `IngestionInvariant`,
  `IngestionTheorems`, `IngestionDeletion`). Documents, job generations and reindex receipts; any number of workers
  that claim under a lease, cross the submission fence, POST to an upstream whose answer may be lost, and settle,
  publish or reconcile; uploads, reindex requests and deletions beside them. `IngestionStore` holds the repository methods, each proved
  equal to one transaction on the tables; a run is any sequence of actions, so that lease expiry, crashes and late
  workers are ordinary runs; the theorems hold for every run from every consistent database at rest.
- **Memory policy and retention** (`MemoryPolicy`, `RetentionTables`, `RetentionStore`, `RetentionProtocol`,
  `RetentionInvariant`, `RetentionTheorems`, `RetentionWakeups`). Policy normalization and merging, policy writes,
  acceptances, the cleanup worker and recall filtering, built in the same way. An absent expiry is later than every time.
- **Department hierarchy** (`DepartmentForest`, `DepartmentMoves`, `DepartmentChecks`, `OrgTree`, `OrgHistory`).
  The walks and the stack search on arbitrary parent maps, the exactness of the checks on valid hierarchies (closed,
  acyclic, at most five levels), and the organisation tree built from the rows.
- **Lease stores** (`LeaseModel`, `LeaseRefinement`, `LeaseStore`). The in-memory store with its four indexes of
  shared lease objects, the SQL store with its token cache, and a simulation between the two.
- **Sweeps** (`Sweep`, `SweepWorkers`), **CBOR** (`Cbor`, `CborEncoding`, `CborRfc`, `CborReader`), **authorized pull**
  (`AuthorizedPull`) and **idempotency receipts** (`Idempotency`).

`dafny verify dfyconfig.toml` checks everything.

## Reading the model

- One tenant. Each database transaction is one atomic step. Time is a number that never decreases and that all parties
  share. A crash loses a worker's local variables. Upstream answers are arbitrary.
- Identifiers, digests and text that is only compared are numbers or strings; digests are injective; generated ids,
  owners and tokens are unused before.
- The order of job generations is the order of their insertion, which stands for `created_at`.
- A new row has `next_attempt` and `accepted_at` equal to the current time.
- In runs the delete request takes its SUBMISSION_UNKNOWN check (`knowledge_intake_service.py` line 543) and its status
  compare-and-set (line 576) as one step. `IngestionDeletion` treats the compare-and-set alone: it is final exactly
  when no job of the document carries a live lease, and a check that has become stale does not ensure that.
- In the protocol a claim may take any eligible job, which covers every outcome of SKIP LOCKED.
- Where a documented promise and the code differ, the model follows the code, and the exact condition is proved: a
  stale delete check (`DeleteIsFinalExactly`, `StaleDeleteCheckEscapes`), the wake-up bound that counts finishes only
  (`WriteKeepsBoundExactly`, `FinishBoundOrDue`), ids that a pull leaves over (`PullIsExact`), ids that cross kinds
  (`SecondPullIsEmpty`), incomplete scope arguments of a revoke and leases revoked by a clean-up
  (`RevokeAgreesExactly`, `ScopeAnswersAgreeExactly`), and in the CBOR reader flags in a wider form, keys that are
  equal to the host language only, duplicate keys and compound keys (`RfcEncodingLoads`, `LoadedBytesByRfc`).
- A data item of CBOR is written as the list of its map's pairs. Data items are compared up to the order of pairs where
  keys have to be different.

## Model

| member | source | states |
|---|---|---|
| IngestionStore.Repository.Create | server/manager_service/knowledge_intake_repository.py:91-119 | A new document and its first job appear together; every other row is untouched. |
| IngestionStore.Repository.InsertJob | server/manager_service/knowledge_intake_repository.py:223-230 | The new generation is appended unowned and not submitted, due at once. |
| IngestionStore.Repository.FindJobs | server/manager_service/knowledge_intake_repository.py:286-341 | None, the only one, or two distinct jobs of a reindex key, as the limited query does. |
| IngestionStore.Repository.PrepareReindex | server/manager_service/knowledge_intake_repository.py:286-341 | Inserts the receipt first and rolls it back with everything else when the status compare-and-set is lost; else receipt, job and status commit together. A known key changes nothing and is answered from its receipt: a conflict for another request, its job when exactly one belongs to its document and space, else reconciliation. |
| IngestionStore.Repository.NewestGeneration | server/manager_service/knowledge_intake_repository.py:343-362 | True exactly for the newest generation of its document. |
| IngestionStore.Repository.Claim | server/manager_service/knowledge_intake_repository.py:343-362 | Claims the eligible row that is due first, ties by id, for 90 s and with its attempt counted; none only when no row is eligible. |
| IngestionStore.Repository.FenceSubmission | server/manager_service/knowledge_intake_repository.py:371-382 | The fence is crossed exactly by an owner with a live lease on a job that was never submitted, together with the document status. |
| IngestionStore.Repository.RecordTrack | server/manager_service/knowledge_intake_repository.py:384-389 | Only the owner with a live lease records the track. |
| IngestionStore.Repository.Settle | server/manager_service/knowledge_intake_repository.py:391-415 | Job, document and receipt after a settlement, for every upstream state, with backoff, and nothing for a worker that lost its lease. |
| IngestionStore.Repository.PublishReady | server/manager_service/knowledge_intake_repository.py:579-623 | Publication commits job, document and receipt together, or rolls everything back. |
| IngestionStore.Repository.TransitionStatus | server/manager_service/knowledge_intake_repository.py:159-181 | A compare-and-set on the document status that sets or clears the error and touches nothing else. |
| IngestionInvariant.StepKeepsCore | server/manager_service/knowledge_intake_recovery.py:24-107 | Every step of every actor keeps the tables consistent (job shapes, older generations closed, document status against its newest job, receipts paired with jobs) and keeps what each worker knows of its row true. |
| IngestionInvariant.SettleKeepsTables | server/manager_service/knowledge_intake_repository.py:391-415 | A settlement that fits the row keeps all table invariants. |
| IngestionInvariant.PublishKeepsTables | server/manager_service/knowledge_intake_repository.py:595-623 | Publication keeps all table invariants. |
| IngestionInvariant.ReindexKeepsTables | server/manager_service/knowledge_intake_repository.py:286-341 | Preparing a reindex keeps all table invariants, replayed keys and lost compare-and-sets included. |
| IngestionTheorems.RunKeepsInv | server/manager_service/knowledge_intake_recovery.py:24-107 | The whole invariant, log included, holds in every state of every run. |
| IngestionTheorems.AtMostOnePost | server/manager_service/knowledge_intake_recovery.py:52-80 | In every interleaving with lease expiries, crashes and retries, at most one POST is sent per job, each after a fence crossed by the same worker; no job is fenced twice. |
| IngestionTheorems.FenceNeverReopens | server/manager_service/knowledge_intake_repository.py:371-415 | No run returns a job to not_submitted, and a closed job never changes again. |
| IngestionTheorems.NoWorkLost | server/manager_service/knowledge_intake_repository.py:343-362 | In every reachable state older generations are terminal and unowned, and every unfinished job is claimable again once its lease and next_attempt have passed, at the latest 256 s from now. |
| IngestionTheorems.PublicationCommits | server/manager_service/knowledge_intake_repository.py:595-620 | For an owner that reaches publication with a live lease every guard of that transaction holds; only a raised error can still roll it back. |
| IngestionTheorems.RecoveryCanFinish | server/manager_service/knowledge_intake_recovery.py:24-107 | From every state of the invariant each unfinished job can still be driven to done and its document to ready by a fresh worker. |
| IngestionTheorems.DeletionIsFinal | server/manager_service/knowledge_intake_service.py:574-586 | Once a document is deleting, no run of any workers, however late, takes it anywhere but deleted, and deleted is final. |
| IngestionTheorems.DeletedOnlyAfterProof | server/manager_service/knowledge_intake_service.py:710-872 | deleted is reached only after one reconciler found no upstream id, then cleaned the source, then marked the document, in this order. |
| IngestionDeletion.DeleteIsFinalExactly | server/manager_service/knowledge_intake_service.py:574-579 | The bare status compare-and-set is final, in every run from every state with these tables, if and only if no job of the document carries a live lease. |
| IngestionDeletion.DeleteCheckIsExact | server/manager_service/knowledge_intake_service.py:543-579 | In terms of the newest job: final if and only if that job is closed or its lease has run out. |
| IngestionDeletion.CheckMakesDeleteFinal | server/manager_service/knowledge_intake_service.py:543-545 | While the SUBMISSION_UNKNOWN check holds the compare-and-set is final, and every state where it is not is one that the check refuses. |
| IngestionDeletion.RunKeepsSealed | server/manager_service/knowledge_intake_service.py:574-579 | A retired document without a live lease stays retired in every run, even with an open job. |
| IngestionDeletion.StaleDeleteCheckEscapes | server/manager_service/knowledge_intake_service.py:543-579 | From every state of the invariant in which the check passes there is a run (a reindex, a lost POST, unknown answers up to the sixth attempt, one more claim) after which the check would refuse, the compare-and-set still fires, and a late settlement takes the document out of deleting. |
| IngestionDeletion.StaleDeleteHappens | server/manager_service/knowledge_intake_service.py:543-579 | Such a run from a concrete database at rest. |
| IngestionTheorems.ReceiptHasOneJob | server/manager_service/knowledge_intake_repository.py:286-341 | In every reachable state a reindex receipt has exactly one job, of its document and space, and is completed if and only if that job is done. |
| IngestionTheorems.ReplayCreatesNoJob | server/manager_service/knowledge_intake_repository.py:286-341 | Whatever happens later, a committed receipt keeps exactly its job. |
| MemoryPolicy.NormalizePolicy | server/manager_service/memory_policy_service.py:31-50 | The narrowing loops allow an operation exactly when the policy is enabled, every explicit operation set names it and no flag switches it off; an override of the retention replaces that of the value. |
| MemoryPolicy.StoredFormReadsBack | server/manager_service/memory_policy_service.py:31-50 | A normalized policy that is stored and normalized again is itself. |
| MemoryPolicy.NormalizeIsIdempotent | server/manager_service/memory_policy_service.py:31-50 | normalize_policy is idempotent on every input. |
| MemoryPolicy.PatchNeverEnlarges | server/manager_service/memory_policy_service.py:70-81 | A patch that names no operation set never enlarges the allowed operations of a normalized policy. |
| RetentionStore.Repository.WritePolicy | server/manager_service/memory_policy_service.py:101-151 | Setting, revision, guard and the shortened rows of one policy write, or no change at all when the patch is refused. |
| RetentionStore.Repository.Accept | server/manager_service/memory_retention_repository.py:28-47 | A first acceptance carries the deadline of its policy; a retry gets the stored row back unchanged; a changed revision or scope is refused. |
| RetentionStore.Repository.Claim | server/manager_service/memory_retention_repository.py:93-103 | Claims a due row with the earliest next attempt, and none only when no row is due. |
| RetentionStore.Repository.Settled | server/manager_service/memory_retention_repository.py:123-133 | Only the owner writes a terminal operation state; once written it can only be repeated. |
| RetentionStore.Repository.Finish | server/manager_service/memory_retention_repository.py:111-121 | Only the owner releases the row; the next attempt is pulled forward when the expiry changed during the claim. |
| RetentionStore.FilterRecall | server/manager_service/memory_retention_service.py:115-142 | The loops return exactly the facts with a proving row that was recallable when read and whose deadline has still not passed at the end. |
| RetentionStore.SurvivorHasReading | server/manager_service/memory_retention_service.py:115-142 | Every returned fact has a reading that admits it. |
| RetentionInvariant.StepKeepsInv | server/manager_service/memory_retention_service.py:218-276 | Every step of workers, policy writers and acceptances keeps the invariant, and every row changes only the way rows may. |
| RetentionTheorems.RowsOnlyAge | server/manager_service/memory_retention_repository.py:28-47 | Over every run expiry never rises, the acceptance time is fixed, a terminal operation state never changes and cleanup only advances. |
| RetentionTheorems.NeverAdmittedAgain | server/manager_service/memory_retention_service.py:115-142 | A row that expired, failed, was cancelled or left waiting is recallable in no later state under any policy. |
| RetentionTheorems.ExpiredNeverRecalled | server/manager_service/memory_retention_service.py:115-142 | After expiry every policy read is guarded and no filter_recall, whenever its rows are read, returns a fact of that document. |
| RetentionTheorems.WrittenDeadlineHolds | server/manager_service/memory_policy_service.py:137-146 | A finite policy write bounds every row of the employee for good, whatever policies follow. |
| RetentionTheorems.WrittenDeadlineNeverRecalled | server/manager_service/memory_retention_service.py:115-142 | After a finite write, from the written deadline on, every later policy is guarded and no filter_recall returns a fact of the row, whenever its rows are read; rows already cleaned included. |
| RetentionTheorems.AcceptedDeadlineHolds | server/manager_service/memory_retention_repository.py:28-47 | A row accepted under a finite policy is recallable at no time from that deadline on, whatever policies follow. |
| RetentionTheorems.AcceptedDeadlineNeverRecalled | server/manager_service/memory_retention_service.py:115-142 | The same at the filter: every later policy is guarded and no filter_recall returns a fact accepted under a finite policy past its deadline. |
| RetentionTheorems.RetryCannotRenew | server/manager_service/memory_retention_service.py:96-107 | A retry after the deadline gets the old row, writes nothing and is refused. |
| RetentionWakeups.NoLostWakeUp | server/manager_service/memory_retention_repository.py:111-121 | In every reachable state an uncleaned row is due again in time: by the larger of its current expiry and 256 s after it was last touched, also when a write shortened it during a claim. |
| RetentionWakeups.FinishBoundOrDue | server/manager_service/memory_retention_repository.py:111-121 | In every reachable state a completed, finitely expiring row meets the bound that counts finishes and acceptances only, or has already come up; the bound holds unless a policy write came later than it. |
| RetentionWakeups.WriteKeepsBoundExactly | server/manager_service/memory_policy_service.py:142-146 | A shortening write keeps that bound if and only if it comes no later than the bound, or the row was to come up by then. |
| RetentionWakeups.FinishBoundFails | server/manager_service/memory_policy_service.py:142-146 | A run from an empty ledger to a completed, unclaimed, finitely expiring row that breaks the bound. |
| RetentionWakeups.CleaningCanFinish | server/manager_service/memory_retention_service.py:218-276 | From every state a condemned row that is not cleaned can still be driven to cleaned by a fresh worker. |
| RetentionTheorems.InvalidationIsSound | server/manager_service/memory_retention_service.py:218-276 | Every invalidation in the log was for a fact proven by a row that had failed, was cancelled or had expired. |
| RetentionTheorems.SentOnlyForCondemned | server/manager_service/memory_retention_service.py:218-276 | At the moment of sending it is the current row, not the snapshot, that is condemned. |
| RetentionTheorems.InvalidatedNeverAdmitted | server/manager_service/memory_retention_service.py:218-276 | A fact whose invalidation was sent is never admitted to recall again. |
| RetentionTheorems.RevisionsHaveNoAba | server/manager_service/memory_policy_service.py:114-125 | Equal revisions of an employee mean equal normalized policies over the whole history. |
| RetentionTheorems.RetainRunsUnderLeasedPolicy | server/manager_service/hindsight_facade.py:54-65 | A retain that passes the revision check is accepted under exactly the policy its lease was issued from, with that policy's deadline. |
| DepartmentChecks.Meets | server/manager_service/department_tree.py:68-73 | The upward walk finds the target exactly when it is on the chain, and ends on cyclic maps too. |
| DepartmentChecks.DepthOf | server/manager_service/department_tree.py:28-35 | The number of nodes on the upward walk, on every map, cyclic ones included. |
| DepartmentChecks.ChildLists | server/manager_service/department_tree.py:40-43 | For each parent exactly its children. |
| DepartmentChecks.HeightOf | server/manager_service/department_tree.py:38-52 | The stack search ends on every map and, on a closed acyclic one, returns the true subtree height: attained and never exceeded. |
| DepartmentChecks.CheckParent | server/manager_service/department_tree.py:55-76 | Not found and invalid exactly when their causes hold; on a valid hierarchy a move is allowed if and only if the moved map is again a valid hierarchy, so the depth error is exact too. |
| DepartmentChecks.CheckPromote | server/manager_service/department_tree.py:79-101 | Not found exactly for unknown departments, invalid exactly for non-descendants; otherwise allowed if and only if the rearranged map is a valid hierarchy, which it returns. |
| DepartmentMoves.MoveIsExact | server/manager_service/department_tree.py:55-76 | The moved map is valid if and only if the target is outside the subtree and depth plus height is at most 5. |
| DepartmentMoves.MoveInsideIsInvalid | server/manager_service/department_tree.py:64-73 | Moving a department into its own subtree never gives a valid hierarchy. |
| DepartmentMoves.MoveToTopIsValid | server/manager_service/department_tree.py:60-61 | Moving to the top is always valid. |
| DepartmentMoves.CreateIsExact | server/manager_service/department_tree.py:55-76 | A new department fits if and only if its parent is above the last level. |
| DepartmentMoves.PromoteIsExact | server/manager_service/department_tree.py:96-101 | The rearranged map is valid if and only if the depth above plus the new height is at most 5. |
| DepartmentChecks.PromotionSwapsRoots | server/manager_service/department_tree.py:86-101 | Promotion keeps the nodes, and the child's new subtree is exactly the old subtree of the department. |
| DepartmentMoves.DeleteKeepsForest | server/manager_service/repository_member.py:164-200 | Deleting a department and moving its children up keeps the hierarchy valid. |
| DepartmentForest.WalkReachesTop | server/manager_service/department_tree.py:28-35 | On a closed acyclic map the walk ends at a top-level department. |
| DepartmentForest.ForestHasLabels | server/manager_service/department_tree.py:28-35 | On a valid hierarchy depth is 1 at the top and one more than the parent everywhere else. |
| DepartmentForest.LabelsMakeForest | server/manager_service/department_tree.py:28-35 | Any such labelling proves the map acyclic and equals the computed depth. |
| DepartmentForest.UnderIsAncestor | server/manager_service/department_tree.py:68-73 | Membership in a subtree by descent equals membership in the upward walk. |
| DepartmentChecks.Departments.constructor | server/manager_service/repository_member.py:81-94 | An empty hierarchy is valid. |
| DepartmentChecks.Departments.Create | server/manager_service/repository_member.py:81-94 | Keeps the hierarchy valid and accepts exactly the creations that do. |
| DepartmentChecks.Departments.Move | server/manager_service/repository_member.py:121-145 | Keeps the hierarchy valid and accepts exactly the moves that do. |
| DepartmentChecks.Departments.PromoteChild | server/manager_service/repository_member.py:147-162 | Keeps the hierarchy valid; the two updates together write the rearranged map. |
| DepartmentChecks.Departments.Delete | server/manager_service/repository_member.py:164-200 | Keeps the hierarchy valid; children move to the grandparent. |
| OrgTree.BuildTree | server/manager_service/org_service.py:36-90 | Every child list is its sub-departments in row order followed by its employees, the root list likewise with the unassigned node last. |
| OrgTree.PlaceEmployee | server/manager_service/org_service.py:48-65 | An employee is appended to each listed existing department. |
| OrgTree.InsertDepartment | server/manager_service/org_service.py:80-81 | A sub-department goes behind the sub-departments and before the employees. |
| OrgTree.NestDepartments | server/manager_service/org_service.py:72-81 | Every department goes to its stored parent, or to the root when that is missing or itself. |
| OrgTree.DepartmentOnce | server/manager_service/org_service.py:36-90 | On a valid hierarchy every department has exactly one position in the tree. |
| OrgTree.DepartmentsComeFirst | server/manager_service/org_service.py:79-81 | In every child list all departments come before all employees. |
| OrgTree.EmployeePlacement | server/manager_service/org_service.py:46-65 | An employee stands under each valid department as often as it lists it, under unassigned once exactly when it lists none, and never at the root. |
| OrgHistory.HistoryIsForest | server/manager_service/department_tree.py:55-101 | Every history of accepted creations, moves, promotions and removals leaves a valid hierarchy. |
| OrgHistory.EveryDepartmentOnce | server/manager_service/org_service.py:36-90 | After every such history the tree holds every department at exactly one position. |
| LeaseStore.HindsightLease.Revoke | server/manager_service/hindsight_credentials.py:61-87 | Revoking keeps an earlier revocation time. |
| LeaseStore.HindsightLeaseStore.constructor | server/manager_service/hindsight_credentials.py:124-142 | The store starts empty, with its indexes in agreement. |
| LeaseStore.HindsightLeaseStore.Issue | server/manager_service/hindsight_credentials.py:144-195 | Hands out the active lease again exactly when all its conditions hold, else retires it and enters the next version in all four indexes, which share the lease object; with a fresh token the indexes stay in agreement. |
| LeaseStore.HindsightLeaseStore.Get | server/manager_service/hindsight_credentials.py:197-199 | The stored lease of that id, or none. |
| LeaseStore.HindsightLeaseStore.Revoke | server/manager_service/hindsight_credentials.py:201-224 | Revokes a lease that every given scope argument fits, drops it from the scope index only if it is the active one, and keeps the indexes in agreement. |
| LeaseStore.HindsightLeaseStore.RevokeScope | server/manager_service/hindsight_credentials.py:226-234 | Revokes and drops the active lease of the scope, if any, and keeps the indexes in agreement. |
| LeaseStore.HindsightLeaseStore.Resolve | server/manager_service/hindsight_credentials.py:236-248 | Unauthorized, forbidden or the lease, by the stored row and the time. |
| LeaseStore.HindsightLeaseRepository.constructor | server/manager_service/hindsight_lease_repository.py:75-98 | The table and the token cache start empty. |
| LeaseStore.HindsightLeaseRepository.SelectNewest | server/manager_service/hindsight_lease_repository.py:126-131 | The row of the scope with the greatest version, or none when the scope has no row. |
| LeaseStore.HindsightLeaseRepository.Issue | server/manager_service/hindsight_lease_repository.py:100-186 | Reuses or rotates by the newest row and the cached token; versions stay distinct and digests unique. |
| LeaseStore.HindsightLeaseRepository.Revoke | server/manager_service/hindsight_lease_repository.py:206-251 | Revokes the row when complete arguments name its scope, or when they are incomplete. |
| LeaseStore.HindsightLeaseRepository.RevokeScope | server/manager_service/hindsight_lease_repository.py:253-282 | Revokes every unrevoked row of the scope and nothing else, and returns one of them, or none when there was none. |
| LeaseStore.HindsightLeaseRepository.Resolve | server/manager_service/hindsight_lease_repository.py:284-319 | Unauthorized, forbidden or the lease, by the row with that digest and the given scope arguments. |
| LeaseStore.HindsightLeaseRepository.CleanupExpired | server/manager_service/hindsight_lease_repository.py:321-330 | Marks exactly the expired unrevoked rows, at their expiry, and counts them. |
| LeaseRefinement.MemIssueKeeps | server/manager_service/hindsight_credentials.py:144-195 | Issuing keeps the id, token and scope indexes in agreement, with only the newest version unrevoked. |
| LeaseRefinement.MemRevokeKeeps | server/manager_service/hindsight_credentials.py:201-224 | Revoking keeps the indexes in agreement. |
| LeaseRefinement.MemRevokeScopeKeeps | server/manager_service/hindsight_credentials.py:226-234 | Revoking a scope keeps the indexes in agreement and leaves no active lease. |
| LeaseRefinement.RunKeepsMem | server/manager_service/hindsight_credentials.py:121-248 | The id, token and scope indexes agree after every run, whatever arguments the revokes are given. |
| LeaseRefinement.RevokeAgreesExactly | server/manager_service/hindsight_lease_repository.py:206-251 | Both stores answer a revoke alike if and only if incomplete scope arguments do not name another scope than the lease's. |
| LeaseRefinement.PartialRevokeDiffers | server/manager_service/hindsight_lease_repository.py:206-251 | A run from empty stores in which such a revoke is answered differently. |
| LeaseRefinement.ScopeAnswersAgreeExactly | server/manager_service/hindsight_lease_repository.py:253-282 | Both stores return the same lease from a scope revocation if and only if the active lease of the scope, when there is one, is still unrevoked in the table. |
| LeaseRefinement.CleanedScopeDiffers | server/manager_service/hindsight_lease_repository.py:321-330 | A run with a clean-up after which the two answers differ. |
| LeaseRefinement.RunAgrees | server/manager_service/hindsight_lease_repository.py:100-330 | The simulation between the two stores holds over every run whose revokes give all scope arguments or none. |
| LeaseRefinement.StoresAnswerAlike | server/manager_service/hindsight_credentials.py:121-248 | Over every run from empty stores, both give the same answers to issue, revoke and resolve, with clean-ups at any time. |
| LeaseRefinement.OnlyNewestIsUnrevoked | server/manager_service/hindsight_credentials.py:144-234 | After every run versions of a scope are distinct and only the highest can be unrevoked, in the SQL store as well. |
| LeaseRefinement.VersionsIncrease | server/manager_service/hindsight_credentials.py:170-172 | After every run a new lease has a version above all earlier ones of its scope; a reused one is active and has the highest. |
| LeaseRefinement.CleanupIsInvisible | server/manager_service/hindsight_lease_repository.py:321-330 | Cleaning up changes no later resolve. |
| Sweep.PageIsLowerPart | server/manager_service/knowledge_intake_recovery.py:118-151 | The bounded inventory is ascending, as long as the limit allows, and the lower part of the due tenants. |
| Sweep.SweepConsumes | server/manager_service/knowledge_intake_recovery.py:153-192 | After a sweep exactly the unvisited part of its inventory lies ahead of the cursor. |
| Sweep.SweepIsFair | server/manager_service/knowledge_intake_recovery.py:153-192 | With n tenants staying due each is visited within 2 * ceil(n / b) sweeps of budget b, from any cursor, whatever the turns come to. |
| Sweep.SweepIsFairThroughShifts | server/manager_service/knowledge_intake_recovery.py:153-192 | Whichever of the other n - 1 tenants come and go, a tenant that stays due is visited within n sweeps. |
| Sweep.ShiftsCanTakeAllSweeps | server/manager_service/knowledge_intake_recovery.py:153-192 | That bound is tight: for every n a shifting due set keeps a due tenant waiting through n - 1 sweeps. |
| SweepWorkers.DueTenantIds | server/manager_service/knowledge_intake_recovery.py:118-151 | The due tenants after the cursor, ascending, between 1 and 64 of them by the limit. |
| SweepWorkers.KnowledgeIntakeRecovery.MaintainAll | server/manager_service/knowledge_intake_recovery.py:153-192 | At most eight tenants, each at most once, in order; the cursor ends on the last one even if its turn failed. |
| SweepWorkers.MemoryRetentionWorker.MaintainOnce | server/manager_service/memory_retention_service.py:159-216 | At most sixteen tenants, one claim each, in order; the time limit cuts the tick short between tenants, or between the move of the cursor and the claim. |
| SweepWorkers.MemoryRetentionWorker.MaintainTenant | server/manager_service/memory_retention_service.py:169-216 | A targeted call takes up to sixteen jobs and stops exactly at the first claim that finds none or fails, or at the limit. |
| Cbor.ItemAt | server/manager_service/passkey_ceremony.py:84-107 | Position and item reads stay bounded: an item that ends begins no more reads than it takes bytes, one that fails at most one more than are left. |
| Cbor.Loads | server/manager_service/passkey_ceremony.py:123-128 | On any input at most len(data) + 1 item reads begin, whatever lengths the headers claim, and a success takes all the bytes. |
| Cbor.LookupPut | server/manager_service/passkey_ceremony.py:100-100 | Storing in a dictionary changes exactly the equal keys, with true equal to 1. |
| Cbor.BigEndianRoundTrip | server/manager_service/passkey_ceremony.py:109-120 | A big-endian argument is read back. |
| CborReader.Reader.Read | server/manager_service/passkey_ceremony.py:77-82 | Takes exactly n bytes or refuses without moving. |
| CborReader.Reader.Val | server/manager_service/passkey_ceremony.py:109-120 | The argument of every width, or the error. |
| CborReader.Reader.Item | server/manager_service/passkey_ceremony.py:84-107 | Value, position, error and number of item reads are those of the specification. |
| CborReader.Reader.Items | server/manager_service/passkey_ceremony.py:97-98 | The counted loop reads the items in order. |
| CborReader.Reader.Entries | server/manager_service/passkey_ceremony.py:99-100 | The counted loop stores entry after entry; an equal key keeps its place and takes the last value. |
| CborReader.LoadBytes | server/manager_service/passkey_ceremony.py:123-128 | The result of the specification, trailing bytes refused. |
| CborEncoding.EncodingLoads | server/manager_service/passkey_ceremony.py:72-128 | Every encoding that the reader knows, in any argument widths, loads as the value its dictionary store makes of it. |
| CborRfc.LoadsExactly | server/manager_service/passkey_ceremony.py:72-128 | A well-formed encoding loads if and only if no map in it has an array or a map for a key. |
| CborRfc.RfcEncodingLoads | server/manager_service/passkey_ceremony.py:72-128 | A well-formed definite-length encoding (section 3 of RFC 8949) loads as its data item, with all pairs of all its maps, if and only if at every level the keys are scalar and differ for the host language, to which true is 1. |
| CborEncoding.OnlyEncodingsLoad | server/manager_service/passkey_ceremony.py:72-128 | Whatever loads is one of the encodings the reader knows, of exactly the value returned. |
| CborRfc.EncodeIsInjective | server/manager_service/passkey_ceremony.py:72-128 | No two well-formed encodings share their bytes. |
| CborRfc.LoadedBytesByRfc | server/manager_service/passkey_ceremony.py:72-128 | Bytes that load are a valid encoding of the value returned (keys of every map different data items) if and only if no flag in them is written in a wider form and at every level the keys differ for the host language. |
| CborRfc.MergedKeysHappen | server/manager_service/passkey_ceremony.py:99-100 | a2 01 00 f5 00, the valid map {1: 0, true: 0}, loads as one pair. |
| CborRfc.DuplicateKeysHappen | server/manager_service/passkey_ceremony.py:99-100 | a2 00 00 00 01 has a key twice, is no valid encoding of anything, and loads. |
| CborRfc.ArrayKeyHappens | server/manager_service/passkey_ceremony.py:99-100 | a1 80 00, the valid map {[]: 0}, is refused. |
| CborRfc.MapLoads | server/manager_service/passkey_ceremony.py:99-100 | Without keys equal to the host language at any level, an encoding that the reader knows loads as its data item, nested maps included. |
| CborRfc.TopMapLoads | server/manager_service/passkey_ceremony.py:99-100 | A map whose own keys differ loads as exactly its entries, in order, whatever lies inside them. |
| CborRfc.WideFlagLoads | server/manager_service/passkey_ceremony.py:101-107 | The reader takes 20, 21 and 22 for false, true and null in every width; that is an encoding by the RFC only in the initial byte (the one-byte form is ill-formed, the longer ones are floats). |
| AuthorizedPull.Pull | server/manager_service/authorized_config_service.py:96-165 | The loops return exactly the authorized employees and solutions that are not known in an accepted version, in inventory order, and the known ids to drop. |
| AuthorizedPull.PullMatchesView | server/manager_service/authorized_config_service.py:96-165 | After applying a pull the client holds exactly the authorized view and the known ids left over. |
| AuthorizedPull.PullIsExact | server/manager_service/authorized_config_service.py:161-165 | It holds exactly the view if and only if no known id is named by an expert grant while existing only as an unauthorized solution. |
| AuthorizedPull.LeftOverHappens | server/manager_service/authorized_config_service.py:161-165 | A tenant and member for which such an id stays. |
| AuthorizedPull.ExemptPullIsExact | server/manager_service/authorized_config_service.py:105-107 | For an exempt role it always holds exactly the view. |
| AuthorizedPull.SecondPullRevokesNothing | server/manager_service/authorized_config_service.py:161-165 | An immediate second pull revokes nothing, whatever the client held. |
| AuthorizedPull.SecondPullIsEmpty | server/manager_service/authorized_config_service.py:96-165 | An immediate second pull is empty if and only if no authorized employee and solution share an id with clashing markers. |
| AuthorizedPull.ClashHappens | server/manager_service/authorized_config_service.py:96-165 | A tenant and member for which no second pull is ever empty. |
| Idempotency.ManagerIdempotencyRepository.Execute | server/manager_service/idempotency_repository.py:62-112 | One transaction: replay, conflict, effect with completed receipt, or nothing. |
| Idempotency.RunKeeps | server/manager_service/idempotency_repository.py:62-112 | One open transaction per key, receipts completed, answers and effects in agreement with them, in every run. |
| Idempotency.EffectCommitsOnce | server/manager_service/idempotency_repository.py:62-112 | In every run of concurrent executes the effect of a key commits at most once, and no committed receipt is pending. |
| Idempotency.SuccessesAgree | server/manager_service/idempotency_repository.py:91-112 | All successes for a key carry the same payload and fingerprint. |
| Idempotency.CommittedKeyIsAnswered | server/manager_service/idempotency_repository.py:91-98 | After the commit every execute of the key is answered at once: the first payload for its fingerprint, a conflict for any other, and no effect. |

## Left out

- HTTP, SQL text, routes, lifespans, logging, audit rows, and the cryptography of passkeys and tokens.
- Ingestion: delete receipts and their retry rules, binding rows, text and chunk counts, timestamps that no guard reads, and error messages.
- Ingestion: the direct writers `mark_done`, `mark_failed` and `update_status`, and publication without a claim owner, which are not on the recovery path.
- IngestionTheorems.NoWorkLost: does not cover legacy jobs (`file_source` equal to `document_id`), because the code parks those with several generations for an operator; they are part of the initial states and of the theorems on POSTs, deletion and receipts.
- IngestionTheorems.RecoveryCanFinish: says that a finishing run exists; that the upstream ever answers is not assumed.
- RetentionWakeups.NoLostWakeUp: the time of the last touch includes policy writes; the bound without them is false, and `FinishBoundOrDue` says what holds instead.
- RetentionTheorems.WrittenDeadlineNeverRecalled: covers policies in force at acceptance or written later; a policy replaced before a row was accepted does not bind that row.
- MemoryPolicy: the host language's equality of 1 and true in comparisons of stored policies.
- Retention: profile and edit checks, schema fingerprints, batch digests and the validation of upstream responses.
- OrgTree.BuildTree: display names and roles are not modelled, and an empty parent id counts as none.
- Departments: assignments that a deletion removes from users, employees and grants.
- LeaseRefinement.StoresAnswerAlike: stores without a restart, after which the SQL store rotates because it has lost its raw tokens; revokes with all or none of the scope arguments, since the stores differ otherwise (`RevokeAgreesExactly`); the lease that a scope revocation returns is compared by `ScopeAnswersAgreeExactly` instead. Concurrency is left to the stores' locks.
- Sweep.SweepIsFair: for the retention worker only while its 20 s limit does not cut a tick short; a tick that is cut between the move of its cursor and the claim skips that tenant.
- CborReader.Reader.Item: the host language's recursion limit is not modelled; UTF-8 decoding is a parameter.
- AuthorizedPull.Pull: the content of delivered items and skill packages; versions and markers are opaque.
- Idempotency: normalization of keys and fingerprinting of requests.
- Employee prompts and their versions, memory analytics, employee lifecycle and role tables, connectors, billing, avatars and the repositories without shared protocols.
