# DataGenie catalog and quality: a verified model

DataGenie's catalog service keeps technical metadata that connectors discover, lets stewards curate it,
and changes it on behalf of governance proposals; its quality service judges assets by declarative rules.
This project models the state machines and reconciliation algorithms behind those services in Dafny and
proves what every run of them keeps.

The database is a value of maps and sequences. A service call works on an open `Session`, whose commit
publishes everything and whose rollback discards everything; where a store failure can strike is an input
of the call. The clock is an input too. The code that changes things step by step (the column, field and
asset loops of reconciliation, the proposal workflow, the job record, the rate limiter's deque, discovery,
rule updates and quality runs, the idempotency table, reindexing) is a class or a session method with its
loops, proved equal to a transition function. The theorems are about those functions, over single calls
and over whole runs.

| files | what they model |
|---|---|
| Values, Assets, Store | shared values, the asset row and its history, the database and its session |
| Columns, Reconcile, Ingestion | column diff and merge, reconciliation of discovered assets, and both in place |
| Curation, History | direct curation, and the version history as a reversible log |
| Policy, Proposals, ProposalService | the access decisions, the proposal workflow as transitions and as session calls |
| Protocol, Execution | which moves of a proposal are legal, and when each call succeeds, exactly |
| Runs, Reachable | runs of governance, curation and discovery, their invariant and their safety theorems |
| Snowflake, PartialSync, IncrementalSync | the watermark connector, and incremental against full synchronization |
| Jobs, JobProtocol, JobTheorems, IngestionJobs | the job record, its lease protocol, and jobs with cursors and catalog |
| SearchIndex, Search, IndexAgreement, Indexability | the search document, scan and index search, their agreement over runs, and what documents do not take |
| RateLimit | the sliding-window limiter |
| QualityRules, QualityScore, Quality, QualityService, QualityLedger | rules and their evaluation, the weighted score, the stored state, its operations in place, and the rule-version ledger |
| Idempotency | replay and recording of responses |

Five promises turn out to fail in a corner of the code. Each has a lemma with an input that shows it and
the exact condition under which the promise holds:

- A change to an unknown domain, a text with a NUL or an owner too long for its column passes the creation
  check of a proposal; its confirmed execution answers 503 and leaves the proposal APPROVED, in a run from
  the empty database. So does an execution with a hash that is not ASCII (`Reachable.GapIsReachable`,
  `Execution.UnstorableDiffs`, `Execution.ExecuteIsDecisive`). And a failed confirmation under a request id
  of more than 128 characters, a header that nobody checks, blocks nothing and may be repeated
  (`Reachable.RetryIsReachable`, `Execution.WrongNonceStaysApproved`).
- A tag with a NUL passes the creation check and is stored, as JSON. The search document is a text: from
  its execution on every discovery pass over the asset fails (`Indexability.MutingIsReachable`,
  `Indexability.UnindexableFailsPasses`, `Indexability.UnindexableOnlyAfterExecution`).
- Replays and cancellations read a job without locking it. A replay that commits over a live attempt lets a
  second one start (`JobTheorems.StaleReplayBreaksExclusion`, `JobProtocol.StepKeepsGuard`); a stale
  cancellation or replay separates the lease from RUNNING (`JobTheorems.StepKeepsPairing`), or the cursor
  from its successful job (`IngestionJobs.StaleCancelBreaksAgreement`,
  `IngestionJobs.StaleReplayBreaksAgreement`, `IngestionJobs.StepKeepsSound`).
- An update that sets a rule's parameters to null skips their check and is stored; every run that reaches
  the rule fails. So does a run with an infinite z-score or an integer that no float holds
  (`QualityLedger.UpdateChecksParameters`, `QualityLedger.RunsSucceedExactly`).
- The unique constraint of idempotency records leaves the tenant out (`Idempotency.StoreIsExact`,
  `Idempotency.SharedKeyRunsTwice`).

Also against its docstring, the lease does not by itself permit recovery after a lost worker: the requeued
message is dropped while the lease lasts (`JobTheorems.RecoveryIsExact`, `JobTheorems.StrandedForever`).
And `connector_max_retries` above Celery's own limit, 3 unless a task sets another, which this one does not,
ends a chain silently: FAILED, with a retry time and no message (`JobTheorems.ChainsEndDeadLettered`).

`dafny verify dfyconfig.toml` checks the whole project.

## Model

| member | source | states |
|---|---|---|
| Columns.DiffIsExact | apps/catalog-api/app/services/ingestion_service.py:85-107 | the change record applied to the old columns (by name) gives the new ones, its inverse gives the old ones back, and it is empty if and only if the two agree |
| Columns.MergeIsDiscovered | apps/catalog-api/app/services/ingestion_service.py:85-107 | after the append, update and remove loops the list has no repeated name and holds exactly the discovered columns |
| Columns.MergeOfSame | apps/catalog-api/app/services/ingestion_service.py:85-107 | discovering the columns that are there leaves the very list as it was, order included |
| Columns.SideViews | apps/catalog-api/app/services/ingestion_service.py:91-105 | "created" and "removed" are the two differences of the column dictionaries, with their values |
| Columns.UpdatedViews | apps/catalog-api/app/services/ingestion_service.py:96-100 | "updated" has one entry for each shared name whose column differs, with the column before and after |
| Ingestion.AssetRecord.SyncFields | apps/catalog-api/app/services/ingestion_service.py:149-154 | the field loop leaves the incoming technical fields and reports exactly the fields that differed |
| Ingestion.AssetRecord.UpsertColumns | apps/catalog-api/app/services/ingestion_service.py:90-100 | the first loop updates known columns in place and appends new ones, and reports both |
| Ingestion.AssetRecord.RemoveColumns | apps/catalog-api/app/services/ingestion_service.py:102-105 | the second loop removes the columns that were not discovered and no other, and reports them |
| Ingestion.AssetRecord.SyncColumns | apps/catalog-api/app/services/ingestion_service.py:85-107 | both loops together leave the merge of old and discovered columns and return their exact difference |
| Ingestion.AssetRecord.Absorb | apps/catalog-api/app/services/ingestion_service.py:149-171 | an existing asset takes fields, columns and timestamps; its version grows by one, with one version row, if and only if something differed |
| Ingestion.AbsorbOne | apps/catalog-api/app/services/ingestion_service.py:122-175 | one discovered asset is created or updated and reindexed in the open session, or the session is as before |
| Ingestion.SynchronizeDiscovery | apps/catalog-api/app/services/ingestion_service.py:110-176 | the loop over all discovered assets leaves the session and the counters as the reconciliation function says, or reports the violation |
| Reconcile.RediscoverIsExact | apps/catalog-api/app/services/ingestion_service.py:149-174 | a rediscovered asset is current and keeps all steward-owned fields; the pass is silent if and only if it was current before |
| Reconcile.SynchronizeIsCorrect | apps/catalog-api/app/services/ingestion_service.py:110-176 | for every input: a pass succeeds if and only if each new key is new once with distinct column names, every item fits the columns of its rows, what the steward of each known asset has said fits its search document, and no document is added twice before a flush; then each key shows its last discovery, other assets, documents and all curated fields are untouched, and created + updated + unchanged = discovered |
| Reconcile.SynchronizeIsIdempotent | apps/catalog-api/app/services/ingestion_service.py:110-176 | repeating a pass of distinct keys reports everything unchanged and writes nothing but the two timestamps, no version row |
| Reconcile.RepeatedKeyIsNotIdempotent | apps/catalog-api/app/services/ingestion_service.py:119-174 | distinctness is needed: two differing items of one known and indexed key that its rows take are reported as updates by every repeated pass |
| Reconcile.AbsorbAllOfCurrent | apps/catalog-api/app/services/ingestion_service.py:149-174 | a pass over indexed assets that are all current, and whose rows take them, changes timestamps only |
| History.UndoRedoAll | apps/catalog-api/app/services/ingestion_service.py:127-171 | undoing version rows in reverse gives back the state they were applied to |
| History.RediscoverGrows | apps/catalog-api/app/services/ingestion_service.py:149-171 | a rediscovery extends an asset's history by a row that leads from the old state to the new one |
| History.AbsorbAllGrows | apps/catalog-api/app/services/ingestion_service.py:110-176 | a whole pass only extends histories, and starts each new asset from a creation row |
| History.EditedGrows | apps/catalog-api/app/services/catalog_service.py:92-110 | a direct curation appends a row whose "before" is the state it replaced |
| History.CurateGrows | apps/catalog-api/app/services/proposal_service.py:334-341 | an executed curation appends a row, of the other shape, whose "before" is the state it replaced |
| History.HistoryIsFaithful | apps/catalog-api/app/services/ingestion_service.py:127-171 | an asset that descends from its creation has as its version the number of its DISCOVERY rows; replaying its rows from the creation row gives its technical fields, columns and curated fields, and undoing them leads back |
| Reachable.EveryHistoryIsFaithful | apps/catalog-api/app/models/catalog.py:209-248 | the history of every asset of every reachable state is such a log |
| Curation.AssignFields | apps/catalog-api/app/services/catalog_service.py:93-99 | the field loop sets what differs and remembers for each field what it replaced |
| Curation.CurationIsExact | apps/catalog-api/app/services/catalog_service.py:92-110 | direct curation sets exactly the submitted values, and is silent if and only if they are all there |
| Curation.UpdateAssetCuration | apps/catalog-api/app/services/catalog_service.py:92-126 | direct curation commits fields, curation time, version row and search document together, or nothing, be it because a column or the document does not take its text |
| Policy.StewardGateIsPolicy | apps/catalog-api/app/services/policy_service.py:153-165 | for approving and executing, whatever classification, lifecycle, purpose or time, the policy allows exactly the stewards of the session's tenant on a visible asset |
| Policy.CreationPolicy | apps/catalog-api/app/services/policy_service.py:262-374 | creation is open exactly to callers with a role in the session's tenant on a visible asset |
| Policy.RolesAreMonotone | apps/catalog-api/app/services/policy_service.py:422-470 | more roles never change a decision that was not a denial |
| Policy.ReadingIsGuarded | apps/catalog-api/app/services/policy_service.py:262-374 | reading is plainly allowed if and only if the asset is neither deprecated nor sensitive and, if certified, of fresh quality; a sensitive asset needs a permitted purpose and carries obligations |
| Policy.OwnershipAndEvidence | apps/catalog-api/app/services/policy_service.py:262-374 | curating is for stewards and the asset's own owner; certifying stale quality always needs a human approval |
| ProposalService.CreateProposal | apps/catalog-api/app/services/proposal_service.py:176-240 | creation by the session's steps commits and answers what its transition says, under every store failure |
| ProposalService.OpenReview | apps/catalog-api/app/services/proposal_service.py:252-258 | the gates of a review: steward, tenant, lazy expiry committed, still pending |
| ProposalService.ApproveProposal | apps/catalog-api/app/services/proposal_service.py:251-280 | approval commits and answers what its transition says, under every store failure |
| ProposalService.RejectProposal | apps/catalog-api/app/services/proposal_service.py:283-302 | rejection commits and answers what its transition says, under every store failure |
| ProposalService.CancelProposal | apps/catalog-api/app/services/proposal_service.py:305-323 | cancellation commits and answers what its transition says, under every store failure |
| ProposalService.ExpireIfDue | apps/catalog-api/app/services/proposal_service.py:145-151 | an open proposal past its deadline, and no other, becomes EXPIRED without nonce and confirmation deadline |
| ProposalService.BlockExecution | apps/catalog-api/app/services/proposal_service.py:355-362 | a block is committed with its audit event, or nothing is |
| ProposalService.AssignFields | apps/catalog-api/app/services/proposal_service.py:335-341 | the field loop of an executed curation sets exactly what the diff names and keeps what it replaced |
| ProposalService.ApplyTypedChange | apps/catalog-api/app/services/proposal_service.py:334-352 | the one change an executed proposal makes, for each of the three types |
| ProposalService.RecheckConfirmation | apps/catalog-api/app/services/proposal_service.py:374-388 | expiry, status, approver, hash, nonce and confirmation window in their order: which refuse, which block on the spot, which leave the block to the handler, and that a hash that is not ASCII raises |
| ProposalService.RecheckResource | apps/catalog-api/app/services/proposal_service.py:389-397 | the rechecks of resource, version and policy, and what each leaves behind |
| ProposalService.Recheck | apps/catalog-api/app/services/proposal_service.py:374-397 | all rechecks come to the verdict of the specification, with what each has raised, committed and left in the session |
| ProposalService.Reauthorize | apps/catalog-api/app/services/proposal_service.py:391-397 | the last recheck: any decision but ALLOW is audited and blocks |
| ProposalService.Confirm | apps/catalog-api/app/services/proposal_service.py:398-411 | change, terminal status and audit event are committed together or, when the store fails or a column does not take the change, not at all |
| ProposalService.TryExecute | apps/catalog-api/app/services/proposal_service.py:374-411 | the try block as a whole: the change is made exactly after every recheck passed and if it can be stored |
| ProposalService.BlockAfterFailure | apps/catalog-api/app/services/proposal_service.py:412-424 | the handler of a failed recheck blocks a proposal that is still APPROVED |
| ProposalService.ExecuteProposal | apps/catalog-api/app/services/proposal_service.py:365-427 | execution commits and answers what its transition says, for every exception path and store failure |
| Protocol.EveryCallIsLegal | apps/catalog-api/app/services/proposal_service.py:176-427 | whoever calls whatever, with any store failures: nothing is committed, or one checked proposal is added, or one row makes one legal move that is audited by exactly one event naming caller and action (none for a lazy expiry), and only a move to EXECUTED touches anything else |
| Protocol.ExecuteIsLegal | apps/catalog-api/app/services/proposal_service.py:365-427 | the same for execution, whose rechecks, blocks and typed change are spread over a try and two handlers |
| Protocol.ApproveIsLegal | apps/catalog-api/app/services/proposal_service.py:251-280 | the same for approval |
| Execution.CreateIsExact | apps/catalog-api/app/services/proposal_service.py:109-240 | without store failures, creation succeeds if and only if the asset is the tenant's, the payload passes the check, its texts fit the columns of the row, the caller has a role in the tenant, and the audit trail takes the caller's name and request id |
| Execution.ApproveIsExact | apps/catalog-api/app/services/proposal_service.py:251-280 | approval succeeds if and only if a steward of the tenant finds the proposal pending and in time and its asset visible, with a note free of NUL and a name and request id that the audit trail takes; it answers the nonce whose digest it stores |
| Execution.RejectIsExact | apps/catalog-api/app/services/proposal_service.py:283-302 | rejection succeeds if and only if a steward of the tenant finds the proposal pending and in time, with a note free of NUL and a name and request id that the audit trail takes |
| Execution.CancelIsExact | apps/catalog-api/app/services/proposal_service.py:305-323 | cancellation succeeds if and only if the proposal is open, the caller its initiator or a steward, and name and request id fit the audit trail; the expiry is not looked at |
| Execution.ExecuteIsExact | apps/catalog-api/app/services/proposal_service.py:365-411 | without store failures, a steward's execution succeeds if and only if the proposal is APPROVED, unexpired, confirmed by its approver with the right hash and a live nonce at the matching version of a visible asset, every column takes its new value (texts short enough and free of NUL, the domain null or one that exists), and the audit trail takes name and request id |
| Execution.ExecuteIsDecisive | apps/catalog-api/app/services/proposal_service.py:374-427 | every other execution of an APPROVED proposal by a steward of its tenant leaves it BLOCKED, without nonce, catalog and requests untouched, if and only if it does not raise and name and request id fit the audit trail; else it changes nothing. The calls that raise are a hash that is not ASCII by the approver in time, and a confirmed change that a column, or whose policy decision the audit trail, does not take. It answers the first recheck that failed, or 503 if it raises or if a block for coming too late cannot be recorded |
| Execution.OnlyConfirmedExecutes | apps/catalog-api/app/services/proposal_service.py:365-411 | with any store failures, whatever call makes a proposal EXECUTED is an execution call for it by a steward, confirmed with its hash, its live nonce, in time and at its version |
| Execution.UnstorableDiffs | apps/catalog-api/app/services/proposal_service.py:109-118 | three diffs that pass the creation check and that the store refuses: a domain that does not exist, a description with a NUL, an owner of more than 255 characters |
| Execution.UnstorableStaysApproved | apps/catalog-api/app/services/proposal_service.py:176-411 | whatever passes the creation check but not the columns can be created and approved, its confirmed execution answers 503, and the proposal stays APPROVED with its nonce alive |
| Reachable.GapIsReachable | apps/catalog-api/app/models/catalog.py:233 | that happens in a run from the empty database: a discovered table, a proposal to put it into an unknown domain, its approval, and its confirmed execution, which changes nothing |
| Execution.WrongNonceStaysApproved | apps/catalog-api/app/services/proposal_service.py:412-424 | under a request id of more than 128 characters the approver's wrong nonce is answered 409 and blocks nothing: the database stays as it was, for every later guess |
| Reachable.RetryIsReachable | apps/catalog-api/app/main.py:67-69 | that too happens in a run from the empty database, and the right nonce still executes the proposal afterwards |
| Reachable.EveryRunIsSound | apps/catalog-api/app/services/proposal_service.py:78-427 | in every state that governance calls, direct curations and discovery passes can reach from an empty database: nonce digest and confirmation deadline are present exactly while APPROVED, approval_version is at most 1, the hash is that of the unchanged intent, which passed the check, an executed proposal was executed by its approver before its expiry, each proposal has one audit event for its creation and one for each audited transition, and each executed proposal left exactly one trace of its change |
| Reachable.ProposalsOnlyAdvance | apps/catalog-api/app/services/proposal_service.py:145-362 | between any two states of a run: what a proposal says is frozen, a terminal proposal is frozen altogether, each committed change climbs the ranks so that there are at most two, and audit events grow by the committed changes other than lazy expiries |
| Reachable.ExecutedExactlyOnce | apps/catalog-api/app/services/proposal_service.py:365-411 | in every run each EXECUTED proposal was executed by exactly one step: an execution call for it by the steward who had approved it, presenting its hash and its live nonce before both deadlines, at the version it was proposed for, and that step made exactly the change checked at creation |
| Reachable.ExecutedCurationIsBounded | apps/catalog-api/app/services/proposal_service.py:109-118 | an executed curation changes one asset, and there nothing but the description, tags, owner and domain that the diff names, the curation time and one version row |
| Reachable.ExecutedRequestIsFiled | apps/catalog-api/app/services/proposal_service.py:342-351 | an executed certification review or schedule leaves the catalog as it was and files exactly one request, in the initiator's name, with what the checked diff says |
| Reachable.StepKeepsInvariant | apps/catalog-api/app/services/proposal_service.py:176-427 | every single step keeps the invariant of the database and only extends histories |
| Runs.MovedKeepsAudit | apps/catalog-api/app/services/proposal_service.py:78-99 | a legal move keeps every row sound and the audit trail complete |
| Runs.MovedKeepsTraces | apps/catalog-api/app/services/proposal_service.py:334-352 | a legal move keeps the rule that each executed proposal left exactly one trace: a version row, a schedule request or a certification request |
| Snowflake.DiscoverRelations | apps/catalog-api/app/connectors/snowflake.py:157-176 | the relations of a pass: in scope, of the two kinds, and not older than the cutoff; a NULL LAST_ALTERED never is recent |
| Snowflake.DiscoverColumns | apps/catalog-api/app/connectors/snowflake.py:178-212 | one pass over all column rows groups exactly the columns of the relations that were kept |
| Snowflake.Assemble | apps/catalog-api/app/connectors/snowflake.py:86-109 | the relation loop appends each relation's asset and advances the watermark to the latest alteration seen |
| Snowflake.Discover | apps/catalog-api/app/connectors/snowflake.py:46-130 | effective mode, cutoff, discovered assets and next cursor of a pass |
| Snowflake.LatestIsMaximum | apps/catalog-api/app/connectors/snowflake.py:86-93 | the watermark never moves back and is the maximum of the prior one and the alterations seen |
| Snowflake.CursorRoundTrip | apps/catalog-api/app/connectors/snowflake.py:111-117 | reading a written cursor back gives its watermark |
| Snowflake.SkippedRowsDoNotMoveIt | apps/catalog-api/app/connectors/snowflake.py:86-117 | an incremental pass leaves the same watermark as a full pass over the same snapshot |
| PartialSync.PartialEqualsFull | apps/catalog-api/app/services/ingestion_service.py:110-176 | items that the catalog already shows may be left out of a pass: same outcome, same catalog up to the two timestamps, version histories included |
| PartialSync.PartialIsExact | apps/catalog-api/app/services/ingestion_service.py:110-176 | and only those: the catalogs agree if and only if everything left out was already shown |
| PartialSync.DocumentsAgreeExactly | apps/catalog-api/app/services/search_index_service.py:36-46 | the search documents of the two passes agree if and only if each item left out had a fresh one |
| IncrementalSync.IncrementalEqualsFull | apps/catalog-api/app/connectors/snowflake.py:51-60 | over any schedule of completed, failed and cancelled attempts, steward edits, executed curations and passes of other sources, with LAST_ALTERED set and not ahead of the snapshot clock and visibility lagging by at most the overlap, the requested modes end with the same cursor and, up to the two discovery timestamps, the same catalog as rescanning in full every time |
| IncrementalSync.DocumentsAgree | apps/catalog-api/app/services/search_index_service.py:36-46 | and from an index that is true to the catalog, without executed curations, both schedules end with the same search documents |
| IncrementalSync.SyncKeepsCaughtUp | apps/catalog-api/app/connectors/snowflake.py:86-117 | the invariant: everything the last applied snapshot showed is in the catalog, and the watermark is not later than that snapshot |
| IncrementalSync.SkippedRowIsKnown | apps/catalog-api/app/connectors/snowflake.py:170-172 | a row below cursor minus overlap is unchanged since the last applied snapshot, so the catalog shows it |
| IncrementalSync.IncrementalPassIsExact | apps/catalog-api/app/connectors/snowflake.py:157-176 | one incremental pass equals the full one if and only if every skipped row was already shown |
| IncrementalSync.SkippedChangeIsMissed | apps/catalog-api/app/connectors/snowflake.py:170-172 | so a change with a NULL LAST_ALTERED, or one that becomes visible after more than the overlap, is missed |
| Jobs.JobRecord.Begin | apps/catalog-api/app/services/ingestion_service.py:216-245 | the locked half of a run: ignore a settled or leased job, honour a cancellation, or claim with a lease and count the attempt |
| Jobs.JobRecord.Complete | apps/catalog-api/app/services/ingestion_service.py:252-264 | a discovery that returned ends as CANCELLED if that was requested meanwhile, as SUCCEEDED with its cursor otherwise |
| Jobs.JobRecord.Fail | apps/catalog-api/app/workers/tasks.py:24-41 | a failure with its bookkeeping: dead-letter, or retry after an exponential countdown, whose message is not sent beyond Celery's own limit |
| Jobs.JobRecord.RequestCancel | apps/catalog-api/app/api/v1/ingestion_jobs.py:148-172 | cancellation marks a queued or running job, and ends a queued one |
| Jobs.JobRecord.Replay | apps/catalog-api/app/api/v1/ingestion_jobs.py:106-145 | only a dead-lettered job is replayed; it is queued again, and of flag, times and error exactly what was read as set is cleared |
| JobProtocol.StepKeepsGuard | apps/catalog-api/app/services/ingestion_service.py:216-245 | each interleaved step of workers, broker and operators keeps "at most one live attempt, and nobody can claim beside it"; the commit of a replay does if and only if no attempt is live |
| JobProtocol.AttemptsExclude | apps/catalog-api/app/services/ingestion_service.py:216-277 | lease exclusion: with a lease no shorter than the hard limit no two attempts of a job are ever live together, for any interleaving in which no replay commits over a live attempt |
| JobProtocol.RecheckedReplayIsCareful | apps/catalog-api/app/api/v1/ingestion_jobs.py:106-145 | a replay that still finds the job dead-lettered when it commits meets that condition |
| JobTheorems.StaleReplayBreaksExclusion | apps/catalog-api/app/api/v1/ingestion_jobs.py:112-145 | two replays that read the same dead-lettered row lead any such job to two live attempts |
| JobTheorems.ExclusionCanFail | apps/catalog-api/app/api/v1/ingestion_jobs.py:106-145 | so exclusion does fail, with valid settings, in a run of a new job |
| JobTheorems.ShortLeaseBreaksExclusion | apps/catalog-api/app/core/config.py:95-96 | with a lease shorter than the hard limit a redelivery starts a second attempt beside the first |
| JobTheorems.StepKeepsPairing | apps/catalog-api/app/services/ingestion_service.py:216-277 | a step keeps "the lease is set exactly while RUNNING" if and only if it is not the commit of a stale cancellation or replay on a job that is RUNNING by then |
| JobTheorems.LeaseIffRunning | apps/catalog-api/app/services/ingestion_service.py:216-277 | so the lease is set exactly while RUNNING along every run without such commits |
| JobTheorems.CancellationSticks | apps/catalog-api/app/api/v1/ingestion_jobs.py:148-172 | once a cancellation is committed no new attempt starts, whatever happens, until a replay clears it |
| JobTheorems.RetryBudget | apps/catalog-api/app/workers/tasks.py:24-41 | over every run attempt_count is at most (max_retries + 1) * (1 + replays + broker copies) plus the attempts lost to worker death |
| JobTheorems.BudgetWithoutCopies | apps/catalog-api/app/workers/tasks.py:24-41 | without broker copies the bound is (max_retries + 1) * (1 + replays) plus the lost attempts |
| JobTheorems.BudgetIsReached | apps/catalog-api/app/workers/tasks.py:24-41 | the bound is met: for all settings within Celery's own limit some run makes max_retries + 1 attempts, with no replay, copy or loss |
| JobTheorems.CopiesSpendMore | apps/catalog-api/app/workers/celery_app.py:16-21 | and copies do count: one copied message brings a job with one retry to three attempts |
| JobTheorems.DeadLetterBackoff | apps/catalog-api/app/workers/tasks.py:37-41 | a chain that is dead-lettered has backed off for exactly backoff * (2 ^ max_retries - 1) seconds |
| JobTheorems.RetryIsDue | apps/catalog-api/app/workers/tasks.py:24-41 | after a failure: dead-lettered now if max_retries is spent; else FAILED with a retry time, with a next message due exactly then, or none when only Celery's own limit is spent |
| JobTheorems.ChainsEndDeadLettered | apps/catalog-api/app/workers/tasks.py:24-41 | over every run a chain of retries ends when the smaller of the two limits is spent, and in the dead-letter queue if and only if max_retries does not exceed Celery's own limit |
| JobTheorems.StepKeepsBooks | apps/catalog-api/app/workers/tasks.py:24-41 | a step keeps dead-letter time, retry time and error in step with the status if and only if it is not the commit of a replay while a retry is scheduled, or of a cancellation that read QUEUED on a job dead-lettered since |
| JobTheorems.BooksStayInOrder | apps/catalog-api/app/workers/tasks.py:24-41 | so they stay in step along every run without such commits |
| JobTheorems.RecoveryIsExact | apps/catalog-api/app/services/ingestion_service.py:223-225 | a redelivered message recovers a lost attempt if and only if the lease has run out; before, it is dropped |
| JobTheorems.CrashStrands | apps/catalog-api/app/workers/celery_app.py:16-21 | a worker lost within its lease has its message requeued and dropped |
| JobTheorems.StrandedForever | apps/catalog-api/app/services/ingestion_service.py:214-225 | and from then on the job is RUNNING forever: no delivery, cancellation or replay reaches it |
| IngestionJobs.Begin | apps/catalog-api/app/services/ingestion_service.py:216-245 | the claim is committed with the sync row it may create |
| IngestionJobs.GetOrCreateSyncState | apps/catalog-api/app/services/ingestion_service.py:179-185 | a source without sync row gets one with an empty cursor |
| IngestionJobs.ApplySuccessfulDiscovery | apps/catalog-api/app/services/ingestion_service.py:188-211 | catalog, job and cursor change in one open transaction, or the discovery is refused |
| IngestionJobs.Finish | apps/catalog-api/app/services/ingestion_service.py:247-277 | success is committed whole; any exception, the commit's included, rolls back to a failed attempt |
| IngestionJobs.StepKeepsCoupled | apps/catalog-api/app/services/ingestion_service.py:214-277 | a fleet of jobs beside one database: whatever a step of workers, broker or operators commits to the row of a job is what the protocol of that job says |
| IngestionJobs.JobsRunTheirProtocol | apps/catalog-api/app/services/ingestion_service.py:214-277 | so along every run of the fleet each job makes a run of its protocol, and what holds of all runs of the protocol holds of it |
| IngestionJobs.FleetBudget | apps/catalog-api/app/workers/tasks.py:24-41 | for one, the retry budget, from the submission of the job on |
| IngestionJobs.AdvanceTogether | apps/catalog-api/app/services/ingestion_service.py:188-211 | a completed attempt publishes catalog, cursor and success at once; every other step of workers, broker and operators, stale requests included, leaves assets, version rows, documents and all cursors as they were |
| IngestionJobs.ServingIsExact | apps/catalog-api/app/api/v1/ingestion_jobs.py:106-172 | a request that commits, however long after its read, keeps every cursor equal to cursor_after of its SUCCEEDED job if and only if no sync row names its job, or it is a cancellation that did not read QUEUED |
| IngestionJobs.StepKeepsSound | apps/catalog-api/app/services/ingestion_service.py:188-277 | any step of workers, broker and concurrent operators keeps that agreement, the coupling and the lease exclusion of each job if and only if it is not such a commit, nor the commit of a replay over a live attempt |
| IngestionJobs.CursorsAlwaysAgree | apps/catalog-api/app/services/ingestion_service.py:188-277 | so in every state reached without such a commit a cursor is empty or is cursor_after of the SUCCEEDED job named by last_successful_job_id |
| IngestionJobs.RecheckedIsHarmless | apps/catalog-api/app/api/v1/ingestion_jobs.py:106-172 | a request whose job still has the status that it read is no such commit |
| IngestionJobs.StaleCancelBreaksAgreement | apps/catalog-api/app/api/v1/ingestion_jobs.py:148-172 | a run from a new job: a cancellation that read QUEUED commits after the success and leaves the cursor with a CANCELLED job |
| IngestionJobs.StaleReplayBreaksAgreement | apps/catalog-api/app/api/v1/ingestion_jobs.py:106-145 | another one: the second of two replays that read the same dead-lettered job commits QUEUED over the success that the first one led to |
| IngestionJobs.SuccessIsADiscoveryStep | apps/catalog-api/app/services/ingestion_service.py:188-211 | to the rest of the catalog a completed attempt is one discovery pass |
| Search.ILikeIsMonotone | apps/catalog-api/app/services/catalog_service.py:165-172 | a query that matches a text matches every text around it, unless it ends in an escape |
| Search.ILikeIsContains | apps/catalog-api/app/services/catalog_service.py:165-182 | without wildcards the match is the case-insensitive substring test |
| Search.EscapeIsNotMonotone | apps/catalog-api/app/services/catalog_service.py:165-172 | that exception is needed: a query that ends in a backslash can match a name and miss it with more text behind |
| Search.IndexCoversEverything | apps/catalog-api/app/services/search_index_service.py:22-33 | a fresh document is found by every query that matches a name, a description, the owner, the classification, a tag or a column name of its asset |
| Search.SearchIsComplete | apps/catalog-api/app/services/catalog_service.py:165-182 | while the index agrees, a search returns every asset that the field-by-field scan would, for every query that does not end in an escape |
| Search.IndexIsSound | apps/catalog-api/app/services/search_index_service.py:22-33 | for a query without wildcards and spaces the index finds exactly the assets one of whose eight parts contains it |
| Search.ReindexAssets | apps/catalog-api/app/services/search_index_service.py:49-54 | the rebuild writes one document for each asset of the tenant and counts them |
| Search.ReindexAgrees | apps/catalog-api/app/services/search_index_service.py:36-54 | after a rebuild every asset of the tenant has the document of its present text and facets, and no other document was written |
| IndexAgreement.StepKeepsFresh | apps/catalog-api/app/services/ingestion_service.py:136-175 | discovery and direct curation keep every fresh document fresh and index what they add; of the governance calls only an executed curation leaves a document behind |
| IndexAgreement.StaleOnlyAfterExecution | apps/catalog-api/app/services/proposal_service.py:334-341 | in every reachable state an asset without a fresh document is one that an executed curation named |
| IndexAgreement.EveryAssetHasADocument | apps/catalog-api/app/services/search_index_service.py:36-46 | in every reachable state every asset has a document, so that no pass adds one twice |
| Indexability.DocumentFitsExactly | apps/catalog-api/app/services/search_index_service.py:22-33 | the text of an asset's document fits its column if and only if description, owner, classification and tags of its steward are free of NUL |
| Indexability.UnindexableFailsPasses | apps/catalog-api/app/services/ingestion_service.py:174 | every discovery pass that meets an asset of which that is not so fails as a whole |
| Indexability.UnindexableOnlyAfterExecution | apps/catalog-api/app/services/proposal_service.py:334-341 | in every reachable state such an asset is one that an executed curation proposal has given words with a NUL |
| Indexability.MutingIsReachable | apps/catalog-api/app/services/proposal_service.py:114-115 | and a run from the empty database gets there: a table, a proposal of a tag with a NUL, its approval and its confirmed execution; from then on every pass over the table fails |
| RateLimit.SlidingWindowRateLimiter.Check | apps/mcp-gateway/app/core/rate_limit.py:25-34 | the deque decides as the rule on the whole log of accepted calls does, for every key and trace of a clock that does not go back |
| RateLimit.Serve | apps/mcp-gateway/app/core/rate_limit.py:25-34 | over a whole trace of calls a new limiter answers each call by the rule on the calls of its key that the rule accepted before |
| RateLimit.Prune | apps/mcp-gateway/app/core/rate_limit.py:29-30 | the loop leaves exactly the events of the last window |
| RateLimit.AcceptedAreSpaced | apps/mcp-gateway/app/core/rate_limit.py:28-34 | any limit + 1 consecutive accepted calls of a key span at least one window |
| RateLimit.WindowBound | apps/mcp-gateway/app/core/rate_limit.py:28-34 | no window, open at its start, holds more than limit accepted calls of a key |
| RateLimit.RetryIsHonest | apps/mcp-gateway/app/core/rate_limit.py:31-33 | after a rejection a call is accepted if and only if the true wait is over; the advertised wait is longer, by at most one second |
| QualityRules.EvaluationIsFine | apps/quality-api/app/services/rule_engine.py:74-161 | a rule is judged if and only if its evidence is in the profile, passes if and only if the profile meets its parameter (stated by products, not quotients), scores 100 or 0 accordingly, and always names its scope |
| QualityRules.CheckedParametersSuffice | apps/quality-api/app/services/quality_service.py:50-83 | checked parameters keep an evaluation from raising, unless the profile's "columns" is not an object, or a number that the rule converts, of the profile or its own parameter, is an integer that no float holds |
| QualityRules.NullParametersAlwaysRaise | apps/quality-api/app/services/rule_engine.py:33-42 | null parameters make every evaluation raise |
| QualityScore.Score | apps/quality-api/app/services/execution_service.py:118-123 | the weighted score as its loops compute it |
| QualityScore.RoundingIsNearest | apps/quality-api/app/services/execution_service.py:121 | the rounded mean is a nearest integer, the even one of two, and no other number is (roundTiesToEven, section 4.3.1 of IEEE 754-2019) |
| QualityScore.ScoreInRange | apps/quality-api/app/services/execution_service.py:118-123 | the score is null exactly when nothing was evaluated, and lies in 0..100 otherwise |
| QualityScore.ScoreIgnoresOrder | apps/quality-api/app/services/execution_service.py:118-123 | the score does not depend on the order of the rules |
| QualityScore.PassingNeverHurts | apps/quality-api/app/services/execution_service.py:26-31 | a rule that passes instead of failing never lowers the score |
| QualityService.QualityStore.CreateRule | apps/quality-api/app/services/quality_service.py:86-102 | a checked rule is stored with its first ledger entry |
| QualityService.QualityStore.UpdateRule | apps/quality-api/app/services/quality_service.py:112-132 | a changing update stores the rule and the next ledger entry; others store nothing |
| QualityService.QualityStore.EvaluateRules | apps/quality-api/app/services/execution_service.py:93-112 | the result loop judges every enabled rule of the asset, and stops at the first exception of an evaluation or of the store |
| QualityService.QualityStore.Summarize | apps/quality-api/app/services/execution_service.py:113-126 | effective versions, grades and explainability of a run's results |
| QualityService.QualityStore.StartRun | apps/quality-api/app/services/execution_service.py:71-80 | an execution opens with a commit of its own, unless the run has succeeded or was cancelled |
| QualityService.QualityStore.FinishRun | apps/quality-api/app/services/execution_service.py:82-145 | results, score and context are committed together, or the run is marked failed |
| QualityService.QualityStore.ExecuteRun | apps/quality-api/app/services/execution_service.py:71-145 | an execution is the two commits in turn |
| QualityService.QualityStore.DispatchDueSchedules | apps/quality-api/app/services/execution_service.py:148-176 | each due rule gets one queued run and its schedule moves on by a day |
| QualityLedger.EveryRunIsSound | apps/quality-api/app/services/quality_service.py:86-132 | in every state that events in time order can reach: each rule's ledger holds versions 1 to its own without gaps, the last being its definition; every stored result is on the ledger at its version and is what that definition gives on the run's snapshot; run scores are those of their results; and every context carries time and score of the latest explainable run to complete |
| QualityLedger.StoredScores | apps/quality-api/app/services/execution_service.py:118-126 | the score stored with a run is null exactly when no rule was evaluated, in 0..100 otherwise, and an explainable run has one |
| QualityLedger.ResultsAreJudged | apps/quality-api/app/services/execution_service.py:93-112 | a run judges each enabled rule of its asset exactly once, at its version, by its definition |
| QualityLedger.ExecutionKeepsSound | apps/quality-api/app/services/execution_service.py:71-145 | executing a run keeps all of that, at each of its two commits, the latest explainable run of the context included |
| QualityLedger.UpdateChecksParameters | apps/quality-api/app/services/quality_service.py:112-118 | an accepted update leaves checked parameters checked if and only if it does not set them to null |
| QualityLedger.UpdateIsIdempotent | apps/quality-api/app/services/quality_service.py:116-132 | repeating an accepted update writes no new version |
| QualityRules.InfiniteExactly | apps/quality-api/app/services/rule_engine.py:133-161 | an evaluation yields an infinite number if and only if its rule is an anomaly rule over a baseline without deviation whose present value is not close to the mean |
| QualityLedger.RunsSucceedExactly | apps/quality-api/app/services/execution_service.py:93-145 | a run that the store does not fail succeeds if and only if no enabled rule of its asset has had its parameters nulled, looks for a column in a snapshot whose "columns" is no object, converts an integer that no float holds, or has an infinite z-score, which JSON does not hold |
| Idempotency.IdempotencyTable.ReplayResponse | apps/catalog-api/app/services/idempotency_service.py:49-74 | a live record of the tenant answers verbatim or as a conflict; an expired one is deleted |
| Idempotency.IdempotencyTable.StoreResponse | apps/catalog-api/app/services/idempotency_service.py:77-105 | expired records are purged and the response recorded, or the unique constraint is violated and nothing changes |
| Idempotency.AtMostOncePerWindow | apps/catalog-api/app/services/idempotency_service.py:49-105 | over any serial sequence of requests, once a response is recorded its handler does not run again for that tenant and key within the time to live |
| Idempotency.RepeatsAreAnswered | apps/catalog-api/app/services/idempotency_service.py:63-74 | within the time to live an equal body gets the recorded response verbatim, another one a conflict, and neither changes anything |
| Idempotency.StoreIsExact | apps/catalog-api/app/models/catalog.py:350-354 | storing after a null replay violates the unique constraint if and only if another tenant's record under the same subject, key, method and path survives the purge |
| Idempotency.SharedKeyRunsTwice | apps/catalog-api/app/models/catalog.py:350-354 | so two tenants that share such a key break the promise: the second one's handler runs on every repeat and is never recorded |
| Idempotency.PrivateKeysAreRecorded | apps/catalog-api/app/services/idempotency_service.py:77-105 | while no two tenants share a key and handlers complete, every handler run is recorded |

## Left out

- HTTP routing, request parsing, authentication, metrics, logging, migrations and the user interface: no state of their own to keep.
- SQL and drivers: a session is one serial transaction; an asset is identified by its unique key (source, type, qualified name), and tenant isolation is switched on.
- Digests and nonces: SHA-256 is a free constructor, that is, injective; that a nonce is fresh is not needed for the theorems.
- `policy_snapshot` of a proposal and the details of audit metadata: the in-place edits of the snapshot are not persisted by the code either.
- Classification patterns, purpose matching and resource types other than assets in the policy: whether an asset is sensitive and a purpose permitted are inputs of the rules.
- Other routes that change an asset: classification review, certification decisions, quality evidence. They write no row of the modelled history kinds and do not reindex.
- Webhook deliveries, their outbox and the other connectors: the PostgreSQL connector always rescans.
- Time stamps without a decision hanging on them (started, completed, rejected, cancelled, indexed at), the status of a data source, the document's `source_updated_at`.
- Parsing of ISO timestamps: a timestamp in a cursor or profile is a number of seconds, any other value reads as none; a time next to year 1, whose shift to UTC raises, is not distinguished.
- Unicode: case folding is that of ASCII letters.
- Ranking, facets, paging and the other filters of a search; glossary terms are an input set.
- Overlapping jobs of one source: the incremental schedule is serial per source, as the exclusion of attempts is per job.
- The failure commit of an attempt and its retry bookkeeping are one step, and a claim's commit does not fail; a delivery or attempt that dies without committing is a step of its own.
- Incidents, coverage counters, certification of contexts and the business fields of a context.
- Floating-point rounding in rules and the limiter: reals, with infinity for the z-score only; integers that no float holds raise, but sums and quotients do not overflow.
- The explanation texts of rule evaluations.
- Requests without an idempotency key, which are neither replayed nor recorded.
- RateLimit.SlidingWindowRateLimiter.Check: the lock is not modelled, calls are serial; with a limit below 1 it reports the IndexError that the code raises on an empty deque.
- QualityService.QualityStore.ExecuteRun: the evaluations of a run and its completion share one time, and no two workers execute one run at once.
- Store.Storable: a value other than null and text in a text column is taken or refused by the driver, a constant of the model about which nothing is known; what it writes is kept as given. Domains are created and not deleted.
- Proposals: the store takes every JSON value of the model, which holds finite numbers and Unicode scalar values only: no NaN or infinity, and no lone surrogate, which JSON can spell and a text column refuses. Indexes take every row.
- Reconcile.SynchronizeIsCorrect: for a key that is discovered twice in one pass, the earlier item is held to its columns as well, and a column that it drops and the later one brings back is stored; in the code later values replace earlier ones before a flush, and the unit of work inserts before it deletes, which can violate the key of columns.
- Jobs.JobRecord.Complete: the refresh of the row and the commit of its success are one step; in the code a request committed between the two is overwritten with SUCCEEDED. The commit of a failure is not split either.
- IncrementalSync.DocumentsAgree: after an executed curation the two schedules' documents can differ, by exactly the stale ones that a skipped row leaves (`PartialSync.DocumentsAgreeExactly`).
- Replays and retries whose submission to the queue fails: they commit an error text only.
- IndexAgreement.StepKeepsFresh: text and facets only, not the document's timestamps.
