# Verified model of the insurance portal's transactional core

The portal stands in front of a Bitrix24 CRM. Five of its parts are state machines over database
tables, a temporary file store and a remote system. This project models them in Dafny and proves what
their code promises: for all inputs, over all runs, and for all interleavings of committed
transactions.

Tables are maps or sequences of rows, a committed transaction is one atomic step, and time is an
integer (seconds) read once per step. For each part there are specification functions that give the effect of
a step on the tables, invariants and theorems about runs of such steps, and a class whose methods
follow the code statement by statement and are proved to have exactly that effect. The `Laws` modules
say of each specification function, without its help, when it applies and which values it leaves in
which columns; no specification function is trusted on its name. The rows below cite those that span
several functions.

| part | files |
|---|---|
| Delegations of applications to colleagues, and blocking of users | `DelegationTables`, `DelegationSteps`, `DelegationInvariants`, `DelegationTheorems`, `DelegationLiveness`, `DelegationLaws`, `DelegationService`, `DelegationWitnesses` |
| Submission to the CRM, document transfer, cleanup, reverse sync | `PipelineTables`, `PipelineInvariants`, `PipelineTheorems`, `PipelineDeaths`, `SyncTheorems`, `PipelineLaws`, `PipelineService`, `PipelineWitnesses` |
| Email outbox with several workers | `EmailOutbox`, `EmailTheorems`, `EmailBackoff`, `EmailLaws`, `EmailService` |
| Retry loop of the CRM client | `BitrixClient` |
| Decisions about partner clients | `PartnerClients`, `PartnerTheorems`, `PartnerLaws`, `PartnerService`, `PartnerWitnesses` |

`dafny verify dfyconfig.toml` checks all of it.

## What turned out not to hold

Each of these is proved, with the exact condition where there is one.

- One user with both `client_executor` and `client_admin` active in a company makes the worker's
  single-row role lookup raise. The whole tick is rolled back, other users' overdue delegations stay
  active, and every further tick does the same (`TickExpiresUnlessRaised`, `StuckWorker`; reached from
  empty tables in `StuckWorkerReached`). Nothing in `create_company_link` prevents the second role.
- An empty idempotency key skips the lookup before creation but not the unique constraint. A creation
  raises exactly if a role lookup does or the request is acceptable, its key is empty and the user has
  used the empty key before (`CreationOutcomeIff`), and so it does for good after the first such
  creation (`EmptyKeyRaisesEverAfter`; reached from empty tables in `EmptyKeyRaises`).
- Blocking a user and assigning the applications to that same user succeeds and leaves them with a
  blocked user (`BlockSucceeds`; reached from empty tables in `BlockedKeepsApplications`).
- A second deal is created exactly for an application that may be submitted, has no committed attempt
  and had an earlier call that died after the CRM created a deal, over every run with deaths
  (`SecondCreationIff`; reached from the empty portal in `SecondDealReached`).
- A death in a run of the transfer queue loses exactly the files uploaded before it, whose documents
  stay queued and never become sent; the next run hands over again every document of the batch that
  still has its file (`DeathLosesIff`, `NextRunAfterDeath`, `LostForGood`; reached in `LossReached`).
  So a document can be handed over three times plus once for each dead run (`HandoversBounded`).
- An upload that overlaps a submission can leave its document outside the transfer queue; submitting
  again repairs it (`LateUploadLeftBehindIff`, `RepeatedSubmitRecovers`; reached in
  `DocumentLeftBehind`). Uploads that overlap each other can exceed the limit of ten
  (`LateUploadExceedsIff`).
- Repeating a sync is not neutral for an issued application whose stage is unmapped and whose policy
  data has become incomplete: the first sync takes the status back, the second drops the warning
  (`SyncTwiceIff`; reached in `WarningLostReached`).
- A sync that overlaps other transactions keeps every invariant, but may write back what the row held
  before them, unless the deal names its category and a mapped stage (`LateSyncKeepsInv`,
  `LateSyncAgrees`, `LateSyncDiffers`, `LateSyncOfMappedDeal`).
- A crash leaves the message its worker held in `processing` for good (`CrashStrands`,
  `StrandedForever`).
- The count of attempts in a message's row is right exactly if no claim on it was stale, that is, won by
  a worker that had read the row before another attempt (`AttemptsCountedIff`). Without stale claims,
  as with a single worker, attempts are bounded and spaced out (`AttemptsWithoutStaleClaims`,
  `SoloAttempts`). With them a message can be attempted any number of times, all but the first
  attempt at one moment (`SeveralWorkersOverrun`), although the count stays bounded
  (`AttemptCountBounded`).
- A gateway's HTML error page is not retried although its status is listed as retryable
  (`RetriedIff`, `HtmlGatewayErrorNotRetried`).
- The webhook does not recognise every repeated delivery as one (`RepeatRecognisedIff`; reached in
  `RepeatNotRecognised`).
- A revoked partner link does not stay revoked: it is active again exactly after an allowed use, a
  confirming delivery or a confirming decision for its partner and company (`ReopenedIff`,
  `RevokedUntilOpened`; reached in `RevokedAndReopened`).

## Assumptions

- Transactions are atomic and commit in the order of their clock readings; row locks are held to the commit.
- Other parts of the portal neither reassign applications nor block users; they may change roles,
  sessions, companies and statuses of applications (`OtherTransaction`).
- The CRM answers lookups truthfully (the oldest deal if there is one), deal ids are positive and new, and a
  successful create call returns a deal it created; a failing one may have created any number.
- Storage keys are never reused, the CRM gives every upload a file id of its own and every created
  company a new id, and no CRM stage is mapped to `submitting`.
- An active role exists at most once for a user, company and role code.

## Model

| member | source | states |
|---|---|---|
| `DelegationInvariants.RunKeepsInv` | app/delegations.py:249-623 | Over any run of creations, worker ticks, cancellations, terminations, blocks and other transactions: an item has its delegation's status, an application has at most one open item, a delegation names a non-empty set of distinct applications, windows are positive and at most 30 days, open items name applications still assigned to the delegator, no party of an open delegation is blocked, and a user's idempotency key names one delegation |
| `DelegationInvariants.CreateKeepsInv` | app/delegations.py:249-397 | Creating a delegation keeps that invariant |
| `DelegationInvariants.InsertedKeepsItems` | app/models.py:491-497 | The partial unique index on open items is kept by the code itself: an accepted request adds no second open item for any application |
| `DelegationInvariants.TickKeepsInv` | app/delegations.py:487-593 | A worker tick keeps the invariant, whatever mixture of activations, failures and expiries it commits |
| `DelegationInvariants.EndOneKeepsInv` | app/delegations.py:400-484 | Cancelling or terminating one delegation keeps the invariant |
| `DelegationInvariants.EndForUserKeepsInv` | app/delegations.py:596-623 | Ending all delegations of a user keeps the invariant |
| `DelegationInvariants.BlockKeepsInv` | app/routers/superadmin.py:537-624 | Blocking a user keeps the invariant, because delegations end before applications are reassigned and the user is blocked |
| `DelegationInvariants.EndForUserClosesAll` | app/delegations.py:596-612 | Afterwards no open delegation names the user |
| `DelegationTheorems.SingleRowQueries` | app/delegations.py:122-147 | The access query and the conflict query never find two rows, and two users never have delegated access to one application at once |
| `DelegationTheorems.NoConflictWithOthers` | app/delegations.py:232-245 | The applications of an open delegation are in no other open delegation, so revalidation at activation finds no conflict |
| `DelegationTheorems.ActivatableIff` | app/delegations.py:508-518 | Of everything the worker revalidates only the clock and the facts about users, roles, companies and final statuses can stop an activation; never a conflict, a changed responsible user, an empty selection or a malformed window |
| `DelegationTheorems.TickClock` | app/delegations.py:487-593 | After a committed tick at t every scheduled delegation has t < starts_at and every active one has starts_at <= t < ends_at |
| `DelegationTheorems.TickExpiresUnlessRaised` | app/delegations.py:487-593 | An overdue delegation is expired by a tick exactly unless some due delegation makes the single-row role lookup raise, which rolls the whole tick back |
| `DelegationTheorems.StuckWorker` | app/delegations.py:97-105 | Ticks that raise stay stuck: any number of further ticks changes nothing |
| `DelegationWitnesses.StuckWorkerReached` | app/routers/superadmin.py:1099-1106 | A run from empty tables to a state in which a user has come to hold both roles; every run of ticks from then on leaves an overdue delegation that does not concern that user active |
| `DelegationTheorems.ApplyKeepsRow` | app/delegations.py:414-415 | No step deletes a delegation or changes its terms, and a closed delegation keeps its whole row |
| `DelegationTheorems.RunKeepsRow` | app/delegations.py:414-415 | The same over whole runs: terminal statuses are absorbing |
| `DelegationTheorems.AccessChangeEndsSessions` | app/delegations.py:383-383 | Any step that changes the set of applications a user holds through active delegations leaves that user with no unrevoked session |
| `DelegationLaws.AccessIff` | app/delegations.py:122-147 | A user has delegated access to an application exactly if an item of it belongs to an active delegation whose delegate is that user, inside its window |
| `DelegationLaws.AccessAfterTick` | app/delegations.py:122-147 | Right after a committed tick a user has access to exactly the applications that active delegations to that user hold |
| `DelegationLaws.AcceptableIff` | app/delegations.py:181-246 | What a creation or activation asks of clock, users, roles, applications and other open delegations, with the tolerance of 300 and the limit of 2592000 seconds |
| `DelegationLaws.RaisesIff` | app/delegations.py:97-119 | In a consistent state a validation raises exactly when a party holds both allowed roles in the company; never for two conflicting delegations |
| `DelegationLaws.CreationIff` | app/delegations.py:264-334 | A creation goes through exactly for an acceptable request whose key, if it has one, this user has not used |
| `DelegationLaws.CreatedItems` | app/delegations.py:310-334 | A delegation begun at or before now is created active with its items open since now, any other scheduled; one item for each application in order, and no other item changes |
| `DelegationLaws.CreatedNotices` | app/delegations.py:347-383 | Both parties are told of the creation, and of the activation if it is active, in which case exactly the delegate's live sessions end |
| `DelegationLaws.TickRaisesIff` | app/delegations.py:97-105 | A tick is rolled back exactly when a party of some due delegation holds both allowed roles in its company |
| `DelegationLaws.TickDelegations` | app/delegations.py:487-593 | What a tick makes of each delegation: active, failed, expired or unchanged, with its reason and times |
| `DelegationLaws.TickItems` | app/delegations.py:418-438 | Items follow their delegation through a tick: access starts with the activation, ends with a failure or expiry, and carries the delegation's reason |
| `DelegationLaws.TickNotices` | app/delegations.py:455-483 | A tick adds exactly the notifications to both parties of each delegation whose status changed, saying what became of it, and ends exactly their delegates' live sessions |
| `DelegationLaws.CancelledRows` | app/delegations.py:400-484 | A cancellation of an open delegation stores who cancelled it, when and why, closes exactly its items, tells both parties and logs the delegate out |
| `DelegationLaws.EndedForUser` | app/delegations.py:596-623 | The open delegations to or from a user, and no others, are terminated with their items, told to both parties, and their delegates logged out |
| `DelegationLaws.BlockVerdicts` | app/routers/superadmin.py:541-569 | Each refusal of a block has its own condition |
| `DelegationLaws.BlockedTablesAre` | app/routers/superadmin.py:547-624 | The users, applications, delegations and sessions a block leaves, and its two reasons |
| `DelegationTheorems.EndForUserExact` | app/delegations.py:596-623 | Exactly the open delegations naming the user are terminated, with the reason given, and their open items; every other row is unchanged |
| `DelegationTheorems.BlockSucceeds` | app/routers/superadmin.py:547-624 | After a successful block the target is blocked, logged out and in no open delegation; exactly the target's unfinished applications changed hands, the count returned is their number, a new responsible user is active and holds exactly one allowed role in the company of each, and the target keeps none of them if and only if there were none or they were not assigned back to the target |
| `DelegationWitnesses.BlockedKeepsApplications` | app/routers/superadmin.py:558-575 | A run from empty tables after which a blocked user is still responsible for unfinished applications |
| `DelegationTheorems.BlockRefused` | app/routers/superadmin.py:541-591 | Which calls are refused, both ways, and that a refused call changes nothing although delegations had already been ended inside it |
| `DelegationTheorems.IdempotencyKey` | app/models.py:469-469 | Over any run a user's idempotency key never names two delegations and keeps naming the one it named |
| `DelegationLiveness.DueOutcome` | app/delegations.py:500-532 | The exact condition under which a due delegation is activated rather than failed |
| `DelegationLiveness.TickFollowsClock` | app/delegations.py:487-593 | One committed tick, at most five minutes after the last, brings a delegation to the status its window and the clock determine |
| `DelegationLiveness.StatusFollowsClock` | app/delegations.py:487-593 | Liveness over runs: with ticks at most five minutes apart a delegation nobody ends, whose facts stay true, is active from the first tick at or after its start, expired from the first tick at or after its end, and never failed |
| `DelegationLiveness.CreatedDelegationFollowsClock` | app/delegations.py:310-323 | The same from the moment a scheduled delegation is created |
| `DelegationService.NoProblemsIffAcceptable` | app/delegations.py:181-246 | The list of problems, built check by check, is empty exactly for acceptable requests |
| `DelegationService.ProblemsAre` | app/delegations.py:181-246 | The list contains exactly the problems the request has, each with its own condition |
| `DelegationService.CreationOutcomeIff` | app/delegations.py:298-325 | Exactly when a creation that found no existing delegation raises, is rejected, or creates |
| `DelegationService.EmptyKeyRaisesEverAfter` | app/delegations.py:265-265 | After a creation with the empty key every later acceptable request of that user with the empty key raises, whatever happens in between |
| `DelegationWitnesses.EmptyKeyRaises` | app/delegations.py:265-322 | A run from empty tables to a state in which an acceptable request with the empty key raises |
| `DelegationService.Database.RevokeSessionsForUser` | app/delegations.py:68-73 | Exactly the live sessions of the user are revoked |
| `DelegationService.Database.QueueNotifications` | app/delegations.py:76-94 | One notification per recipient, adding only those that do not exist yet; the table keeps its unique constraint |
| `DelegationService.Database.ValidateDelegationRequest` | app/delegations.py:181-246 | The problems in the order they are appended, the two ways a single-row lookup raises, and acceptance if and only if there is no problem |
| `DelegationService.Database.HasActiveDelegatedAccess` | app/delegations.py:122-147 | Answers exactly when the action is allowed and an item of the application belongs to an active delegation to this user inside its window, with the one delegation all such rows share |
| `DelegationService.Database.ExpireOrTerminateDelegation` | app/delegations.py:400-484 | Closes an open delegation with its open items, notifies both parties and logs the delegate out; reports false and changes nothing otherwise |
| `DelegationService.Database.TerminateDelegationsForUser` | app/delegations.py:596-623 | The row loop equals one simultaneous closing of the user's open delegations, and returns their number |
| `DelegationService.Database.RunDelegationWorker` | app/delegations.py:487-593 | The two row loops, each row judged on what earlier rows left, equal one simultaneous step judged on the tables before the tick; a raised lookup rolls everything back; the counts are the numbers of activations and expiries |
| `DelegationService.Database.SelectApplications` | app/delegations.py:287-297 | The sorted, duplicate-free selection, given or all unfinished applications of the actor in the company |
| `DelegationService.Database.CreateDelegation` | app/delegations.py:249-397 | Returns the delegation that already has the key, raises, rejects with the full problem list, or inserts delegation, items, notifications and session changes; nothing is written unless it creates |
| `DelegationService.Database.EnsureAssigneeAllowed` | app/routers/superadmin.py:454-468 | The loop over applications lets pass exactly the assignees allowed in every company concerned; otherwise it refuses for an inactive user or a missing role, or raises for a double role |
| `DelegationService.Database.BlockUser` | app/routers/superadmin.py:537-624 | The statement-by-statement handler, with its early termination, refusals, raised lookup, roll back and second termination, has the outcome and effect stated for a block |
| `PipelineInvariants.RunKeepsInv` | app/document_transfer.py:54-278 | Over any run of drafts, submissions, uploads, deletions, transfers, cleanups and syncs: a row with a storage key has its file on disk exactly while local_deleted_at is null, which is exactly while its status is uploaded, retry_required or failed; queued documents carry their application's deal; attempts, remote deals and policies are in order |
| `PipelineInvariants.SubmitKeepsInv` | app/application_submit.py:133-319 | A submission keeps all of that on every exit, whatever the remote created or reported |
| `PipelineInvariants.DuplicateKeepsInv` | app/application_submit.py:134-135 | A duplicate submission re-queues documents that all carry the deal already: it changes nothing in a committed state |
| `PipelineInvariants.UploadKeepsInv` | app/routers/documents.py:140-221 | An upload keeps disk and table in agreement |
| `PipelineInvariants.DeleteKeepsInv` | app/routers/documents.py:254-320 | A deletion keeps disk and table in agreement |
| `PipelineInvariants.BatchOnDisk` | app/document_transfer.py:121-126 | A document picked by the queue always has its file, so no transfer fails for want of it |
| `PipelineInvariants.TransferKeepsInv` | app/document_transfer.py:76-207 | A run of the queue keeps disk, table and file ids in agreement and leaves nothing in transferring |
| `PipelineInvariants.CleanupKeepsInv` | app/document_transfer.py:210-278 | A cleanup keeps disk and table in agreement |
| `PipelineInvariants.SyncKeepsInv` | app/integrations/bitrix/sync.py:297-430 | A sync keeps every invariant, including that an issued application has its policy row |
| `PipelineTheorems.DuplicateCreateIff` | app/application_submit.py:156-245 | create_deal is invoked while the remote already holds a deal of the application exactly when the application may be submitted and no attempt of it has been committed |
| `PipelineTheorems.CreateOnlyWithoutDeal` | app/application_submit.py:156-245 | In a committed state create_deal is invoked only when the remote holds no deal for the application, even after calls that created one and reported an error |
| `PipelineTheorems.DealsCreatedOnce` | app/application_submit.py:120-319 | Once the remote holds deals for an application, no later step of any run changes that set |
| `PipelineTheorems.DeathLeadsToDuplicate` | app/application_submit.py:157-159 | A process death after the remote created a deal during a first attempt makes the next call create again: the attempt row would only have been committed with the result |
| `PipelineDeaths.SecondCreationIff` | app/application_submit.py:120-319 | Over every run with deaths at any create call or transfer run: create_deal is called although the remote holds a deal exactly when no attempt was committed and an earlier call died after a deal was created |
| `PipelineDeaths.EventExplained` | app/application_submit.py:156-319 | Every step and death keeps: a deal of an application without a committed attempt was left by a death |
| `PipelineWitnesses.SecondDealReached` | app/application_submit.py:156-245 | A run from the empty portal after which create_deal is called although the remote holds a deal |
| `PipelineTheorems.DealIdWriteOnce` | app/application_submit.py:91-100 | bitrix_deal_id never changes once set, over any run, and no two applications share one |
| `PipelineTheorems.AttemptHistory` | app/application_submit.py:28-78 | From an empty portal: attempts are 1..n, all finished; only the last can have succeeded, it did exactly when the application has a deal, and both record the same one; no committed state is submitting |
| `PipelineLaws.SubmitOutcomes` | app/application_submit.py:120-319 | Each outcome of a submission has its exact condition on the row, the attempts before and the two answers of the CRM |
| `PipelineLaws.SubmitLeaves` | app/application_submit.py:91-108 | An attempt leaves the application received with its deal, times and category, or in submit_error, records the deal or the failing phase, and gives the deal to exactly the documents still waiting |
| `PipelineLaws.SubmitDealsAre` | app/application_submit.py:238-262 | The CRM gains exactly the deals the call made, for this application, and only when create_deal was called |
| `PipelineLaws.UploadLeaves` | app/routers/documents.py:140-221 | An upload is taken in eight statuses below ten documents that are neither deleted nor expired, and waits for transfer under the application's deal |
| `PipelineTheorems.EligibleIffSubmitted` | app/document_transfer.py:85-98 | No document is left behind: a queued document is eligible for transfer exactly when its application has a deal |
| `PipelineTheorems.LateUploadLeftBehindIff` | app/routers/documents.py:148-203 | An upload that overlaps a submission leaves its document outside the queue exactly when the deal id was set between reading the application and inserting the row |
| `PipelineTheorems.RepeatedSubmitRecovers` | app/application_submit.py:134-135 | Submitting such an application again is refused as a duplicate but makes the document eligible |
| `PipelineWitnesses.DocumentLeftBehind` | app/routers/documents.py:148-203 | Runs from the empty portal around an upload whose document the queue does not pick up |
| `PipelineTheorems.LateUploadExceedsIff` | app/routers/documents.py:154-163 | An upload leaves an application with more than ten live documents exactly if others had reached the limit since it counted |
| `PipelineTheorems.DownloadIffOnDisk` | app/routers/documents.py:86-90 | A document is offered for download exactly when its file is on disk |
| `PipelineTheorems.CleanupExact` | app/document_transfer.py:210-278 | After a cleanup at t a file whose document expires is still there exactly if it does not expire before t |
| `PipelineTheorems.CleanupDisk` | app/document_transfer.py:210-278 | The files on disk after a cleanup at t are exactly those before it that belong to a document not expired before t |
| `PipelineTheorems.SentForGood` | app/document_transfer.py:167-180 | Over any run of committed steps a sent document stays sent with its remote file and is never handed to the uploader again; no document is handed over more than three times |
| `PipelineDeaths.SentThroughDeaths` | app/document_transfer.py:167-180 | The first half holds over runs with deaths too |
| `PipelineDeaths.HandoversBounded` | app/document_transfer.py:126-146 | Over every run with deaths a document is handed over at most three times plus once per dead run of the queue |
| `PipelineTheorems.TransferSpends` | app/document_transfer.py:135-146 | Each run of the queue uses up one retry for every document of its batch |
| `PipelineLaws.BatchIsOldest` | app/document_transfer.py:85-98 | A document is in the batch exactly if it is eligible and fewer eligible ones than the limit are older |
| `PipelineLaws.TransferSucceeds` | app/document_transfer.py:146-206 | An uploaded document is sent under the id it was given and its file is gone |
| `PipelineLaws.TransferFails` | app/document_transfer.py:126-146 | A document that was not uploaded counts a retry and stays eligible exactly while it has failed fewer than three times; its error is kept |
| `PipelineLaws.GivenUpAtThird` | app/document_transfer.py:135-146 | Over every run a document is failed only after exactly three runs of the queue that did not send it, and waits for a retry exactly after one or two |
| `PipelineDeaths.DeathLosesIff` | app/document_transfer.py:166-206 | A death inside a run of the queue loses exactly the files of the documents uploaded and unlinked before it; those stay eligible |
| `PipelineDeaths.NextRunAfterDeath` | app/document_transfer.py:85-146 | The next run has the same batch, hands over again exactly the documents whose file is not lost, and counts a retry for the others without sending them |
| `PipelineDeaths.RunKeepsKeys` | app/routers/documents.py:176-195 | Storage keys stay unshared over every run with deaths |
| `PipelineDeaths.LostForGood` | app/document_transfer.py:119-135 | Whatever follows, a lost document is never handed over again, by committed or dead runs, and never becomes sent |
| `PipelineWitnesses.LossReached` | app/document_transfer.py:126-206 | A run from the empty portal that loses the file of a queued document |
| `PipelineTheorems.SmallQueueDrains` | app/document_transfer.py:76-207 | A queue that fits the limit is empty after three runs |
| `PipelineTheorems.LargeStep` | app/document_transfer.py:97-98 | While the queue exceeds the limit, every run lowers floor(M / L) by one |
| `PipelineTheorems.QueueDrains` | app/document_transfer.py:76-207 | Drain bound: without uploads and submissions floor(M / L) + 3 runs empty the queue, where M is the sum of (3 - retry_count) over eligible documents, with cleanups, deletions and syncs at any point |
| `SyncTheorems.IssuedIsBacked` | app/integrations/bitrix/sync.py:245-294 | policy_issued is set only when a policy row of that application and deal exists whose document is a sent policy file |
| `SyncTheorems.OnePolicyPerDeal` | app/integrations/bitrix/sync.py:213-242 | There is never a second policy row for an application |
| `PipelineLaws.SyncedApplication` | app/integrations/bitrix/sync.py:366-430 | Status, warning, category and stage a sync leaves and reports, from the deal's stage and the completeness of its policy fields; nothing else changes unless an issued policy is complete |
| `PipelineLaws.SyncedPolicy` | app/integrations/bitrix/sync.py:143-242 | An issued application's policy row, new or old, holds field by field what the deal says, with the time of the sync; its document is the sent policy file with the deal's file id; every other row is unchanged |
| `SyncTheorems.VerdictAgain` | app/integrations/bitrix/sync.py:366-382 | Syncing once settles category, mapping, payload and verdict for the next sync of the same deal, except in exactly one case |
| `SyncTheorems.SyncTwiceIff` | app/integrations/bitrix/sync.py:297-430 | Syncing the same deal twice changes only timestamps if and only if it is not the case that the stage is unmapped, the application was issued and the deal's policy data has become incomplete |
| `PipelineWitnesses.WarningLostReached` | app/integrations/bitrix/sync.py:366-400 | A run from the empty portal to an application for which the second sync changes what the first wrote |
| `SyncTheorems.LateSyncAgrees` | app/integrations/bitrix/sync.py:307-400 | A sync that reads the row before other transactions and writes after them has the effect of a sync at its end if status, category, stage, warning and policy come out the same from both rows |
| `SyncTheorems.LateSyncDiffers` | app/integrations/bitrix/sync.py:386-400 | An overlapping sync leaves the application rows of a sync at its end exactly if status, category, stage and warning come out the same from both rows |
| `SyncTheorems.LateSyncOfMappedDeal` | app/integrations/bitrix/sync.py:366-382 | For a deal that names its category and a mapped stage the overlap never matters |
| `SyncTheorems.LateSyncKeepsInv` | app/integrations/bitrix/sync.py:297-430 | Even an overlapping sync keeps every invariant of the pipeline |
| `PipelineService.MaxNoOfHistory` | app/application_submit.py:28-34 | In an orderly history the largest attempt number is the number of attempts, so the next number leaves no gap |
| `PipelineService.PortalDatabase.NextAttemptNo` | app/application_submit.py:28-34 | One more than the largest attempt number of the application |
| `PipelineService.PortalDatabase.HasPreviousAttempt` | app/application_submit.py:37-44 | Whether the application has any attempt |
| `PipelineService.PortalDatabase.SubmitApplication` | app/application_submit.py:120-319 | The handler's steps, from opening the attempt to its commit, have the outcome and effect the state machine gives a submission on every exit: received with the deal and category for a deal found or created, submit_error for a failed lookup or creation, the row untouched otherwise |
| `PipelineService.PortalDatabase.SafeUnlink` | app/document_transfer.py:39-51 | Removes an existing file and says so; anything else is left alone |
| `PipelineService.PortalDatabase.UploadApplicationDocument` | app/routers/documents.py:105-221 | Accepts exactly by status, document type, count of live documents, extension, MIME type and size, reports the first reason in that order, and writes file and row only if it accepts |
| `PipelineService.OctetStreamNotAllowed` | app/routers/documents.py:110-113 | The content type assumed when none is given is refused |
| `PipelineService.PortalDatabase.DeleteApplicationDocument` | app/routers/documents.py:254-320 | Deletes exactly the application's unsent documents in a status that allows it, with their file |
| `PipelineService.PortalDatabase.SelectQueue` | app/document_transfer.py:85-98 | The oldest eligible documents, each once and in order, up to the limit |
| `PipelineService.PortalDatabase.TransferOne` | app/document_transfer.py:99-206 | One document: sent under its new id and unlinked, or a retry counted with its error, retry_required below three and failed at three |
| `PipelineService.PortalDatabase.ProcessDocumentTransferQueue` | app/document_transfer.py:76-207 | The document loop equals one simultaneous transfer of the batch, because files are not shared; the uploader's answer alone decides for each document whether it is sent with its file gone, or counts a retry and is failed at the third; the count returned is the size of the batch |
| `PipelineService.PortalDatabase.CleanupTemporaryDocuments` | app/document_transfer.py:210-278 | The row loop equals one simultaneous cleanup, and counts the rows cleaned |
| `PipelineService.PortalDatabase.UpsertPolicyDocument` | app/integrations/bitrix/sync.py:166-210 | Finds at most one document by remote file id and turns it into the policy file, or inserts one; returns its id |
| `PipelineService.PortalDatabase.UpsertPolicyCache` | app/integrations/bitrix/sync.py:213-242 | Finds at most one policy row for application and deal; afterwards that row, or a new one, holds exactly the data given, the document and the time, and every other row is unchanged |
| `PipelineService.PortalDatabase.SyncPolicyFromDeal` | app/integrations/bitrix/sync.py:245-294 | Both upserts for complete data; otherwise a warning and no change |
| `PipelineService.PortalDatabase.SyncApplication` | app/integrations/bitrix/sync.py:297-430 | Outcome and effect of one sync on every exit: skipped, failed with or without retry, updated; whenever it reports an application issued, the policy row holds what the deal says and its document is the sent policy file |
| `PipelineService.PortalDatabase.SelectForSync` | app/integrations/bitrix/sync.py:442-453 | The active applications with a deal, by last update and id, up to the limit, none left out that comes before a selected one |
| `PipelineService.PortalDatabase.SyncActiveApplications` | app/integrations/bitrix/sync.py:433-465 | A pass, with arbitrary transactions of others before each commit, is a run containing one sync step for each application selected, in order; processed = updated + failed, failed counts the error answers, and none is skipped |
| `PipelineService.PassIsRowByRow` | app/integrations/bitrix/sync.py:447-464 | In a pass every selected row becomes what its own deal makes of it and every other row stays as it was |
| `EmailTheorems.StepKeepsSafe` | app/email_notifications.py:189-240 | Every step of workers, administrators and crashes keeps: a message in processing has at most one holder, holders hold only messages in processing, and messages outside processing have been sent exactly if they are marked sent |
| `EmailTheorems.AtMostOneSend` | app/email_notifications.py:193-209 | Over every interleaving of any number of workers, manual retries and crashes at any point, send_message returns normally at most once per message, and a message marked sent was sent |
| `EmailTheorems.OnlyHolderFinishes` | app/email_notifications.py:194-196 | Nobody but its one holder changes a message in processing |
| `EmailTheorems.CrashStrands` | app/email_notifications.py:196-196 | A crash strands exactly the message its worker held |
| `EmailTheorems.StrandedForever` | app/email_notifications.py:191-191 | A stranded message stays in processing for good and is never sent again |
| `EmailTheorems.EnqueueOnce` | app/email_notifications.py:163-168 | Enqueueing under a key leaves exactly one message with it, and doing so again changes nothing |
| `EmailLaws.FailureFinalIff` | app/email_notifications.py:210-221 | A failed attempt is final exactly for a code outside four or at the last attempt allowed; otherwise the message waits two minutes per attempt |
| `EmailBackoff.StepKeepsCurrent` | app/email_notifications.py:191-217 | What a worker has read of a message is what is there, unless another attempt has been made since |
| `EmailBackoff.AttemptsCountedIff` | app/email_notifications.py:191-196 | Over every interleaving of any number of workers attempt_count is the number of attempts made exactly if no claim on the message was stale |
| `EmailBackoff.AttemptsWithoutStaleClaims` | app/email_notifications.py:191-217 | For any number of workers, crashes and manual retries included: as long as no claim on a message is stale it is attempted at most max(1, max_attempts) times plus once per manual retry, and from the i-th to the k-th attempt, if only the schedule led there, at least k(k-1) - i(i-1) minutes pass |
| `EmailBackoff.SoloAttempts` | app/email_notifications.py:210-217 | In particular with a single worker, which makes no stale claim |
| `EmailBackoff.StepKeepsCounted` | app/email_notifications.py:194-217 | However stale, what a worker has read of a message leaves room for the count it would write |
| `EmailBackoff.AttemptCountBounded` | app/email_notifications.py:194-217 | Over every interleaving of any number of workers attempt_count is at most max(1, max_attempts) plus the manual retries |
| `EmailBackoff.SeveralWorkersOverrun` | app/email_notifications.py:194-194 | With stale claims attempts have neither bound nor spacing: for every n there is a run in which a message allowed three attempts and never retried by hand is attempted n + 1 times, the last n automatic and at one moment |
| `EmailService.OutboxTable.EnqueueEmail` | app/email_notifications.py:156-170 | Inserts, or returns the one message that has the key |
| `EmailService.OutboxTable.ManualRetryEmail` | app/email_notifications.py:229-240 | Which calls put a message back to pending and which error the others get |
| `EmailService.OutboxTable.SelectDue` | app/email_notifications.py:191-191 | Due messages in order of scheduled time up to the limit, none left out that was scheduled earlier |
| `EmailService.OutboxTable.TryClaim` | app/email_notifications.py:194-196 | The compare-and-set wins exactly if the status is the one read, and is the protocol's claim |
| `EmailService.OutboxTable.RecordFailure` | app/email_notifications.py:210-221 | Schedules a retry two minutes per attempt ahead for a retryable code below the limit, and fails the message otherwise |
| `EmailService.OutboxTable.Attempt` | app/email_notifications.py:196-225 | From the commit of the claim to the commit of the outcome, with others' steps in between, is a run of the protocol in which this worker finishes once |
| `EmailService.OutboxTable.ProcessEmailQueue` | app/email_notifications.py:189-226 | The whole loop, with arbitrary steps of others at every commit, is a run of the protocol that leaves the worker idle and returns the number of attempts it finished; undisturbed, it attempts every due message up to the limit once |
| `BitrixClient.RetriedIff` | app/integrations/bitrix/client.py:107-166 | Exactly which answers are retried: none, JSON with 429 or a server error, and accepted requests naming one of three Bitrix errors |
| `BitrixClient.HtmlGatewayErrorNotRetried` | app/integrations/bitrix/client.py:128-136 | A non-JSON answer with a retryable status ends the call, because the body is parsed before the status is looked at |
| `BitrixClient.GoodIff` | app/integrations/bitrix/client.py:138-192 | A call's result is that of a JSON object without error in an answer below 400, and of nothing else |
| `BitrixClient.BadIff` | app/integrations/bitrix/client.py:76-192 | Every other answer is reported with exactly one class, code and HTTP status, given for each kind: timeout, transport, 429, gateway errors, 401, 403, 404, other refusals, unparsable bodies and each family of Bitrix error |
| `BitrixClient.StatusBeforeIs` | app/integrations/bitrix/client.py:193-218 | A post without an answer reports the status of the latest response before it |
| `BitrixClient.CallShape` | app/integrations/bitrix/client.py:124-205 | At most max_retries + 1 posts, all but the last retried, and an early end only on an answer that is not |
| `BitrixClient.Client.SleepBeforeRetry` | app/integrations/bitrix/client.py:258-263 | The total slept stays between b(2^k - 1) and 5/4 of that, and within a quarter second per retry |
| `BitrixClient.Client.Call` | app/integrations/bitrix/client.py:112-239 | Ends with the first answer that is not retried or with the last allowed one; returns that answer's own result exactly if it is a success and otherwise reports its class, code and status; retry_count is posts - 1; last_error is set whenever it is raised; total sleep is bounded both ways |
| `PartnerTheorems.RunKeepsInv` | app/routers/bitrix_webhooks.py:176-309 | Over any run of creations, edits, deliveries, decisions, uses, revocations and added links: confirmed-company columns agree, no row is lost, links are unique per partner and company, and every confirmed request has a link row |
| `PartnerTheorems.WebhookKeepsInv` | app/routers/bitrix_webhooks.py:176-309 | A delivery keeps that |
| `PartnerTheorems.AdminKeepsInv` | app/routers/partner_clients.py:353-435 | An administrator's decision keeps that |
| `PartnerTheorems.DecisionsAgree` | app/partner_client_requests.py:49-56 | In every reachable state a linked company equals both confirmed columns, linked_to_existing implies a linked company, a confirmed request has a confirmed check and its final company is the confirmed one, and a request shown as linked has its linked company as final company |
| `PartnerTheorems.LookupsSingle` | app/partner_client_requests.py:113-118 | The lookups of a request by check company and of a link by partner and company never find two rows |
| `PartnerTheorems.EnsureLinkSpec` | app/partner_client_requests.py:104-143 | Opening a link keeps one row per pair, loses none, changes no other row and leaves the pair active |
| `PartnerLaws.EnsureLinkOpens` | app/partner_client_requests.py:104-143 | The pair's link is active, confirmed by this user now and not revoked, and keeps who created it |
| `PartnerLaws.UseVerdicts` | app/partner_client_requests.py:146-198 | Each verdict on the use of a request has its exact condition |
| `PartnerLaws.DeliveryVerdicts` | app/routers/bitrix_webhooks.py:99-122 | Each parameter error of a delivery has its exact condition |
| `PartnerLaws.WebhookLeaves` | app/routers/bitrix_webhooks.py:209-243 | A delivery stores the status it decides, a link as a confirmation, in both status columns, with the companies each decision settles and the first decision's time |
| `PartnerLaws.WebhookTables` | app/routers/bitrix_webhooks.py:209-255 | It changes the one request it is about, and opens that partner's link exactly when it confirms |
| `PartnerLaws.AdminRefusals` | app/routers/partner_clients.py:360-387 | Each refusal of an administrator's decision has its exact condition; company 1817 never counts |
| `PartnerLaws.AdminLeaves` | app/routers/partner_clients.py:384-411 | A decision stores its status in both status columns and the company named, a linked one first, and opens the link exactly when it confirms |
| `PartnerTheorems.WebhookTwice` | app/routers/bitrix_webhooks.py:198-253 | Repeating a delivery changes only the time of synchronisation and of the link's confirmation |
| `PartnerTheorems.RepeatRecognisedIff` | app/routers/bitrix_webhooks.py:202-207 | Which second deliveries are recognised as repeats: links, and otherwise exactly those naming no linked company for a confirmation or for a request never confirmed before |
| `PartnerWitnesses.RepeatNotRecognised` | app/routers/bitrix_webhooks.py:202-207 | A run from the empty portal to a delivery whose repetition changes only timestamps and is not recognised |
| `PartnerTheorems.UseAllowedIff` | app/partner_client_requests.py:146-198 | A partner may use exactly their own confirmed request for its confirmed company; the mismatch error means exactly a confirmed request for another company; the link is then active and no other link changed |
| `PartnerTheorems.ReopenedIff` | app/partner_client_requests.py:118-133 | Exactly which steps make a revoked link active again: an allowed use, a delivery or an unrefused decision confirming its partner and company; every other step leaves it revoked |
| `PartnerTheorems.RevokedUntilOpened` | app/routers/company_access.py:400-431 | A revoked link stays revoked over every run without such a step |
| `PartnerTheorems.RevocationUndone` | app/partner_client_requests.py:184-197 | In particular a link revoked for a confirmed request is active after the next use of that request |
| `PartnerWitnesses.RevokedAndReopened` | app/partner_client_requests.py:118-133 | A run from the empty portal that revokes a link and reopens it |
| `PartnerService.PartnerDatabase.CreatePartnerClient` | app/routers/partner_clients.py:148-264 | The row inserted and then completed with the remote's answer |
| `PartnerService.PartnerDatabase.UpdatePartnerClient` | app/routers/partner_clients.py:298-338 | Editable exactly by its partner while pending or in clarification, and pending again afterwards |
| `PartnerService.PartnerDatabase.EnsurePartnerClientLink` | app/partner_client_requests.py:104-143 | Reopens the one existing link or inserts one; nothing for a company that is not positive |
| `PartnerService.PartnerDatabase.RequireConfirmedPartnerClientRequest` | app/partner_client_requests.py:146-198 | The verdict for every case, and the link opened only when allowed |
| `PartnerService.PartnerDatabase.DeliveredRow` | app/routers/bitrix_webhooks.py:209-236 | The update values filled in one by one are the row the delivery is stated to leave |
| `PartnerService.PartnerDatabase.UpdateCheckStatusFromBitrix` | app/routers/bitrix_webhooks.py:176-309 | Parameter errors in their order, a duplicate naming a company taken as a link, the request found by its check object, the effect of the decision and whether it was called a repeat |
| `PartnerService.PartnerDatabase.UpdatePartnerClientStatus` | app/routers/partner_clients.py:353-435 | Which decisions are refused and with which error, and the effect of the others |

## Left out

- HTTP routing, authentication, access policies, payload validation, templates, translations, SMTP and logging: input and output, or wide case analysis with little depth.
- Audit rows, free-text reasons and display payloads: written, never read by the modelled code.
- Several clock readings inside one transaction are one reading; between them no other transaction is visible.
- Row order of unordered queries: loops take rows in an arbitrary order, which the results are proved not to depend on.
- Deaths of the process are modelled inside submissions, transfer runs and email attempts; elsewhere a crash between a file operation and a commit, disk faults and path escapes in storage keys are not.
- The concrete CRM field codes, date and number parsing and stage table of the sync: parameters of the model.
- Parsing of the webhook's status text (trimming, case, Russian labels): the decision it stands for is the parameter.
- Re-posting by the client is not joined to deal creation: a failed or repeated post may create several deals, which the set of created deals of a submission allows for.
- The method name and settings checks before the first post of a client call, and its durations and log lines.
- The rollback of a caller's pending work when an email key is already taken, and template checks before enqueueing.
- The `access_status` column of a partner link, which follows its status.
- PipelineService.PortalDatabase.SyncApplication: one sync is one step here and in runs; the overlap of its read and its commit with other transactions is covered by the LateSync lemmas only. Update times are a parameter of the selection.
- PipelineTheorems.LateUploadLeftBehindIff: the state machine itself takes an upload as one step; this lemma, RepeatedSubmitRecovers and LateUploadExceedsIff cover what overlaps do to the queue and to the limit, and runs with overlapping uploads are not modelled.
- DelegationLiveness.StatusFollowsClock: takes as hypothesis that ticks commit; StuckWorker shows what happens when they do not.
