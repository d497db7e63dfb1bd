/**
  What the pipeline's operations leave in the tables, column by column: what a submission records for
  each outcome, when an upload is retried and when it is given up, and what a sync stores.
 */
module PipelineLaws {
  import opened Options
  import opened PipelineTables
  import opened PipelineInvariants
  import opened Sets

  /** Which operations each status allows. */
  lemma StatusLists(status: PortalStatus)
    ensures status.SubmitAllowed() <==> status in {Draft, ReturnedForRevision, SubmitError}
    ensures status.DeleteAllowed() <==> status in {Draft, ReturnedForRevision}
    ensures status.UploadAllowed() <==>
            status in {Draft, ReturnedForRevision, ApprovalPending, SentToWork, InWork, DocumentsExpected,
                       PaymentExpected, PolicyIssuing}
    ensures status.ActiveSync() <==>
            status in {Received, SentToWork, InWork, DocumentsExpected, PaymentExpected, InsurerReview, PolicyIssuing,
                       PolicyIssued, SubmitError}
  {
  }

  // ---------------------------------------------------------------------
  // Submission
  // ---------------------------------------------------------------------

  ghost predicate Tried(s: Store, app: int) {
    exists k | 0 <= k < |s.attempts| :: s.attempts[k].applicationId == app
  }

  lemma {:induction false} TriedIff(s: Store, app: int)
    ensures Tried(s, app) <==> AttemptsOf(s.attempts, app) != []
    decreases |s.attempts|
  {
    var n := |s.attempts|;
    if n > 0 {
      var t := s.(attempts := s.attempts[..n - 1]);
      TriedIff(t, app);
      assert Tried(t, app) ==> Tried(s, app);
    }
  }

  /** A deal id of its own, and not 0. */
  predicate HoldsDeal(s: Store, app: int) {
    app in s.applications && s.applications[app].dealId.Some? && s.applications[app].dealId != Some(0)
  }

  /** This call opens an attempt. */
  predicate Submits(s: Store, app: int) {
    app in s.applications && !HoldsDeal(s, app)
    && s.applications[app].status in {Draft, ReturnedForRevision, SubmitError}
  }

  /** Each outcome of a submission, by the row and the remote's answers; only a first attempt does not look first. */
  lemma SubmitOutcomes(s: Store, app: int, r: Replies, d: int)
    ensures var outcome := SubmitResult(s, app, r);
            && (outcome == NoSuchApplication <==> app !in s.applications)
            && (outcome == DuplicatePrevented(d) <==> HoldsDeal(s, app) && s.applications[app].dealId == Some(d))
            && (outcome == SubmitInProgress <==>
                  app in s.applications && !HoldsDeal(s, app) && s.applications[app].status == Submitting)
            && (outcome == AlreadySubmitted <==>
                  app in s.applications && !HoldsDeal(s, app) && !Submits(s, app)
                  && s.applications[app].status != Submitting)
            && (outcome == LookupFailed <==> Submits(s, app) && Tried(s, app) && r.lookup.LookupError?)
            && (outcome == FoundExisting(d) <==>
                  Submits(s, app) && Tried(s, app) && r.lookup == LookupResult(Some(d)) && d != 0)
            && (outcome == CreateFailed <==> Creates(s, app, r) && r.create.CreateError?)
            && (outcome == CreatedDeal(d) <==> Creates(s, app, r) && r.create == CreateResult(d))
            && (Creates(s, app, r) <==> InvokesCreate(s, app, r)) && (Submits(s, app) <==> OpensAttempt(s, app))
  {
    TriedIff(s, app);
    hide Tried, AttemptsOf;
  }

  ghost predicate Creates(s: Store, app: int, r: Replies) {
    Submits(s, app) && (!Tried(s, app) || r.lookup == LookupResult(None) || r.lookup == LookupResult(Some(0)))
  }

  /** The deal an outcome ends with. */
  function DealOf(outcome: SubmitOutcome): Option<int> {
    match outcome
    case FoundExisting(d) => Some(d)
    case CreatedDeal(d) => Some(d)
    case _ => None
  }

  function ErrorOf(outcome: SubmitOutcome): Option<string> {
    match outcome
    case LookupFailed => Some("BITRIX_DEAL_LOOKUP_FAILED")
    case CreateFailed => Some("BITRIX_DEAL_CREATE_FAILED")
    case _ => None
  }

  /** An attempt leaves the application received with its deal, or in submit_error, and is recorded either way. */
  lemma SubmitLeaves(s: Store, app: int, r: Replies, category: Option<int>, now: int)
    requires Submits(s, app)
    ensures var t, outcome, row := Submit(s, app, r, category, now), SubmitResult(s, app, r), s.applications[app];
            var deal := DealOf(outcome);
            && t.applications == s.applications[app :=
                 if deal.Some?
                 then row.(status := Received, dealId := deal, submittedAt := Some(now), lastSyncedAt := Some(now),
                           categoryId := if category.Some? then category else row.categoryId)
                 else row.(status := SubmitError, lastSyncedAt := Some(now))]
            && t.attempts == s.attempts + [Attempt(
                 app, |AttemptsOf(s.attempts, app)| + 1, if deal.Some? then Succeeded else AttemptRetryRequired,
                 deal, ErrorOf(outcome), true)]
            && (deal.None? <==> ErrorOf(outcome).Some?)
            && (if deal.Some? then TakeDeal(s, t, app, deal.value) else t.documents == s.documents)
            && t.policies == s.policies && t.disk == s.disk
  {
    StatusLists(s.applications[app].status);
    TakesDeal(s, app, 0);
    if DealOf(SubmitResult(s, app, r)).Some? { TakesDeal(s, app, DealOf(SubmitResult(s, app, r)).value); }
    hide AttemptsOf, WithCreated, WithDeal;
  }

  /** The application's row after every outcome. */
  lemma SubmitApplications(s: Store, app: int, r: Replies, category: Option<int>, now: int)
    ensures var t, outcome := Submit(s, app, r, category, now), SubmitResult(s, app, r);
            && (DealOf(outcome).Some? ==>
                  app in s.applications && t.applications == s.applications[app := s.applications[app].(
                    status := Received, dealId := DealOf(outcome), submittedAt := Some(now), lastSyncedAt := Some(now),
                    categoryId := if category.Some? then category else s.applications[app].categoryId)])
            && (ErrorOf(outcome).Some? ==>
                  app in s.applications && t.applications == s.applications[app := s.applications[app].(
                    status := SubmitError, lastSyncedAt := Some(now))])
            && (DealOf(outcome).None? && ErrorOf(outcome).None? ==> t.applications == s.applications)
  {
    hide AttemptsOf, WithCreated, WithDeal;
  }

  /** The documents of an application still waiting to be sent now carry its deal. */
  ghost predicate TakeDeal(s: Store, t: Store, app: int, deal: int) {
    && |t.documents| == |s.documents|
    && forall i | 0 <= i < |s.documents| ::
         t.documents[i] ==
           if s.documents[i].applicationId == app && s.documents[i].status in {Uploaded, RetryRequired}
           then s.documents[i].(dealId := Some(deal)) else s.documents[i]
  }

  lemma TakesDeal(s: Store, app: int, deal: int)
    ensures TakeDeal(s, s.(documents := WithDeal(s.documents, app, deal)), app, deal)
  {
  }

  /** Without an attempt at most the application's waiting documents change, for the deal it already has. */
  lemma SubmitWithoutAttempt(s: Store, app: int, r: Replies, category: Option<int>, now: int)
    requires !Submits(s, app)
    ensures var t := Submit(s, app, r, category, now);
            && t == s.(documents := t.documents)
            && (if HoldsDeal(s, app) then TakeDeal(s, t, app, s.applications[app].dealId.value) else t == s)
  {
    if HoldsDeal(s, app) { TakesDeal(s, app, s.applications[app].dealId.value); }
    hide AttemptsOf, WithDeal;
  }

  /** The remote gains the deals the call made, all for this application, and only when create_deal was called. */
  lemma SubmitDealsAre(s: Store, app: int, r: Replies, category: Option<int>, now: int, d: int)
    requires Truthful(s, app, r)
    ensures var t := Submit(s, app, r, category, now);
            && (d in t.deals <==> d in s.deals || (Creates(s, app, r) && d in r.created))
            && (d in s.deals ==> t.deals[d] == s.deals[d])
            && (d in t.deals && d !in s.deals ==> t.deals[d] == app)
  {
    SubmitOutcomes(s, app, r, d);
    hide AttemptsOf, WithDeal, DealsFor, Creates;
  }

  /** A new application is a draft without deal, stage or sync. */
  lemma DraftLeaves(s: Store, app: int, product: Option<string>, now: int)
    requires app !in s.applications
    ensures Apply(s, DraftStep(app, product), now) ==
            s.(applications := s.applications[app := Application(
                 Draft, None, None, None, product, None, None, SyncPending, None, None)])
  {
  }

  // ---------------------------------------------------------------------
  // Uploading and deleting
  // ---------------------------------------------------------------------

  /** The documents that count towards the limit. */
  function Counted(documents: seq<Document>, app: int): set<nat> {
    set i: nat | i < |documents| && documents[i].applicationId == app
                 && documents[i].status !in {Deleted, ExpiredDocument}
  }

  lemma {:induction false} LiveAreCounted(documents: seq<Document>, app: int)
    ensures LiveDocuments(documents, app) == |Counted(documents, app)|
  {
    if documents != [] {
      var n := |documents| - 1;
      LiveAreCounted(documents[..n], app);
      var more := Counted(documents, app);
      assert Counted(documents[..n], app) == more - {n};
    }
  }

  /** A new document waits for transfer, not yet expired, under its application's deal if there is one. */
  lemma UploadLeaves(s: Store, app: int, kind: string, key: string, expiresAt: int)
    ensures var may := app in s.applications
                       && s.applications[app].status in
                            {Draft, ReturnedForRevision, ApprovalPending, SentToWork, InWork, DocumentsExpected,
                             PaymentExpected, PolicyIssuing}
                       && |Counted(s.documents, app)| < 10;
            && (may <==> MayUpload(s, app))
            && Upload(s, app, kind, key, expiresAt) ==
                 if may
                 then s.(disk := s.disk + {key},
                         documents := s.documents + [Document(
                           app, kind, false, Some(key), Uploaded, None, s.applications[app].dealId, None, None,
                           Some(expiresAt), 0, None, 0)])
                 else s
  {
    LiveAreCounted(s.documents, app);
    if app in s.applications { StatusLists(s.applications[app].status); }
    hide LiveDocuments, Counted;
  }

  lemma DeleteLeaves(s: Store, app: int, id: nat, now: int)
    ensures var may := app in s.applications && s.applications[app].status in {Draft, ReturnedForRevision}
                       && id < |s.documents| && s.documents[id].applicationId == app && s.documents[id].status != Sent;
            && (may <==> MayDelete(s, app, id))
            && Delete(s, app, id, now) ==
                 if may
                 then s.(documents := s.documents[id := s.documents[id].(
                           status := Deleted, localDeletedAt := Some(now))],
                         disk := set k | k in s.disk && (s.documents[id].storageKey != Some(k) || k == ""))
                 else s
  {
  }

  // ---------------------------------------------------------------------
  // The transfer queue
  // ---------------------------------------------------------------------

  /** What the queue may pick up. */
  lemma EligibleIff(s: Store, i: nat)
    ensures Eligible(s, i) <==>
            && i < |s.documents|
            && var row := s.documents[i];
            && row.status in {Uploaded, RetryRequired} && row.localDeletedAt == None
            && row.dealId.Some? && row.applicationId in s.applications
            && s.applications[row.applicationId].dealId == row.dealId
  {
  }

  /** It picks the oldest: a document is in the batch while fewer than the limit wait before it. */
  lemma BatchIsOldest(s: Store, limit: nat, i: nat)
    ensures InBatch(s, limit, i) <==> Eligible(s, i) && |Waiting(s, i)| < limit
  {
    WaitingCounted(s, i);
  }

  function Waiting(s: Store, n: nat): set<nat> {
    set j: nat | 0 <= j < n && Eligible(s, j)
  }

  lemma {:induction false} WaitingCounted(s: Store, n: nat)
    ensures EligibleBefore(s, n) == |Waiting(s, n)|
  {
    if n > 0 {
      hide Eligible;
      WaitingCounted(s, n - 1);
      if Eligible(s, n - 1) {
        assert Waiting(s, n) == Waiting(s, n - 1) + {n - 1};
      } else {
        assert Waiting(s, n) == Waiting(s, n - 1);
      }
    }
  }

  /** The file of this document is on disk. */
  predicate HasFile(s: Store, row: Document) {
    row.storageKey.Some? && row.storageKey.value != "" && row.storageKey.value in s.disk
  }

  /** One document and the uploader's answer: sent, or one retry used, of which there are three. */
  predicate Delivery(row: Document, row': Document, disk: set<string>, reply: UploadReply, now: int) {
    var available := row.storageKey.Some? && row.storageKey.value != "" && row.storageKey.value in disk;
    row' ==
      if available && reply.UploadedAs?
      then row.(status := Sent, fileId := Some(reply.fileId), transferredAt := Some(now), localDeletedAt := Some(now),
                lastError := None, uploads := row.uploads + 1)
      else row.(status := if row.retryCount < 2 then RetryRequired else TransferFailed,
                retryCount := row.retryCount + 1,
                lastError := Some(if available then reply.code else "DOCUMENT_DOWNLOAD_NOT_AVAILABLE"),
                uploads := row.uploads + if available then 1 else 0)
  }

  /** A document that was uploaded is sent under its new id, and its file is gone. */
  lemma TransferSucceeds(s: Store, limit: nat, replies: map<nat, UploadReply>, now: int, i: nat)
    requires forall j | InBatch(s, limit, j) :: j in replies
    requires InBatch(s, limit, i) && HasFile(s, s.documents[i]) && replies[i].UploadedAs?
    ensures var t, row := Transfer(s, limit, replies, now), s.documents[i];
            && Delivery(row, t.documents[i], s.disk, replies[i], now)
            && t.documents[i].status == Sent && t.documents[i].fileId == Some(replies[i].fileId)
            && t.documents[i].transferredAt == Some(now)
            && row.storageKey.value !in t.disk
  {
    assert s.documents[i].storageKey.value in FileOf(s.documents[i]);
    assert s.documents[i].storageKey.value in SentFiles(s, limit, replies);
    hide InBatch, Eligible;
  }

  /** A document that was not stays in the queue for two failures and is given up at the third; its file stays. */
  lemma TransferFails(s: Store, limit: nat, replies: map<nat, UploadReply>, now: int, i: nat)
    requires forall j | InBatch(s, limit, j) :: j in replies
    requires InBatch(s, limit, i) && !(HasFile(s, s.documents[i]) && replies[i].UploadedAs?)
    ensures var t, row := Transfer(s, limit, replies, now), s.documents[i];
            && Delivery(row, t.documents[i], s.disk, replies[i], now)
            && t.documents[i].status == (if row.retryCount + 1 < 3 then RetryRequired else TransferFailed)
            && t.documents[i].retryCount == row.retryCount + 1
            && (Eligible(t, i) <==> row.retryCount + 1 < 3)
  {
    hide EligibleBefore, SentFiles;
  }

  /** What a run of the queue makes of a document in its batch, when its file is there. */
  predicate HandedOver(row: Document, row': Document, disk: set<string>, reply: UploadReply, now: int) {
    match reply
    case UploadedAs(fileId) =>
      && row'.status == Sent && row'.fileId == Some(fileId) && row'.transferredAt == Some(now)
      && row'.retryCount == row.retryCount && row.storageKey.Some? && row.storageKey.value !in disk
    case UploadError(code) =>
      && row'.status == (if row.retryCount < 2 then RetryRequired else TransferFailed)
      && row'.retryCount == row.retryCount + 1 && row'.lastError == Some(code) && row'.fileId == row.fileId
  }

  /** In a committed state the file of every document in the batch is there, so the uploader's answers decide. */
  lemma QueueOutcomes(s: Store, limit: nat, replies: map<nat, UploadReply>, now: int)
    requires Inv(s) && forall i | InBatch(s, limit, i) :: i in replies
    ensures var t := Transfer(s, limit, replies, now);
            && |t.documents| == |s.documents|
            && forall i: nat | i < |s.documents| && InBatch(s, limit, i) ::
                 HandedOver(s.documents[i], t.documents[i], t.disk, replies[i], now)
  {
    var t := Transfer(s, limit, replies, now);
    forall i: nat | i < |s.documents| && InBatch(s, limit, i)
      ensures HandedOver(s.documents[i], t.documents[i], t.disk, replies[i], now)
    {
      QueueOutcome(s, limit, replies, now, i);
    }
    hide Inv, InBatch, HandedOver;
  }

  lemma QueueOutcome(s: Store, limit: nat, replies: map<nat, UploadReply>, now: int, i: nat)
    requires Inv(s) && i < |s.documents| && InBatch(s, limit, i) && forall j | InBatch(s, limit, j) :: j in replies
    ensures var t := Transfer(s, limit, replies, now);
            i < |t.documents| && HandedOver(s.documents[i], t.documents[i], t.disk, replies[i], now)
  {
    BatchOnDisk(s, i);
    assert HasFile(s, s.documents[i]);
    TransferLeavesOthers(s, limit, replies, now, i, "");
    hide Inv, Transfer, InBatch;
    if replies[i].UploadedAs? {
      TransferSucceeds(s, limit, replies, now, i);
    } else {
      TransferFails(s, limit, replies, now, i);
    }
  }

  /** Nothing else changes: other documents keep their rows, and only files that were handed over leave the disk. */
  lemma TransferLeavesOthers(s: Store, limit: nat, replies: map<nat, UploadReply>, now: int, i: nat, key: string)
    requires forall j | InBatch(s, limit, j) :: j in replies
    ensures var t := Transfer(s, limit, replies, now);
            && |t.documents| == |s.documents|
            && (i < |s.documents| && !InBatch(s, limit, i) ==> t.documents[i] == s.documents[i])
            && t == s.(documents := t.documents, disk := t.disk)
            && (key in t.disk <==>
                  key in s.disk
                  && forall j: nat | InBatch(s, limit, j) && replies[j].UploadedAs? ::
                       s.documents[j].storageKey != Some(key) || key == "")
  {
    var t := Transfer(s, limit, replies, now);
    if j: nat :| InBatch(s, limit, j) && replies[j].UploadedAs? && s.documents[j].storageKey == Some(key) && key != "" {
      assert key in FileOf(s.documents[j]);
      assert key in SentFiles(s, limit, replies);
    }
    hide EligibleBefore, TransferredRow;
  }

  // ---------------------------------------------------------------------
  // Three failures, over every run
  // ---------------------------------------------------------------------

  /** How often a document in the queue has failed so far shows in its status. */
  predicate Ledger(row: Document) {
    && (row.status == Uploaded ==> row.retryCount == 0)
    && (row.status == RetryRequired ==> 1 <= row.retryCount <= 2)
    && (row.status == TransferFailed ==> row.retryCount == 3)
    && row.retryCount <= 3
  }

  ghost predicate LedgerGood(s: Store) {
    forall i | 0 <= i < |s.documents| :: Ledger(s.documents[i])
  }

  /** This step is a run of the queue that has the document in its batch and does not send it. */
  predicate FailsIn(s: Store, step: Step, i: nat)
    requires Enabled(s, step)
  {
    step.TransferStep? && InBatch(s, step.limit, i) && i < |s.documents|
    && !(HasFile(s, s.documents[i]) && step.uploads[i].UploadedAs?)
  }

  /** How many runs of the queue failed to send a document. */
  function Failures(s: Store, run: seq<TimedStep>, i: nat): nat
    requires EnabledRun(s, run)
    decreases |run|
  {
    if run == [] then 0
    else (if FailsIn(s, run[0].step, i) then 1 else 0) + Failures(Apply(s, run[0].step, run[0].now), run[1..], i)
  }

  lemma StepKeepsLedger(s: Store, step: Step, now: int, i: nat)
    requires Enabled(s, step) && LedgerGood(s) && i < |s.documents|
    ensures var t := Apply(s, step, now);
            && LedgerGood(t) && |s.documents| <= |t.documents|
            && t.documents[i].retryCount == s.documents[i].retryCount + if FailsIn(s, step, i) then 1 else 0
  {
    match step {
      case TransferStep(limit, uploads) =>
        var t := Apply(s, step, now);
        forall j | 0 <= j < |t.documents|
          ensures Ledger(t.documents[j])
          ensures t.documents[j].retryCount == s.documents[j].retryCount + if FailsIn(s, step, j) then 1 else 0
        {
          TransferKeepsLedger(s, limit, uploads, now, j);
        }
      case SyncStep(_, _, _) => SyncKeepsLedger(s, step, now, i);
      case _ => OthersKeepLedger(s, step, now, i);
    }
  }

  lemma TransferKeepsLedger(s: Store, limit: nat, uploads: map<nat, UploadReply>, now: int, i: nat)
    requires Enabled(s, TransferStep(limit, uploads)) && LedgerGood(s) && i < |s.documents|
    ensures var t := Apply(s, TransferStep(limit, uploads), now);
            && |t.documents| == |s.documents| && Ledger(t.documents[i])
            && t.documents[i].retryCount
               == s.documents[i].retryCount + if FailsIn(s, TransferStep(limit, uploads), i) then 1 else 0
  {
    assert Ledger(s.documents[i]);
    hide EligibleBefore, FreshFileIds, SentFiles, LedgerGood;
  }

  lemma OthersKeepLedger(s: Store, step: Step, now: int, i: nat)
    requires !step.TransferStep? && !step.SyncStep? && Enabled(s, step) && LedgerGood(s) && i < |s.documents|
    ensures var t := Apply(s, step, now);
            && LedgerGood(t) && |s.documents| <= |t.documents|
            && t.documents[i].retryCount == s.documents[i].retryCount
  {
    var t := Apply(s, step, now);
    OthersKeepRow(s, step, now, i);
    forall j | 0 <= j < |t.documents| ensures Ledger(t.documents[j]) {
      OthersKeepRow(s, step, now, j);
    }
    hide Apply, Enabled, Ledger;
  }

  lemma OthersKeepRow(s: Store, step: Step, now: int, i: nat)
    requires !step.TransferStep? && !step.SyncStep? && Enabled(s, step)
    requires i < |s.documents| ==> Ledger(s.documents[i])
    ensures var t := Apply(s, step, now);
            && |s.documents| <= |t.documents|
            && (i < |t.documents| ==> Ledger(t.documents[i]))
            && (i < |s.documents| ==> t.documents[i].retryCount == s.documents[i].retryCount)
  {
    hide Truthful, LiveDocuments, CleanedFiles, Sync, Transfer, Submit;
    match step {
      case SubmitStep(app, r, category) =>
        SubmitKeepsCounts(s, app, r, category, now, i);
      case _ =>
    }
  }

  lemma SubmitKeepsCounts(s: Store, app: int, r: Replies, category: Option<int>, now: int, i: nat)
    ensures var t := Submit(s, app, r, category, now);
            && |t.documents| == |s.documents|
            && (i < |s.documents| ==>
                  t.documents[i].status == s.documents[i].status
                  && t.documents[i].retryCount == s.documents[i].retryCount)
  {
    hide AttemptsOf, WithCreated, SubmitResult;
  }

  lemma SyncKeepsLedger(s: Store, step: Step, now: int, i: nat)
    requires step.SyncStep? && Enabled(s, step) && LedgerGood(s) && i < |s.documents|
    ensures var t := Apply(s, step, now);
            && LedgerGood(t) && |s.documents| <= |t.documents|
            && t.documents[i].retryCount == s.documents[i].retryCount
  {
    hide PolicyPayload, FindDocument, FindPolicy, SyncedRow, MappedStatus, SyncVerdict;
  }

  /**
    Over every run, a document is given up at exactly the third run of the queue that fails to send it:
    until then it is not failed, and from then on it is not in the queue.
   */
  lemma {:induction false} GivenUpAtThird(s: Store, run: seq<TimedStep>, i: nat)
    requires EnabledRun(s, run) && LedgerGood(s) && i < |s.documents|
    ensures var t := Run(s, run);
            var failures := s.documents[i].retryCount + Failures(s, run, i);
            && i < |t.documents| && failures <= 3
            && (t.documents[i].status == TransferFailed ==> failures == 3)
            && (t.documents[i].status == Uploaded ==> failures == 0)
            && (t.documents[i].status == RetryRequired ==> failures in {1, 2})
            && LedgerGood(t) && t.documents[i].retryCount == failures
    decreases |run|
  {
    if run == [] {
      assert Ledger(s.documents[i]);
    } else {
      hide Apply, Enabled, FailsIn, LedgerGood, Ledger;
      StepKeepsLedger(s, run[0].step, run[0].now, i);
      GivenUpAtThird(Apply(s, run[0].step, run[0].now), run[1..], i);
    }
  }

  /** A document in the queue whose uploads all fail and which nothing else touches is failed after its third. */
  lemma FailingBatch(s: Store, limit: nat, replies: map<nat, UploadReply>, now: int, i: nat)
    requires Enabled(s, TransferStep(limit, replies)) && LedgerGood(s) && i < |s.documents|
    requires FailsIn(s, TransferStep(limit, replies), i)
    ensures var t := Apply(s, TransferStep(limit, replies), now);
            t.documents[i].status == if s.documents[i].retryCount == 2 then TransferFailed else RetryRequired
  {
    assert Ledger(s.documents[i]);
    TransferFails(s, limit, replies, now, i);
    hide Transfer, InBatch;
  }

  // ---------------------------------------------------------------------
  // Cleanup
  // ---------------------------------------------------------------------

  /** Cleanup closes what was sent and expires what is overdue; the rest is left. */
  lemma CleanupLeaves(s: Store, now: int, i: nat)
    requires i < |s.documents|
    ensures var t, row := Cleanup(s, now), s.documents[i];
            var overdue := row.status in {Uploaded, TransferFailed, RetryRequired} && row.expiresAt.Some?
                           && row.expiresAt.value < now;
            && |t.documents| == |s.documents| && t == s.(documents := t.documents, disk := t.disk)
            && t.documents[i] ==
                 if row.localDeletedAt.None? && overdue
                 then row.(status := ExpiredDocument, localDeletedAt := Some(now),
                           lastError := Some("DOCUMENT_TEMPORARY_FILE_EXPIRED"))
                 else if row.localDeletedAt.None? && row.status == Sent && HasFile(s, row)
                 then row.(localDeletedAt := Some(now))
                 else row
  {
    hide CleanedFiles;
  }

  // ---------------------------------------------------------------------
  // Reverse sync
  // ---------------------------------------------------------------------

  /** The deal's category, else the one held, else 0. */
  predicate CategoryIs(row: Application, deal: Deal, category: int) {
    || deal.categoryId == Some(category)
    || (deal.categoryId == None && row.categoryId == Some(category))
    || (deal.categoryId == None && row.categoryId == None && category == 0)
  }

  /** The status a deal asks for: that of its stage, or the present one while the stage is not mapped. */
  predicate AsksFor(row: Application, deal: Deal, stages: StageMap, category: int, status: PortalStatus) {
    && CategoryIs(row, deal, category)
    && status == if deal.stageId != "" && (category, deal.stageId) in stages then stages[(category, deal.stageId)]
                 else row.status
  }

  /** All fields of a policy are there; the product may come from the application. */
  predicate Describes(row: Application, f: PolicyFields, data: PolicyData) {
    && f == PolicyFields(Some(data.number), f.product, Some(data.insurer), Some(data.validFrom), Some(data.validTo),
                         Some(data.premium), Some(data.currency), Some(data.fileId))
    && (f.product == Some(data.product) || (f.product == None && row.productType == Some(data.product)))
    && data.product != ""
  }

  lemma DescribesIff(row: Application, f: PolicyFields, data: PolicyData)
    ensures PolicyPayload(row, f) == Some(data) <==> Describes(row, f, data)
  {
  }

  /** What becomes of the application's row, and what the caller is told of it. */
  lemma SyncedApplication(
    s: Store, app: int, deal: Deal, stages: StageMap, now: int, category: int, asked: PortalStatus)
    requires HoldsDeal(s, app) && AsksFor(s.applications[app], deal, stages, category, asked)
    ensures var t, row := Sync(s, app, DealResult(deal), stages, now), s.applications[app];
            var complete := exists data :: Describes(row, deal.policy, data);
            var status := if asked == PolicyIssued && !complete then PolicyIssuing else asked;
            var warning := if asked == PolicyIssued && !complete then Some("POLICY_DATA_INCOMPLETE") else None;
            && t.applications == s.applications[app := row.(
                 status := status, categoryId := Some(category),
                 stageId := if deal.stageId != "" then Some(deal.stageId) else row.stageId,
                 syncStatus := Synced, syncError := None, syncWarning := warning, lastSyncedAt := Some(now))]
            && SyncResult(s, app, DealResult(deal), stages) == Updated(status, warning)
            && (asked != PolicyIssued || !complete ==> t == s.(applications := t.applications))
  {
    var row := s.applications[app];
    forall data ensures PolicyPayload(row, deal.policy) == Some(data) <==> Describes(row, deal.policy, data) {
      DescribesIff(row, deal.policy, data);
    }
    if PolicyPayload(row, deal.policy).Some? {
      assert Describes(row, deal.policy, PolicyPayload(row, deal.policy).value);
    }
    hide PolicyPayload, Describes, SyncPolicy;
  }

  /**
    An issued application's policy row holds exactly what the deal says, whether or not there was one
    before; its document is the sent policy file with the deal's file id.
   */
  lemma SyncedPolicy(
    s: Store, app: int, deal: Deal, stages: StageMap, now: int, category: int, data: PolicyData)
    requires Inv(s) && HoldsDeal(s, app) && AsksFor(s.applications[app], deal, stages, category, PolicyIssued)
    requires Describes(s.applications[app], deal.policy, data)
    ensures var t := Sync(s, app, DealResult(deal), stages, now);
            exists p: nat, id: nat ::
              && PolicyStored(s, t, app, data, id, now, p)
              && FileStored(s, t, app, data.fileId, now, id)
  {
    var row := s.applications[app];
    DescribesIff(row, deal.policy, data);
    var found := FindDocument(s.documents, app, data.fileId);
    var id := if found.Some? then found.value else |s.documents|;
    var t := Sync(s, app, DealResult(deal), stages, now);
    var d := UpsertDocument(s, app, data.fileId, now);
    var u := UpsertPolicy(d, app, data, id, now);
    assert MappedStatus(row, deal, stages) == PolicyIssued by { hide Inv, PolicyPayload, Describes; }
    assert HasDealId(row);
    hide *;
    SyncIsUpserts(s, app, deal, stages, now, data);
    StoresFile(s, app, data.fileId, now);
    var p := StoresPolicy(d, app, data, id, now);
    SameRows(s, d, u, t, app, data, id, now, p);
  }

  lemma SyncIsUpserts(s: Store, app: int, deal: Deal, stages: StageMap, now: int, data: PolicyData)
    requires app in s.applications && HasDealId(s.applications[app])
    requires MappedStatus(s.applications[app], deal, stages) == PolicyIssued
    requires PolicyPayload(s.applications[app], deal.policy) == Some(data)
    ensures var t := Sync(s, app, DealResult(deal), stages, now);
            var found := FindDocument(s.documents, app, data.fileId);
            var u := UpsertPolicy(UpsertDocument(s, app, data.fileId, now), app, data,
                                  if found.Some? then found.value else |s.documents|, now);
            t.policies == u.policies && t.documents == u.documents && t.disk == u.disk
  {
    hide PolicyPayload, MappedStatus, FindDocument, FindPolicy, UpsertDocument, UpsertPolicy, SyncedRow;
  }

  lemma SameRows(
    s: Store, d: Store, u: Store, t: Store, app: int, data: PolicyData, id: nat, now: int, p: nat)
    requires FileStored(s, d, app, data.fileId, now, id) && PolicyStored(d, u, app, data, id, now, p)
    requires d == s.(documents := d.documents, disk := d.disk) && u == d.(policies := u.policies)
    requires t.policies == u.policies && t.documents == u.documents && t.disk == u.disk
    ensures PolicyStored(s, t, app, data, id, now, p) && FileStored(s, t, app, data.fileId, now, id)
  {
  }

  /** A policy row of this application and deal holds what these fields say, and leads to the sent policy file. */
  ghost predicate StoresDeal(s: Store, t: Store, app: int, f: PolicyFields, now: int) {
    app in s.applications
    && exists p: nat | p < |t.policies| ::
         && t.policies[p].applicationId == app && t.policies[p].dealId == s.applications[app].dealId
         && Describes(s.applications[app], f, t.policies[p].data)
         && t.policies[p].lastSyncedAt == now && t.policies[p].documentId < |t.documents|
         && t.documents[t.policies[p].documentId].fileId == Some(t.policies[p].data.fileId)
         && t.documents[t.policies[p].documentId].isPolicyFile
         && t.documents[t.policies[p].documentId].status == Sent
  }

  /** Whenever a sync reports an application issued, its policy row holds what the deal says. */
  lemma IssuedStoresPolicy(s: Store, app: int, deal: Deal, stages: StageMap, now: int)
    requires Inv(s)
    ensures var t, outcome := Sync(s, app, DealResult(deal), stages, now),
                              SyncResult(s, app, DealResult(deal), stages);
            && (outcome.Updated? ==>
                  HoldsDeal(s, app) && app in t.applications
                  && t.applications[app].status == outcome.status
                  && t.applications[app].syncWarning == outcome.warning)
            && (outcome.Updated? && outcome.status == PolicyIssued ==> StoresDeal(s, t, app, deal.policy, now))
  {
    if HoldsDeal(s, app) {
      var row := s.applications[app];
      var category := SyncCategory(row, deal);
      var asked := MappedStatus(row, deal, stages);
      assert AsksFor(row, deal, stages, category, asked);
      SyncedApplication(s, app, deal, stages, now, category, asked);
      if asked == PolicyIssued && exists data :: Describes(row, deal.policy, data) {
        var data :| Describes(row, deal.policy, data);
        SyncedPolicy(s, app, deal, stages, now, category, data);
        hide Inv, Sync, SyncResult, Describes;
        var t := Sync(s, app, DealResult(deal), stages, now);
        var p: nat, id: nat :|
          PolicyStored(s, t, app, data, id, now, p) && FileStored(s, t, app, data.fileId, now, id);
        assert t.policies[p].applicationId == app && t.policies[p].data == data;
      }
    }
    hide Inv, Sync, SyncDeal, Describes;
  }

  /** The policy row of this application and deal, new or replaced; the others are as they were. */
  ghost predicate PolicyStored(s: Store, t: Store, app: int, data: PolicyData, id: nat, now: int, p: nat) {
    && app in s.applications && p < |t.policies| && |s.policies| <= |t.policies| <= |s.policies| + 1
    && t.policies[p] == Policy(app, s.applications[app].dealId, data, id, now)
    && (p < |s.policies| ==>
          |t.policies| == |s.policies| && s.policies[p].applicationId == app
          && s.policies[p].dealId == s.applications[app].dealId)
    && (p >= |s.policies| ==> forall q | 0 <= q < |s.policies| ::
          s.policies[q].applicationId != app || s.policies[q].dealId != s.applications[app].dealId)
    && forall q | 0 <= q < |s.policies| && q != p :: t.policies[q] == s.policies[q]
  }

  lemma StoresPolicy(s: Store, app: int, data: PolicyData, id: nat, now: int) returns (p: nat)
    requires app in s.applications
    ensures PolicyStored(s, UpsertPolicy(s, app, data, id, now), app, data, id, now, p)
    ensures var t := UpsertPolicy(s, app, data, id, now); t == s.(policies := t.policies)
  {
    var f := FindPolicy(s.policies, app, s.applications[app].dealId);
    FindPolicySpec(s.policies, app, s.applications[app].dealId);
    p := if f.Some? then f.value else |s.policies|;
    hide FindPolicy;
  }

  /** The document with this file id, new or found, is the application's sent policy file; its local file is gone. */
  ghost predicate FileStored(s: Store, t: Store, app: int, fileId: string, now: int, id: nat) {
    && app in s.applications && id < |t.documents| && |s.documents| <= |t.documents| <= |s.documents| + 1
    && t.documents[id] ==
         (if id < |s.documents|
          then s.documents[id].(
                 documentType := "policy_file", isPolicyFile := true, storageKey := None, status := Sent,
                 dealId := s.applications[app].dealId,
                 localDeletedAt := if s.documents[id].storageKey in {None, Some("")}
                                   then s.documents[id].localDeletedAt else Some(now))
          else Document(app, "policy_file", true, None, Sent, Some(fileId), s.applications[app].dealId, Some(now),
                        None, None, 0, None, 0))
    && t.documents[id].applicationId == app && t.documents[id].fileId == Some(fileId)
    && (id < |s.documents| ==> |t.documents| == |s.documents|)
    && (forall i | 0 <= i < |s.documents| && i != id :: t.documents[i] == s.documents[i])
    && (id < |s.documents| ==>
          forall k :: k in t.disk <==> k in s.disk && (s.documents[id].storageKey != Some(k) || k == ""))
    && (id >= |s.documents| ==> t.disk == s.disk)
  }

  lemma StoresFile(s: Store, app: int, fileId: string, now: int)
    requires app in s.applications
    ensures var t := UpsertDocument(s, app, fileId, now);
            var f := FindDocument(s.documents, app, fileId);
            && FileStored(s, t, app, fileId, now, if f.Some? then f.value else |s.documents|)
            && t == s.(documents := t.documents, disk := t.disk)
  {
    FindDocumentSpec(s.documents, app, fileId);
    hide FindDocument;
  }

  /** A sync the remote refuses records the error and changes nothing else; one without a deal changes nothing. */
  lemma SyncRefused(s: Store, app: int, code: string, retryable: bool, stages: StageMap, now: int)
    ensures var t, outcome := Sync(s, app, DealError(code, retryable), stages, now),
                              SyncResult(s, app, DealError(code, retryable), stages);
            if HoldsDeal(s, app)
            then outcome == Failed(code)
                 && t == s.(applications := s.applications[app := s.applications[app].(
                      syncStatus := if retryable then SyncRetryRequired else SyncFailed,
                      syncError := Some(code), lastSyncedAt := Some(now))])
            else outcome == Skipped && t == s
  {
  }

  lemma SyncSkippedIff(s: Store, app: int, reply: DealReply, stages: StageMap, now: int)
    ensures SyncResult(s, app, reply, stages) == Skipped <==> !HoldsDeal(s, app)
    ensures !HoldsDeal(s, app) ==> Sync(s, app, reply, stages, now) == s
  {
    hide SyncVerdict, SyncDeal;
  }
}
