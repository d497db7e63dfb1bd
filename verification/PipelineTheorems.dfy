/**
  Properties of the pipeline over whole runs: one remote creation per application, no document left
  behind, a queue that drains within a bound, and a reverse sync that can be repeated.
 */
module PipelineTheorems {
  import opened Options
  import opened PipelineTables
  import opened PipelineInvariants

  // ---------------------------------------------------------------------
  // One remote creation per application
  // ---------------------------------------------------------------------

  /**
    create_deal is invoked while the remote already holds a deal exactly when no attempt for the
    application has been committed although an earlier call created one.
   */
  lemma DuplicateCreateIff(s: Store, app: int, r: Replies)
    requires Truthful(s, app, r) && forall d | d in s.deals :: 0 < d
    ensures InvokesCreate(s, app, r) && DealsFor(s, app) != {}
            <==> OpensAttempt(s, app) && DealsFor(s, app) != {} && AttemptsOf(s.attempts, app) == []
  {
  }

  /** In a committed state it never is, whatever errors earlier calls reported. */
  lemma CreateOnlyWithoutDeal(s: Store, app: int, r: Replies)
    requires Inv(s) && Truthful(s, app, r) && InvokesCreate(s, app, r)
    ensures DealsFor(s, app) == {}
  {
    hide StorageGood, HistoryGood, PoliciesGood;
    DuplicateCreateIff(s, app, r);
    if d :| d in DealsFor(s, app) {
      assert d in s.deals && AttemptsOf(s.attempts, s.deals[d]) != [];
    }
  }

  lemma ApplyKeepsDeals(s: Store, step: Step, now: int, app: int)
    requires Inv(s) && Enabled(s, step)
    ensures DealsFor(s, app) != {} ==> DealsFor(Apply(s, step, now), app) == DealsFor(s, app)
  {
    if step.SubmitStep? {
      if InvokesCreate(s, step.app, step.replies) { CreateOnlyWithoutDeal(s, step.app, step.replies); }
      hide Inv, InvokesCreate, Submit;
      SubmitDeals(s, step.app, step.replies, step.category, now);
      if step.app != app { OtherDeals(s, step.app, step.replies.created, app); }
    } else {
      hide Inv;
      OnlySubmitTouchesDeals(s, step, now);
    }
  }

  lemma OnlySubmitTouchesDeals(s: Store, step: Step, now: int)
    requires Enabled(s, step) && !step.SubmitStep?
    ensures Apply(s, step, now).deals == s.deals
  {
    hide Submit, PolicyPayload, FindDocument, FindPolicy, SyncedRow, MappedStatus, SentFiles, CleanedFiles;
  }

  lemma OtherDeals(s: Store, app: int, created: set<int>, other: int)
    requires app != other && created !! s.deals.Keys
    ensures DealsFor(s.(deals := WithCreated(s.deals, created, app)), other) == DealsFor(s, other)
  {
  }

  lemma SubmitDeals(s: Store, app: int, r: Replies, category: Option<int>, now: int)
    ensures Submit(s, app, r, category, now).deals
            == if InvokesCreate(s, app, r) then WithCreated(s.deals, r.created, app) else s.deals
  {
  }

  /** Once the remote holds a deal for an application, no later call creates another. */
  lemma {:induction false} DealsCreatedOnce(s: Store, run: seq<TimedStep>, app: int)
    requires Inv(s) && EnabledRun(s, run) && DealsFor(s, app) != {}
    ensures DealsFor(Run(s, run), app) == DealsFor(s, app)
    decreases |run|
  {
    if run != [] {
      ApplyKeepsInv(s, run[0].step, run[0].now);
      ApplyKeepsDeals(s, run[0].step, run[0].now, app);
      hide Inv, Apply, Enabled, DealsFor;
      DealsCreatedOnce(Apply(s, run[0].step, run[0].now), run[1..], app);
    }
  }

  /** The process dies after the remote has created a deal: nothing reaches the database. */
  ghost function DiedAfterCreate(s: Store, app: int, created: set<int>): Store {
    s.(deals := WithCreated(s.deals, created, app))
  }

  /** Such a death during a first attempt leads to a second creation; PipelineDeaths shows that nothing else does. */
  lemma DeathLeadsToDuplicate(s: Store, app: int, r: Replies, created: set<int>, deal: int)
    requires OpensAttempt(s, app) && AttemptsOf(s.attempts, app) == [] && deal in created
    ensures var t := DiedAfterCreate(s, app, created);
            InvokesCreate(t, app, r) && DealsFor(t, app) != {}
  {
    assert deal in DealsFor(DiedAfterCreate(s, app, created), app);
  }

  lemma ApplyKeepsDealId(s: Store, step: Step, now: int, app: int)
    requires Inv(s) && Enabled(s, step) && app in s.applications
    ensures app in Apply(s, step, now).applications
    ensures s.applications[app].dealId.Some? ==>
              Apply(s, step, now).applications[app].dealId == s.applications[app].dealId
  {
    hide StorageGood, HistoryGood, PoliciesGood;
    if step.SubmitStep? && step.app in s.applications {
      DealIdPresent(s, step.app);
    }
    hide Inv;
  }

  /** bitrix_deal_id is write-once, and no two applications ever share one. */
  lemma {:induction false} DealIdWriteOnce(s: Store, run: seq<TimedStep>, app: int, other: int)
    requires Inv(s) && EnabledRun(s, run) && app in s.applications && s.applications[app].dealId.Some?
    ensures var t := Run(s, run);
            && app in t.applications && t.applications[app].dealId == s.applications[app].dealId
            && (other in t.applications && t.applications[other].dealId == t.applications[app].dealId ==> other == app)
    decreases |run|
  {
    if run == [] {
      hide StorageGood, HistoryGood, PoliciesGood;
    } else {
      hide Inv, Apply, Enabled;
      ApplyKeepsInv(s, run[0].step, run[0].now);
      ApplyKeepsDealId(s, run[0].step, run[0].now, app);
      DealIdWriteOnce(Apply(s, run[0].step, run[0].now), run[1..], app, other);
    }
  }

  // ---------------------------------------------------------------------
  // Attempts
  // ---------------------------------------------------------------------

  /**
    From an empty portal: attempts are 1..n, all finished; the application has a deal exactly when
    its last attempt succeeded, which no other attempt did, and then the two record the same one.
   */
  lemma AttemptHistory(run: seq<TimedStep>, app: int)
    requires EnabledRun(EMPTY_STORE, run) && app in Run(EMPTY_STORE, run).applications
    ensures var row := Run(EMPTY_STORE, run).applications[app];
            var xs := AttemptsOf(Run(EMPTY_STORE, run).attempts, app);
            && row.status != Submitting
            && (forall k | 0 <= k < |xs| :: xs[k].no == k + 1 && xs[k].finished && xs[k].status != Started)
            && (forall k | 0 <= k < |xs| && xs[k].status == Succeeded :: k == |xs| - 1)
            && (row.dealId.Some? <==> xs != [] && xs[|xs| - 1].status == Succeeded)
            && (row.dealId.Some? ==> xs[|xs| - 1].dealId == row.dealId)
  {
    EmptyStoreInv();
    RunKeepsInv(EMPTY_STORE, run);
    var s := Run(EMPTY_STORE, run);
    assert AttemptsGood(AttemptsOf(s.attempts, app), s.applications[app].dealId);
    hide Run, EnabledRun, AttemptsOf, StorageGood, RemoteGood, PoliciesGood;
  }

  // ---------------------------------------------------------------------
  // Documents
  // ---------------------------------------------------------------------

  /** A queued document is picked up exactly when its application has been submitted. */
  lemma EligibleIffSubmitted(s: Store, i: nat)
    requires Inv(s) && i < |s.documents| && s.documents[i].status.Queued()
    ensures Eligible(s, i) <==> s.applications[s.documents[i].applicationId].dealId.Some?
  {
    assert DocumentGood(s.documents[i], s.applications, s.disk);
    hide Inv;
  }

  /** An upload that read its application in s and inserts the document in t: awaiting the file lets others commit. */
  function LateUpload(s: Store, t: Store, app: int, kind: string, key: string, expiresAt: int): Store {
    if MayUpload(s, app)
    then t.(documents := t.documents + [NewDocument(s, app, kind, key, expiresAt)], disk := t.disk + {key})
    else t
  }

  /** Such a document is left behind by the queue exactly when its application was submitted in between. */
  lemma LateUploadLeftBehindIff(s: Store, t: Store, app: int, kind: string, key: string, expiresAt: int)
    requires MayUpload(s, app) && app in t.applications
    requires s.applications[app].dealId.Some? ==> t.applications[app].dealId == s.applications[app].dealId
    ensures var u := LateUpload(s, t, app, kind, key, expiresAt);
            u.applications[app].dealId.Some? && !Eligible(u, |t.documents|)
            <==> s.applications[app].dealId.None? && t.applications[app].dealId.Some?
  {
  }

  /** Nor is the limit checked again: it is exceeded exactly when others used it up in between. */
  lemma LateUploadExceedsIff(s: Store, t: Store, app: int, kind: string, key: string, expiresAt: int)
    requires MayUpload(s, app)
    ensures LiveDocuments(LateUpload(s, t, app, kind, key, expiresAt).documents, app) > MAX_DOCUMENTS
            <==> LiveDocuments(t.documents, app) >= MAX_DOCUMENTS
  {
    var u := LateUpload(s, t, app, kind, key, expiresAt);
    assert u.documents[..|t.documents|] == t.documents;
  }

  /** Submitting once more is refused as a duplicate, but brings the document back into the queue. */
  lemma RepeatedSubmitRecovers(
    s: Store, t: Store, app: int, kind: string, key: string, expiresAt: int, r: Replies, category: Option<int>,
        now: int)
    requires Inv(t) && MayUpload(s, app) && app in t.applications && t.applications[app].dealId.Some?
    ensures var u := LateUpload(s, t, app, kind, key, expiresAt);
            && SubmitResult(u, app, r) == DuplicatePrevented(t.applications[app].dealId.value)
            && Eligible(Submit(u, app, r, category, now), |t.documents|)
  {
    DealIdPresent(t, app);
    hide Inv, LiveDocuments;
  }

  predicate DownloadAvailable(row: Document) {
    && FileOf(row) != {} && row.localDeletedAt.None?
    && (row.status.Uploaded? || row.status.Transferring? || row.status.TransferFailed? || row.status.RetryRequired?)
  }

  /** A document is offered for download exactly when its file is there. */
  lemma DownloadIffOnDisk(s: Store, i: nat)
    requires Inv(s) && i < |s.documents|
    ensures DownloadAvailable(s.documents[i]) <==> OnDisk(s.disk, s.documents[i])
  {
    assert DocumentGood(s.documents[i], s.applications, s.disk);
    hide Inv;
  }

  /** After a cleanup every file left belongs to a document that has not expired, and no such file was removed. */
  lemma CleanupExact(s: Store, now: int, i: nat)
    requires Inv(s) && i < |s.documents| && OnDisk(s.disk, s.documents[i]) && s.documents[i].expiresAt.Some?
    ensures OnDisk(Cleanup(s, now).disk, s.documents[i]) <==> now <= s.documents[i].expiresAt.value
  {
    CleanupKeepsInv(s, now);
    var t := Cleanup(s, now);
    assert DocumentGood(s.documents[i], s.applications, s.disk);
    assert DocumentGood(t.documents[i], s.applications, t.disk);
    hide Inv, CleanedFiles;
  }

  predicate Unexpired(row: Document, now: int) { row.expiresAt.Some? ==> now <= row.expiresAt.value }

  /** The disk after a cleanup: exactly the files that belong to a document which has not expired. */
  lemma CleanupDisk(s: Store, now: int, key: string)
    requires Inv(s)
    ensures key in Cleanup(s, now).disk
            <==> key in s.disk && exists i | 0 <= i < |s.documents| ::
                   s.documents[i].storageKey == Some(key) && Unexpired(s.documents[i], now)
  {
    if key in s.disk {
      assert Owned(s.documents, key);
      var i :| 0 <= i < |s.documents| && s.documents[i].storageKey == Some(key);
      assert DocumentGood(s.documents[i], s.applications, s.disk);
      CleanupKeepsInv(s, now);
      assert DocumentGood(Cleanup(s, now).documents[i], s.applications, Cleanup(s, now).disk);
      assert forall j | 0 <= j < |s.documents| && s.documents[j].storageKey == Some(key) :: j == i;
      hide Inv, CleanedFiles;
    }
  }

  /** A sent document stays sent, and its file is never handed to the uploader again. */
  predicate StaysSent(row: Document, row': Document) {
    row.status == Sent ==> row'.status == Sent && row'.uploads == row.uploads && row'.fileId == row.fileId
  }

  lemma ApplyKeepsSent(s: Store, step: Step, now: int, i: nat)
    requires Enabled(s, step) && i < |s.documents|
    ensures i < |Apply(s, step, now).documents|
    ensures StaysSent(s.documents[i], Apply(s, step, now).documents[i])
  {
    hide Truthful, AttemptsOf, FreshFileIds, LiveDocuments, EligibleBefore, WithCreated, SentFiles, CleanedFiles,
        OnDisk;
    if step.SyncStep? {
      hide Apply;
      SyncKeepsSent(s, step, now, i);
    } else {
      hide Sync;
    }
  }

  lemma SyncKeepsSent(s: Store, step: Step, now: int, i: nat)
    requires step.SyncStep? && Enabled(s, step) && i < |s.documents|
    ensures i < |Apply(s, step, now).documents|
    ensures StaysSent(s.documents[i], Apply(s, step, now).documents[i])
  {
    hide PolicyPayload, FindDocument, FindPolicy, SyncedRow, MappedStatus, SyncVerdict;
  }

  lemma {:induction false} SentForGood(s: Store, run: seq<TimedStep>, i: nat)
    requires Inv(s) && EnabledRun(s, run) && i < |s.documents|
    ensures i < |Run(s, run).documents|
    ensures StaysSent(s.documents[i], Run(s, run).documents[i])
    ensures Run(s, run).documents[i].uploads <= MAX_RETRIES
    decreases |run|
  {
    if run == [] {
      assert DocumentGood(s.documents[i], s.applications, s.disk);
    } else {
      hide Inv, Apply, Enabled;
      ApplyKeepsInv(s, run[0].step, run[0].now);
      ApplyKeepsSent(s, run[0].step, run[0].now, i);
      SentForGood(Apply(s, run[0].step, run[0].now), run[1..], i);
    }
  }

  // ---------------------------------------------------------------------
  // The queue drains
  // ---------------------------------------------------------------------

  function Remaining(s: Store, i: nat): int {
    if Eligible(s, i) then MAX_RETRIES - s.documents[i].retryCount else 0
  }

  /** Retries left over the first n documents. */
  function Budget(s: Store, n: nat): int {
    if n == 0 then 0 else Budget(s, n - 1) + Remaining(s, n - 1)
  }

  function QueueBudget(s: Store): int {
    Budget(s, |s.documents|)
  }

  predicate Drained(s: Store) {
    EligibleBefore(s, |s.documents|) == 0
  }

  /** Nothing enters the queue and no retry is given back. */
  ghost predicate Shrinks(s: Store, t: Store) {
    && |s.documents| <= |t.documents|
    && forall i: nat | Eligible(t, i) :: Eligible(s, i) && s.documents[i].retryCount <= t.documents[i].retryCount
  }

  /** Every document in the queue has at least one retry left. */
  ghost predicate RetriesLeft(s: Store) {
    forall i: nat | Eligible(s, i) :: s.documents[i].retryCount < MAX_RETRIES
  }

  lemma InvRetriesLeft(s: Store)
    requires Inv(s)
    ensures RetriesLeft(s)
  {
    forall i: nat | Eligible(s, i) ensures s.documents[i].retryCount < MAX_RETRIES {
      assert DocumentGood(s.documents[i], s.applications, s.disk);
    }
  }

  lemma {:induction false} BudgetShrinks(s: Store, t: Store, n: nat)
    requires Shrinks(s, t) && RetriesLeft(s)
    ensures Budget(t, n) <= Budget(s, n) && EligibleBefore(t, n) <= EligibleBefore(s, n)
  {
    if n > 0 { BudgetShrinks(s, t, n - 1); }
  }

  lemma {:induction false} NothingBeyond(s: Store, n: nat)
    requires |s.documents| <= n
    ensures Budget(s, n) == QueueBudget(s) && EligibleBefore(s, n) == EligibleBefore(s, |s.documents|)
  {
    if |s.documents| < n { NothingBeyond(s, n - 1); }
  }

  lemma {:induction false} EligibleBound(s: Store, n: nat)
    requires RetriesLeft(s)
    ensures EligibleBefore(s, n) <= Budget(s, n)
  {
    if n > 0 { EligibleBound(s, n - 1); }
  }

  lemma {:induction false} EligibleCounted(s: Store, i: nat, n: nat)
    requires i < n && Eligible(s, i)
    ensures EligibleBefore(s, i) < EligibleBefore(s, n)
  {
    if i < n - 1 { EligibleCounted(s, i, n - 1); }
  }

  /** A run of the queue spends one retry for each document of its batch. */
  lemma {:induction false} TransferSpends(s: Store, limit: nat, replies: map<nat, UploadReply>, now: int, n: nat)
    requires forall i | InBatch(s, limit, i) :: i in replies
    requires RetriesLeft(s)
    ensures var t := Transfer(s, limit, replies, now);
            Budget(t, n) <= Budget(s, n) - (if EligibleBefore(s, n) <= limit then EligibleBefore(s, n) else limit)
  {
    if n > 0 {
      TransferredEligible(s, limit, replies, now, n - 1);
      assert Eligible(s, n - 1) ==> s.documents[n - 1].retryCount < MAX_RETRIES;
      hide Transfer, Eligible, RetriesLeft;
      TransferSpends(s, limit, replies, now, n - 1);
    }
  }

  lemma TransferredEligible(s: Store, limit: nat, replies: map<nat, UploadReply>, now: int, i: nat)
    requires forall j | InBatch(s, limit, j) :: j in replies
    ensures var t := Transfer(s, limit, replies, now);
            Eligible(t, i) ==>
              && Eligible(s, i)
              && t.documents[i].retryCount == s.documents[i].retryCount + if InBatch(s, limit, i) then 1 else 0
  {
    hide EligibleBefore;
  }

  predicate QuietStep(step: Step, limit: nat) {
    match step
    case SubmitStep(_, _, _) => false
    case UploadStep(_, _, _, _) => false
    case TransferStep(l, _) => l == limit
    case _ => true
  }

  /** No uploads and no submissions; runs of the queue all have the same limit. */
  predicate QuietRun(run: seq<TimedStep>, limit: nat) {
    forall k | 0 <= k < |run| :: QuietStep(run[k].step, limit)
  }

  function Transfers(run: seq<TimedStep>): nat {
    if run == [] then 0 else (if run[0].step.TransferStep? then 1 else 0) + Transfers(run[1..])
  }

  lemma QuietShrinks(s: Store, step: Step, now: int, limit: nat)
    requires Inv(s) && Enabled(s, step) && QuietStep(step, limit)
    ensures Shrinks(s, Apply(s, step, now))
  {
    var t := Apply(s, step, now);
    if step.TransferStep? {
      forall i: nat | Eligible(t, i) ensures Eligible(s, i) && s.documents[i].retryCount <= t.documents[i].retryCount {
        TransferredEligible(s, step.limit, step.uploads, now, i);
      }
    } else {
      QuietDocuments(s, step, now, limit);
    }
  }

  /** Documents change only out of the queue, and no application changes its deal. */
  ghost predicate QueueUntouched(s: Store, t: Store) {
    && |s.documents| <= |t.documents|
    && (forall i | 0 <= i < |t.documents| && t.documents[i].status.Queued() ::
          i < |s.documents| && t.documents[i] == s.documents[i])
    && (forall i | 0 <= i < |s.documents| && s.documents[i].status.Queued() ::
          s.documents[i].applicationId in s.applications)
    && (forall a | a in s.applications :: a in t.applications && t.applications[a].dealId == s.applications[a].dealId)
  }

  lemma UntouchedShrinks(s: Store, t: Store)
    requires QueueUntouched(s, t)
    ensures Shrinks(s, t)
  {
  }

  lemma QuietDocuments(s: Store, step: Step, now: int, limit: nat)
    requires Inv(s) && Enabled(s, step) && QuietStep(step, limit) && !step.TransferStep?
    ensures Shrinks(s, Apply(s, step, now))
  {
    forall i | 0 <= i < |s.documents| ensures s.documents[i].applicationId in s.applications {
      assert DocumentGood(s.documents[i], s.applications, s.disk);
    }
    hide Inv;
    assert QueueUntouched(s, Apply(s, step, now)) by {
      match step
      case SyncStep(app, reply, stages) => SyncUntouched(s, app, reply, stages, now);
      case _ =>
    }
    UntouchedShrinks(s, Apply(s, step, now));
  }

  lemma SyncUntouched(s: Store, app: int, reply: DealReply, stages: StageMap, now: int)
    requires forall i | 0 <= i < |s.documents| :: s.documents[i].applicationId in s.applications
    ensures QueueUntouched(s, Sync(s, app, reply, stages, now))
  {
    hide SyncVerdict, PolicyPayload, FindDocument, FindPolicy;
  }

  /** Every queued document has at most r retries left. */
  ghost predicate Within(s: Store, r: int) {
    forall i: nat | Eligible(s, i) :: MAX_RETRIES - s.documents[i].retryCount <= r
  }

  /** A queue that fits the limit is emptied by as many runs as any document has retries left. */
  lemma {:induction false} SmallQueueDrains(s: Store, run: seq<TimedStep>, limit: nat, r: nat)
    requires Inv(s) && EnabledRun(s, run) && QuietRun(run, limit)
    requires EligibleBefore(s, |s.documents|) <= limit && Within(s, r) && r <= Transfers(run)
    ensures Drained(Run(s, run))
    decreases |run|
  {
    InvRetriesLeft(s);
    if run == [] {
      if !Drained(s) { FirstEligible(s, |s.documents|); }
    } else {
      var step, now := run[0].step, run[0].now;
      var t := Apply(s, step, now);
      assert QuietStep(step, limit);
      QuietShrinks(s, step, now, limit);
      BudgetShrinks(s, t, |t.documents|);
      NothingBeyond(s, |t.documents|);
      var r' := if step.TransferStep? && r > 0 then r - 1 else r;
      SmallStep(s, step, now, limit, r, r');
      ApplyKeepsInv(s, step, now);
      hide Inv, Apply, Enabled, Eligible, EligibleBefore, Shrinks, Within, RetriesLeft, QuietStep;
      SmallQueueDrains(t, run[1..], limit, r');
    }
  }

  lemma SmallStep(s: Store, step: Step, now: int, limit: nat, r: nat, r': nat)
    requires Enabled(s, step) && QuietStep(step, limit) && Shrinks(s, Apply(s, step, now)) && RetriesLeft(s)
    requires EligibleBefore(s, |s.documents|) <= limit && Within(s, r)
    requires r' == if step.TransferStep? && r > 0 then r - 1 else r
    ensures Within(Apply(s, step, now), r')
  {
    var t := Apply(s, step, now);
    forall i: nat | Eligible(t, i) ensures MAX_RETRIES - t.documents[i].retryCount <= r' {
      if step.TransferStep? {
        EligibleCounted(s, i, |s.documents|);
        TransferredEligible(s, step.limit, step.uploads, now, i);
      }
    }
  }

  lemma {:induction false} FirstEligible(s: Store, n: nat)
    requires EligibleBefore(s, n) > 0
    ensures exists i: nat :: i < n && Eligible(s, i)
  {
    if Eligible(s, n - 1) {
    } else {
      FirstEligible(s, n - 1);
    }
  }

  lemma MulMonotone(a: int, b: int, limit: nat)
    requires a <= b
    ensures a * limit <= b * limit
  {
  }

  lemma DivMonotone(m': int, m: int, limit: nat)
    requires 0 < limit && m' <= m
    ensures m' / limit <= m / limit
  {
    if m / limit < m' / limit { MulMonotone(m / limit + 1, m' / limit, limit); }
  }

  lemma DivStep(m: int, m': int, limit: nat)
    requires 0 < limit && m' <= m - limit
    ensures m' / limit + 1 <= m / limit
  {
    if m / limit < m' / limit + 1 { MulMonotone(m / limit + 1, m' / limit + 1, limit); }
  }

  function FullRuns(s: Store, limit: nat): int
    requires 0 < limit
  {
    QueueBudget(s) / limit
  }

  /** While the queue exceeds the limit, every run of it uses up a full batch of retries. */
  lemma LargeStep(s: Store, step: Step, now: int, limit: nat)
    requires Inv(s) && Enabled(s, step) && QuietStep(step, limit)
    requires 0 < limit < EligibleBefore(s, |s.documents|)
    ensures FullRuns(Apply(s, step, now), limit) + (if step.TransferStep? then 1 else 0) <= FullRuns(s, limit)
  {
    var t := Apply(s, step, now);
    InvRetriesLeft(s);
    QuietShrinks(s, step, now, limit);
    hide Inv;
    BudgetShrinks(s, t, |t.documents|);
    NothingBeyond(s, |t.documents|);
    if step.TransferStep? {
      TransferSpends(s, limit, step.uploads, now, |s.documents|);
      hide Enabled, Eligible, EligibleBefore, Shrinks, RetriesLeft, Budget;
      DivStep(QueueBudget(s), QueueBudget(t), limit);
    } else {
      hide Enabled, Eligible, EligibleBefore, Shrinks, RetriesLeft, Budget;
      DivMonotone(QueueBudget(t), QueueBudget(s), limit);
    }
  }

  lemma {:induction false} DrainsWithin(s: Store, run: seq<TimedStep>, limit: nat)
    requires Inv(s) && EnabledRun(s, run) && QuietRun(run, limit) && 0 < limit
    requires FullRuns(s, limit) + 3 <= Transfers(run)
    ensures Drained(Run(s, run))
    decreases |run|
  {
    InvRetriesLeft(s);
    EligibleBound(s, |s.documents|);
    if EligibleBefore(s, |s.documents|) <= limit {
      assert Within(s, 3);
      DivMonotone(0, QueueBudget(s), limit);
      hide Inv, Enabled, Within;
      SmallQueueDrains(s, run, limit, 3);
    } else {
      DivMonotone(0, QueueBudget(s), limit);
      assert FullRuns(s, limit) >= 0;
      hide Inv, Apply, Enabled, Eligible, EligibleBefore, RetriesLeft, Budget, QuietStep, FullRuns;
      var step, now := run[0].step, run[0].now;
      ApplyKeepsInv(s, step, now);
      LargeStep(s, step, now, limit);
      DrainsWithin(Apply(s, step, now), run[1..], limit);
    }
  }

  /**
    With no uploads or submissions in between, floor(M / L) + 3 runs of the queue empty it, where M
    counts the retries left over the documents in it.  Cleanups, deletions, drafts and syncs may
    happen at any point.
   */
  lemma QueueDrains(s: Store, run: seq<TimedStep>, limit: nat)
    requires Inv(s) && EnabledRun(s, run) && QuietRun(run, limit) && 0 < limit
    requires QueueBudget(s) / limit + 3 <= Transfers(run)
    ensures Drained(Run(s, run))
  {
    hide Inv;
    DrainsWithin(s, run, limit);
  }
}
