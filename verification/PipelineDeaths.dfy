/**
  Runs in which the process may die inside a transaction.  The database then keeps nothing of it, but
  deals the remote has created stay, and so do handovers to the uploader and the removal of files.
 */
module PipelineDeaths {
  import opened Options
  import opened PipelineTables
  import opened PipelineInvariants
  import opened PipelineTheorems

  /**
    A committed step, a death after create_deal was called, or a death in a run of the transfer
    queue when the first done documents of its batch have been dealt with, and perhaps (handing) the
    next one has been handed to the uploader.
   */
  datatype Event =
    | Commit(now: int, step: Step)
    | DeadSubmit(app: int, replies: Replies)
    | DeadTransfer(limit: nat, uploads: map<nat, UploadReply>, done: nat, handing: bool)

  /** Documents whose turn in the batch was over before the death. */
  predicate TurnOver(s: Store, limit: nat, done: nat, i: nat) {
    InBatch(s, limit, i) && EligibleBefore(s, i) < done
  }

  /** Documents handed to the uploader by the run that died: those with a file. */
  predicate HandedOver(s: Store, limit: nat, done: nat, handing: bool, i: nat) {
    InBatch(s, limit, i) && OnDisk(s.disk, s.documents[i])
    && (EligibleBefore(s, i) < done || (handing && EligibleBefore(s, i) == done))
  }

  /** Files unlinked before the death: those of documents uploaded so far. */
  ghost function UnlinkedSoFar(s: Store, limit: nat, uploads: map<nat, UploadReply>, done: nat): set<string> {
    set i, k | i in uploads && TurnOver(s, limit, done, i) && uploads[i].UploadedAs? && k in FileOf(s.documents[i]) :: k
  }

  /** The rows are as before, but the history of handovers is not the database's to roll back. */
  ghost function DiedInTransfer(s: Store, limit: nat, uploads: map<nat, UploadReply>, done: nat, handing: bool): Store {
    s.(documents := seq(|s.documents|, i requires 0 <= i < |s.documents| =>
                      if HandedOver(s, limit, done, handing, i)
                      then s.documents[i].(uploads := s.documents[i].uploads + 1) else s.documents[i]),
       disk := s.disk - UnlinkedSoFar(s, limit, uploads, done))
  }

  ghost predicate Possible(s: Store, e: Event) {
    match e
    case Commit(_, step) => Enabled(s, step)
    case DeadSubmit(app, r) => Truthful(s, app, r) && InvokesCreate(s, app, r)
    case DeadTransfer(limit, uploads, _, _) => forall i | InBatch(s, limit, i) :: i in uploads
  }

  ghost function Happen(s: Store, e: Event): Store
    requires Possible(s, e)
  {
    match e
    case Commit(now, step) => Apply(s, step, now)
    case DeadSubmit(app, r) => DiedAfterCreate(s, app, r.created)
    case DeadTransfer(limit, uploads, done, handing) => DiedInTransfer(s, limit, uploads, done, handing)
  }

  ghost predicate PossibleRun(s: Store, run: seq<Event>)
    decreases |run|
  {
    run == [] || (Possible(s, run[0]) && PossibleRun(Happen(s, run[0]), run[1..]))
  }

  ghost function After(s: Store, run: seq<Event>): Store
    requires PossibleRun(s, run)
    decreases |run|
  {
    if run == [] then s else After(Happen(s, run[0]), run[1..])
  }

  // ---------------------------------------------------------------------
  // A second creation
  // ---------------------------------------------------------------------

  predicate LeavesDeal(e: Event, app: int) {
    e.DeadSubmit? && e.app == app && e.replies.created != {}
  }

  predicate LeftDeal(run: seq<Event>, app: int) {
    exists k | 0 <= k < |run| :: LeavesDeal(run[k], app)
  }

  /** A deal without a committed attempt comes from a death, and what a death left stays. */
  ghost predicate Explained(s: Store, app: int, died: bool) {
    && (forall d | d in s.deals :: 0 < d)
    && (DealsFor(s, app) != {} && AttemptsOf(s.attempts, app) == [] ==> died)
    && (died ==> DealsFor(s, app) != {})
  }

  /** A submission adds deals for its application only together with an attempt. */
  lemma SubmitExplained(s: Store, app: int, r: Replies, category: Option<int>, now: int, other: int, died: bool)
    requires Explained(s, other, died) && Truthful(s, app, r)
    ensures Explained(Submit(s, app, r, category, now), other, died)
  {
    var t := Submit(s, app, r, category, now);
    SubmitDeals(s, app, r, category, now);
    SubmitAttempts(s, app, r, category, now, other);
    assert r.created !! s.deals.Keys && forall d | d in r.created :: 0 < d;
    hide Submit, InvokesCreate, Truthful, AttemptsOf;
    GrowingDeals(s, t, app, r.created, other);
  }

  lemma GrowingDeals(s: Store, t: Store, app: int, created: set<int>, other: int)
    requires created !! s.deals.Keys && (t.deals == s.deals || t.deals == WithCreated(s.deals, created, app))
    ensures DealsFor(s, other) <= DealsFor(t, other)
    ensures other != app || t.deals == s.deals ==> DealsFor(t, other) == DealsFor(s, other)
  {
  }

  lemma SubmitAttempts(s: Store, app: int, r: Replies, category: Option<int>, now: int, other: int)
    ensures var xs, ys := AttemptsOf(s.attempts, other), AttemptsOf(Submit(s, app, r, category, now).attempts, other);
            (xs != [] ==> ys != []) && (InvokesCreate(s, app, r) && other == app ==> ys != [])
  {
    if app in s.applications {
      forall x: Attempt { AttemptsAppend(s.attempts, x, other); }
    }
    hide AttemptsOf, WithDeal, WithCreated;
  }

  lemma StepExplained(s: Store, step: Step, now: int, app: int, died: bool)
    requires Explained(s, app, died) && Enabled(s, step)
    ensures Explained(Apply(s, step, now), app, died)
  {
    if step.SubmitStep? {
      hide Explained, Submit, Truthful;
      SubmitExplained(s, step.app, step.replies, step.category, now, app, died);
    } else {
      OnlySubmitTouchesDeals(s, step, now);
      OnlySubmitTouchesAttempts(s, step, now);
      hide Apply, Enabled;
    }
  }

  lemma OnlySubmitTouchesAttempts(s: Store, step: Step, now: int)
    requires Enabled(s, step) && !step.SubmitStep?
    ensures Apply(s, step, now).attempts == s.attempts
  {
    hide Submit, PolicyPayload, FindDocument, FindPolicy, SyncedRow, MappedStatus, SentFiles, CleanedFiles;
  }

  lemma EventExplained(s: Store, e: Event, app: int, died: bool)
    requires Explained(s, app, died) && Possible(s, e)
    ensures Explained(Happen(s, e), app, died || LeavesDeal(e, app))
  {
    match e
    case Commit(now, step) => hide Apply, Enabled, Explained; StepExplained(s, step, now, app, died);
    case DeadSubmit(a, r) =>
      GrowingDeals(s, Happen(s, e), a, r.created, app);
      if d :| d in r.created { assert a == app ==> d in DealsFor(Happen(s, e), app); }
    case DeadTransfer(_, _, _, _) =>
  }

  lemma {:induction false} RunExplained(s: Store, run: seq<Event>, app: int, died: bool)
    requires Explained(s, app, died) && PossibleRun(s, run)
    ensures Explained(After(s, run), app, died || LeftDeal(run, app))
    decreases |run|
  {
    if run == [] {
      assert !LeftDeal(run, app);
    } else {
      EventExplained(s, run[0], app, died);
      LeftDealSplit(run, app);
      hide Explained, Possible, Happen, LeavesDeal, LeftDeal;
      RunExplained(Happen(s, run[0]), run[1..], app, died || LeavesDeal(run[0], app));
    }
  }

  lemma LeftDealSplit(run: seq<Event>, app: int)
    requires run != []
    ensures LeftDeal(run, app) <==> LeavesDeal(run[0], app) || LeftDeal(run[1..], app)
  {
    if LeftDeal(run[1..], app) {
      var k :| 0 <= k < |run[1..]| && LeavesDeal(run[1..][k], app);
      assert LeavesDeal(run[k + 1], app);
    }
    if k :| 0 < k < |run| && LeavesDeal(run[k], app) {
      assert LeavesDeal(run[1..][k - 1], app);
    }
  }

  /**
    Over every run with deaths: create_deal is called although the remote holds a deal of the
    application exactly when the application may be submitted, no attempt of it was ever committed
    and some earlier call for it died after the remote had created a deal.
   */
  lemma SecondCreationIff(run: seq<Event>, app: int, r: Replies)
    requires PossibleRun(EMPTY_STORE, run) && Truthful(After(EMPTY_STORE, run), app, r)
    ensures var s := After(EMPTY_STORE, run);
            InvokesCreate(s, app, r) && DealsFor(s, app) != {}
            <==> OpensAttempt(s, app) && AttemptsOf(s.attempts, app) == [] && LeftDeal(run, app)
  {
    assert Explained(EMPTY_STORE, app, false);
    RunExplained(EMPTY_STORE, run, app, false);
    var s := After(EMPTY_STORE, run);
    hide After, PossibleRun, LeftDeal, Truthful, AttemptsOf, InvokesCreate, OpensAttempt;
    DuplicateCreateIff(s, app, r);
  }

  // ---------------------------------------------------------------------
  // Files
  // ---------------------------------------------------------------------

  /** A document whose file is gone although it was never recorded as sent. */
  predicate Lost(s: Store, i: nat) {
    i < |s.documents| && FileOf(s.documents[i]) != {} && FileOf(s.documents[i]) !! s.disk
    && s.documents[i].fileId.None? && s.documents[i].status != Sent
  }

  /**
    A death loses exactly the files of the documents uploaded so far, and all of these stay in the
    queue.  It takes no more than that storage keys are not shared, which every run keeps.
   */
  lemma DeathLosesIff(
    s: Store, limit: nat, uploads: map<nat, UploadReply>, done: nat, handing: bool, i: nat)
    requires StorageKeysUnique(s.documents) && i < |s.documents| && OnDisk(s.disk, s.documents[i])
    requires forall j | InBatch(s, limit, j) :: j in uploads
    ensures var t := DiedInTransfer(s, limit, uploads, done, handing);
            && (!OnDisk(t.disk, t.documents[i]) <==> TurnOver(s, limit, done, i) && uploads[i].UploadedAs?)
            && (!OnDisk(t.disk, t.documents[i]) ==> Eligible(t, i))
            && (!OnDisk(t.disk, t.documents[i]) && s.documents[i].fileId.None? ==> Lost(t, i))
  {
    hide EligibleBefore, UnlinkedSoFar;
    UnlinkedIff(s, limit, uploads, done, i);
  }

  /** Storage keys are not shared, so a file goes only with its own document. */
  lemma UnlinkedIff(s: Store, limit: nat, uploads: map<nat, UploadReply>, done: nat, i: nat)
    requires StorageKeysUnique(s.documents) && i < |s.documents|
    ensures forall k | k in FileOf(s.documents[i]) ::
              k in UnlinkedSoFar(s, limit, uploads, done)
              <==> i in uploads && TurnOver(s, limit, done, i) && uploads[i].UploadedAs?
  {
    hide EligibleBefore, Eligible;
    assert forall j: nat | InBatch(s, limit, j) :: j < |s.documents| by { EligibleInRange(s); }
  }

  lemma EligibleInRange(s: Store)
    ensures forall j: nat | Eligible(s, j) :: j < |s.documents|
  {
  }

  lemma {:induction false} SameQueue(s: Store, t: Store, n: nat)
    requires forall i: nat :: Eligible(s, i) <==> Eligible(t, i)
    ensures EligibleBefore(t, n) == EligibleBefore(s, n)
  {
    if n > 0 { SameQueue(s, t, n - 1); }
  }

  /** The batch a dead run worked on is the batch of the next run. */
  lemma SameBatch(s: Store, limit: nat, uploads: map<nat, UploadReply>, done: nat, handing: bool)
    ensures var t := DiedInTransfer(s, limit, uploads, done, handing);
            forall j: nat :: InBatch(t, limit, j) <==> InBatch(s, limit, j)
  {
    var t := DiedInTransfer(s, limit, uploads, done, handing);
    forall j: nat ensures Eligible(s, j) <==> Eligible(t, j) { hide EligibleBefore; }
    forall j: nat ensures InBatch(t, limit, j) <==> InBatch(s, limit, j) {
      hide Eligible;
      SameQueue(s, t, j);
    }
  }

  /**
    The next run hands over every document of the batch whose file is still there, so also those the
    dead run had handed over without success or without getting to unlink the file.  The ones whose
    file is lost count a retry and are not sent.
   */
  lemma NextRunAfterDeath(
    s: Store, limit: nat, uploads: map<nat, UploadReply>, done: nat, handing: bool, again: map<nat, UploadReply>,
    now: int, i: nat)
    requires StorageKeysUnique(s.documents) && InBatch(s, limit, i) && OnDisk(s.disk, s.documents[i])
    requires forall j | InBatch(s, limit, j) :: j in uploads && j in again
    ensures var t := DiedInTransfer(s, limit, uploads, done, handing);
            && (forall j: nat :: InBatch(t, limit, j) <==> InBatch(s, limit, j))
            && var row, row' := t.documents[i], Transfer(t, limit, again, now).documents[i];
            && var lost := EligibleBefore(s, i) < done && uploads[i].UploadedAs?;
            && row'.uploads == row.uploads + (if lost then 0 else 1)
            && (lost ==>
                  && row'.status in {RetryRequired, TransferFailed} && row'.retryCount == row.retryCount + 1
                  && row'.lastError == Some("DOCUMENT_DOWNLOAD_NOT_AVAILABLE"))
  {
    SameBatch(s, limit, uploads, done, handing);
    DeathLosesIff(s, limit, uploads, done, handing, i);
    hide EligibleBefore, OnDisk, DiedInTransfer, Lost, SentFiles, StorageKeysUnique;
  }

  /** Whatever follows, deaths included, a lost document is never handed over again and never becomes sent. */
  lemma {:induction false} LostForGood(s: Store, run: seq<Event>, i: nat)
    requires Lost(s, i) && PossibleRun(s, run)
    ensures Lost(After(s, run), i) && After(s, run).documents[i].uploads == s.documents[i].uploads
    decreases |run|
  {
    if run != [] {
      EventKeepsLost(s, run[0], i);
      hide Lost, Possible, Happen;
      LostForGood(Happen(s, run[0]), run[1..], i);
    }
  }

  lemma EventKeepsLost(s: Store, e: Event, i: nat)
    requires Lost(s, i) && Possible(s, e)
    ensures Lost(Happen(s, e), i) && Happen(s, e).documents[i].uploads == s.documents[i].uploads
  {
    if e.Commit? {
      if e.step.SyncStep? {
        hide Apply, Enabled;
        SyncKeepsLost(s, e.step.app, e.step.reply, e.step.stages, e.now, i);
        assert Happen(s, e) == Sync(s, e.step.app, e.step.reply, e.step.stages, e.now);
      } else {
        StepKeepsLost(s, e.step, e.now, i);
        hide Apply, Enabled;
      }
    }
  }

  lemma StepKeepsLost(s: Store, step: Step, now: int, i: nat)
    requires Lost(s, i) && Enabled(s, step) && !step.SyncStep?
    ensures Lost(Apply(s, step, now), i) && Apply(s, step, now).documents[i].uploads == s.documents[i].uploads
  {
    hide Sync, Truthful, AttemptsOf, FreshFileIds, LiveDocuments, EligibleBefore, WithCreated, SentFiles, CleanedFiles;
  }

  lemma SyncKeepsLost(s: Store, app: int, reply: DealReply, stages: StageMap, now: int, i: nat)
    requires Lost(s, i)
    ensures var t := Sync(s, app, reply, stages, now);
            Lost(t, i) && t.documents[i].uploads == s.documents[i].uploads
  {
    if app in s.applications && reply.DealResult? {
      var payload := PolicyPayload(s.applications[app], reply.deal.policy);
      if payload.Some? {
        FindDocumentSpec(s.documents, app, payload.value.fileId);
        hide PolicyPayload, FindDocument, FindPolicy, SyncedRow, MappedStatus;
        PolicyKeepsLost(s, app, payload.value, now, i);
        hide SyncPolicy, Lost;
        LostReads(SyncPolicy(s, app, payload.value, now),
            s.applications[app := SyncedRow(s.applications[app], reply.deal, stages, now)], i);
      }
    }
    hide PolicyPayload, SyncPolicy, SyncedRow, MappedStatus;
  }

  lemma PolicyKeepsLost(s: Store, app: int, data: PolicyData, now: int, i: nat)
    requires Lost(s, i) && app in s.applications
    ensures var t := SyncPolicy(s, app, data, now);
            Lost(t, i) && t.documents[i].uploads == s.documents[i].uploads
  {
    FindDocumentSpec(s.documents, app, data.fileId);
    hide FindDocument, FindPolicy;
  }

  lemma LostReads(s: Store, apps: Applications, i: nat)
    ensures Lost(s.(applications := apps), i) <==> Lost(s, i)
  {
  }

  /** Storage keys stay unshared over every run with deaths. */
  lemma EventKeepsKeys(s: Store, e: Event)
    requires StorageKeysUnique(s.documents) && Possible(s, e)
    ensures StorageKeysUnique(Happen(s, e).documents)
  {
    if e.Commit? {
      if e.step.SyncStep? {
        hide Apply, Enabled, StorageKeysUnique;
        SyncKeepsKeys(s, e.step.app, e.step.reply, e.step.stages, e.now);
        assert Happen(s, e) == Sync(s, e.step.app, e.step.reply, e.step.stages, e.now);
      } else {
        StepKeepsKeys(s, e.step, e.now);
        hide Apply, Enabled, StorageKeysUnique;
      }
    } else {
      hide Apply, Enabled, HandedOver, TurnOver;
    }
  }

  lemma StepKeepsKeys(s: Store, step: Step, now: int)
    requires StorageKeysUnique(s.documents) && Enabled(s, step) && !step.SyncStep?
    ensures StorageKeysUnique(Apply(s, step, now).documents)
  {
    hide Sync, Truthful, AttemptsOf, FreshFileIds, LiveDocuments, EligibleBefore, WithCreated, SentFiles, CleanedFiles;
  }

  lemma SyncKeepsKeys(s: Store, app: int, reply: DealReply, stages: StageMap, now: int)
    requires StorageKeysUnique(s.documents)
    ensures StorageKeysUnique(Sync(s, app, reply, stages, now).documents)
  {
    hide PolicyPayload, FindDocument, FindPolicy, SyncedRow, MappedStatus;
  }

  lemma {:induction false} RunKeepsKeys(s: Store, run: seq<Event>)
    requires StorageKeysUnique(s.documents) && PossibleRun(s, run)
    ensures StorageKeysUnique(After(s, run).documents)
    decreases |run|
  {
    if run != [] {
      hide StorageKeysUnique, Possible, Happen;
      EventKeepsKeys(s, run[0]);
      RunKeepsKeys(Happen(s, run[0]), run[1..]);
    }
  }

  // ---------------------------------------------------------------------
  // Handovers
  // ---------------------------------------------------------------------

  /** Each handover is a retry used up, a dead run, or the last one, which succeeded. */
  predicate HandoversGood(row: Document, deaths: nat) {
    && row.uploads <= MAX_RETRIES + deaths
    && (row.status.Queued() ==> row.retryCount < MAX_RETRIES && row.uploads <= row.retryCount + deaths)
  }

  ghost predicate AllHandoversGood(s: Store, deaths: nat) {
    forall i | 0 <= i < |s.documents| :: HandoversGood(s.documents[i], deaths)
  }

  function DeadTransfers(run: seq<Event>): nat {
    if run == [] then 0 else (if run[0].DeadTransfer? then 1 else 0) + DeadTransfers(run[1..])
  }

  lemma StepKeepsHandovers(s: Store, step: Step, now: int, deaths: nat)
    requires AllHandoversGood(s, deaths) && Enabled(s, step) && !step.SyncStep?
    ensures AllHandoversGood(Apply(s, step, now), deaths)
  {
    hide Sync, Truthful, AttemptsOf, FreshFileIds, LiveDocuments, EligibleBefore, WithCreated, SentFiles, CleanedFiles;
    hide OnDisk;
  }

  lemma SyncKeepsHandovers(s: Store, app: int, reply: DealReply, stages: StageMap, now: int, deaths: nat)
    requires AllHandoversGood(s, deaths)
    ensures AllHandoversGood(Sync(s, app, reply, stages, now), deaths)
  {
    hide PolicyPayload, FindDocument, FindPolicy, SyncedRow, MappedStatus;
  }

  lemma EventKeepsHandovers(s: Store, e: Event, deaths: nat)
    requires AllHandoversGood(s, deaths) && Possible(s, e)
    ensures AllHandoversGood(Happen(s, e), deaths + if e.DeadTransfer? then 1 else 0)
  {
    match e
    case Commit(now, step) =>
      if step.SyncStep? {
        SyncKeepsHandovers(s, step.app, step.reply, step.stages, now, deaths);
        hide Enabled, AllHandoversGood, Sync;
      } else {
        hide Enabled, Apply, AllHandoversGood;
        StepKeepsHandovers(s, step, now, deaths);
      }
    case DeadSubmit(_, _) =>
    case DeadTransfer(_, _, _, _) => hide EligibleBefore, UnlinkedSoFar, OnDisk;
  }

  lemma {:induction false} RunKeepsHandovers(s: Store, run: seq<Event>, deaths: nat)
    requires AllHandoversGood(s, deaths) && PossibleRun(s, run)
    ensures AllHandoversGood(After(s, run), deaths + DeadTransfers(run))
    decreases |run|
  {
    if run != [] {
      hide AllHandoversGood, Possible, Happen;
      EventKeepsHandovers(s, run[0], deaths);
      RunKeepsHandovers(Happen(s, run[0]), run[1..], deaths + if run[0].DeadTransfer? then 1 else 0);
    }
  }

  /** Over every run with deaths a document is handed over at most three times plus once per dead run of the queue. */
  lemma HandoversBounded(run: seq<Event>, i: nat)
    requires PossibleRun(EMPTY_STORE, run) && i < |After(EMPTY_STORE, run).documents|
    ensures After(EMPTY_STORE, run).documents[i].uploads <= MAX_RETRIES + DeadTransfers(run)
  {
    RunKeepsHandovers(EMPTY_STORE, run, 0);
    hide After, PossibleRun, DeadTransfers;
  }

  lemma EventKeepsSent(s: Store, e: Event, i: nat)
    requires Possible(s, e) && i < |s.documents|
    ensures i < |Happen(s, e).documents| && StaysSent(s.documents[i], Happen(s, e).documents[i])
  {
    if e.Commit? {
      ApplyKeepsSent(s, e.step, e.now, i);
      hide Apply, Enabled;
    } else {
      hide EligibleBefore, OnDisk, UnlinkedSoFar;
    }
  }

  /** Nor is a document that is sent ever handed over again, whatever dies. */
  lemma {:induction false} SentThroughDeaths(s: Store, run: seq<Event>, i: nat)
    requires PossibleRun(s, run) && i < |s.documents|
    ensures i < |After(s, run).documents| && StaysSent(s.documents[i], After(s, run).documents[i])
    decreases |run|
  {
    if run != [] {
      EventKeepsSent(s, run[0], i);
      hide Possible, Happen;
      SentThroughDeaths(Happen(s, run[0]), run[1..], i);
    }
  }
}
