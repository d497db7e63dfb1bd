/**
  What every committed state of the pipeline satisfies: documents and disk agree, queued documents
  carry their application's deal, attempts are numbered without gaps, the remote holds no deal that
  a later attempt would miss, and an issued policy is backed by a sent file.
 */
module PipelineInvariants {
  import opened Options
  import opened PipelineTables

  type Applications = map<int, Application>

  // ---------------------------------------------------------------------
  // Documents
  // ---------------------------------------------------------------------

  /**
    A row that keeps a storage key has its file on disk exactly while it is not marked deleted,
    which is exactly while its status is uploaded, retry_required or failed.
   */
  predicate FileAgrees(row: Document, disk: set<string>) {
    row.storageKey.Some? ==>
      && row.storageKey.value != ""
      && (row.storageKey.value in disk <==> row.localDeletedAt.None?)
      && (row.localDeletedAt.None? <==> row.status.Expirable())
  }

  /** A queued document has its file, has retries left and carries its application's deal. */
  predicate QueuedGood(row: Document, apps: Applications) {
    row.status.Queued() ==>
      && row.storageKey.Some?
      && row.uploads <= row.retryCount < MAX_RETRIES
      && row.applicationId in apps && row.dealId == apps[row.applicationId].dealId
  }

  predicate DocumentGood(row: Document, apps: Applications, disk: set<string>) {
    && row.applicationId in apps
    && FileAgrees(row, disk)
    && QueuedGood(row, apps)
    && row.status != Transferring
    && row.uploads <= MAX_RETRIES
    && (row.storageKey.None? ==> row.status == Sent)
    && (row.fileId.Some? ==> row.status == Sent)
  }

  ghost predicate DocumentsGood(apps: Applications, docs: seq<Document>, disk: set<string>) {
    forall i | 0 <= i < |docs| :: DocumentGood(docs[i], apps, disk)
  }

  ghost predicate StorageKeysUnique(docs: seq<Document>) {
    forall i, j | 0 <= i < j < |docs| && docs[i].storageKey.Some? :: docs[i].storageKey != docs[j].storageKey
  }

  ghost predicate FileIdsUnique(docs: seq<Document>) {
    forall i, j | 0 <= i < j < |docs| && docs[i].fileId.Some? && docs[i].applicationId == docs[j].applicationId ::
      docs[i].fileId != docs[j].fileId
  }

  ghost predicate Owned(docs: seq<Document>, key: string) {
    exists i | 0 <= i < |docs| :: docs[i].storageKey == Some(key)
  }

  ghost predicate NoOrphans(docs: seq<Document>, disk: set<string>) {
    forall k | k in disk :: Owned(docs, k)
  }

  ghost predicate StorageGood(apps: Applications, docs: seq<Document>, disk: set<string>) {
    DocumentsGood(apps, docs, disk) && StorageKeysUnique(docs) && FileIdsUnique(docs) && NoOrphans(docs, disk)
  }

  // ---------------------------------------------------------------------
  // Attempts and the remote
  // ---------------------------------------------------------------------

  /** Numbered 1..n, all finished; a deal is recorded exactly by a last, successful attempt. */
  predicate AttemptsGood(xs: seq<Attempt>, deal: Option<int>) {
    && (forall k | 0 <= k < |xs| :: xs[k].no == k + 1 && xs[k].finished)
    && (forall k | 0 <= k < |xs| - 1 :: xs[k].status == AttemptRetryRequired && xs[k].dealId.None?)
    && (xs != [] ==>
          var last := xs[|xs| - 1];
          && last.status in {Succeeded, AttemptRetryRequired}
          && (last.status == Succeeded <==> deal.Some?)
          && last.dealId == deal)
    && (xs == [] ==> deal.None?)
  }

  ghost predicate HistoryGood(apps: Applications, attempts: seq<Attempt>) {
    && (forall k | 0 <= k < |attempts| :: attempts[k].applicationId in apps)
    && (forall a | a in apps :: AttemptsGood(AttemptsOf(attempts, a), apps[a].dealId) && apps[a].status != Submitting)
  }

  /** Whatever the remote holds, it holds for an application that has tried before. */
  ghost predicate RemoteGood(apps: Applications, attempts: seq<Attempt>, deals: map<int, int>) {
    && (forall d | d in deals :: 0 < d && deals[d] in apps && AttemptsOf(attempts, deals[d]) != [])
    && (forall a | a in apps && apps[a].dealId.Some? :: apps[a].dealId.value in deals
          && deals[apps[a].dealId.value] == a)
  }

  // ---------------------------------------------------------------------
  // Policies
  // ---------------------------------------------------------------------

  predicate PolicyGood(row: Policy, apps: Applications, docs: seq<Document>) {
    && row.applicationId in apps && row.dealId.Some? && row.dealId == apps[row.applicationId].dealId
    && row.documentId < |docs|
    && docs[row.documentId].applicationId == row.applicationId
    && docs[row.documentId].status == Sent && docs[row.documentId].isPolicyFile
    && docs[row.documentId].fileId == Some(row.data.fileId)
  }

  ghost predicate PoliciesGood(apps: Applications, docs: seq<Document>, policies: seq<Policy>) {
    && (forall p | 0 <= p < |policies| :: PolicyGood(policies[p], apps, docs))
    && (forall p, q | 0 <= p < q < |policies| :: policies[p].applicationId != policies[q].applicationId)
    && (forall a | a in apps && apps[a].status == PolicyIssued ::
          exists p | 0 <= p < |policies| :: policies[p].applicationId == a)
  }

  ghost predicate Inv(s: Store) {
    && StorageGood(s.applications, s.documents, s.disk)
    && HistoryGood(s.applications, s.attempts)
    && RemoteGood(s.applications, s.attempts, s.deals)
    && PoliciesGood(s.applications, s.documents, s.policies)
  }

  // ---------------------------------------------------------------------
  // Submitting
  // ---------------------------------------------------------------------

  lemma AttemptsAppend(attempts: seq<Attempt>, x: Attempt, app: int)
    ensures AttemptsOf(attempts + [x], app) == AttemptsOf(attempts, app) + if x.applicationId == app then [x] else []
  {
    assert (attempts + [x])[..|attempts|] == attempts;
  }

  lemma {:induction false} AttemptsKnown(attempts: seq<Attempt>, app: int)
    requires forall k | 0 <= k < |attempts| :: attempts[k].applicationId != app
    ensures AttemptsOf(attempts, app) == []
  {
    if attempts != [] {
      AttemptsKnown(attempts[..|attempts| - 1], app);
    }
  }

  /** One more attempt keeps every application's history in order. */
  lemma AttemptKeepsHistory(s: Store, app: int, x: Attempt, row: Application)
    requires HistoryGood(s.applications, s.attempts) && OpensAttempt(s, app)
    requires x.applicationId == app && x.no == |AttemptsOf(s.attempts, app)| + 1 && x.finished
    requires x.status in {Succeeded, AttemptRetryRequired} && (x.status == Succeeded <==> row.dealId.Some?)
    requires x.dealId == row.dealId && row.status != Submitting
    requires s.applications[app].dealId.None?
    ensures HistoryGood(s.applications[app := row], s.attempts + [x])
  {
    var apps, attempts := s.applications[app := row], s.attempts + [x];
    forall a | a in apps ensures AttemptsGood(AttemptsOf(attempts, a), apps[a].dealId) && apps[a].status != Submitting {
      AttemptsAppend(s.attempts, x, a);
      assert AttemptsGood(AttemptsOf(s.attempts, a), s.applications[a].dealId);
    }
  }

  /** A recorded deal id is positive, so testing it for truth is testing it for presence. */
  lemma DealIdPresent(s: Store, app: int)
    requires RemoteGood(s.applications, s.attempts, s.deals) && app in s.applications
    ensures HasDealId(s.applications[app]) <==> s.applications[app].dealId.Some?
  {
  }

  lemma AttemptKeepsRemote(s: Store, app: int, x: Attempt, row: Application, deals: map<int, int>)
    requires RemoteGood(s.applications, s.attempts, s.deals) && app in s.applications && x.applicationId == app
    requires s.deals.Keys <= deals.Keys && forall d | d in s.deals :: deals[d] == s.deals[d]
    requires forall d | d in deals && d !in s.deals :: 0 < d && deals[d] == app
    requires row.dealId.Some? ==> row.dealId.value in deals && deals[row.dealId.value] == app
    ensures RemoteGood(s.applications[app := row], s.attempts + [x], deals)
  {
    var apps := s.applications[app := row];
    forall d | d in deals ensures 0 < d && deals[d] in apps && AttemptsOf(s.attempts + [x], deals[d]) != [] {
      AttemptsAppend(s.attempts, x, deals[d]);
      if d in s.deals { assert deals[d] == s.deals[d] && AttemptsOf(s.attempts, s.deals[d]) != []; }
    }
    hide AttemptsOf;
    forall a | a in apps && apps[a].dealId.Some?
        ensures apps[a].dealId.value in deals && deals[apps[a].dealId.value] == a {
      if a != app { assert s.applications[a].dealId.value in s.deals; }
    }
  }

  lemma WithDealKeepsStorage(apps: Applications, docs: seq<Document>, disk: set<string>, app: int, row: Application)
    requires StorageGood(apps, docs, disk) && app in apps && row.dealId.Some?
    ensures StorageGood(apps[app := row], WithDeal(docs, app, row.dealId.value), disk)
  {
    var t := WithDeal(docs, app, row.dealId.value);
    forall k | k in disk ensures Owned(t, k) {
      assert Owned(docs, k);
      var i :| 0 <= i < |docs| && docs[i].storageKey == Some(k);
      assert t[i].storageKey == Some(k);
    }
  }

  /** Changing an application without touching its deal leaves the documents in order. */
  lemma RowKeepsStorage(apps: Applications, docs: seq<Document>, disk: set<string>, app: int, row: Application)
    requires StorageGood(apps, docs, disk) && (app in apps ==> apps[app].dealId == row.dealId)
    ensures StorageGood(apps[app := row], docs, disk)
  {
    forall i | 0 <= i < |docs| ensures DocumentGood(docs[i], apps[app := row], disk) {
      assert DocumentGood(docs[i], apps, disk);
    }
  }

  lemma RowKeepsPolicies(apps: Applications, docs: seq<Document>, policies: seq<Policy>, app: int, row: Application)
    requires PoliciesGood(apps, docs, policies) && row.status != PolicyIssued
    requires app in apps && apps[app].dealId.Some? ==> row.dealId == apps[app].dealId
    ensures PoliciesGood(apps[app := row], docs, policies)
  {
  }

  lemma WithDealKeepsPolicies(apps: Applications, docs: seq<Document>, policies: seq<Policy>, app: int, deal: int)
    requires PoliciesGood(apps, docs, policies)
    ensures PoliciesGood(apps, WithDeal(docs, app, deal), policies)
  {
    forall p | 0 <= p < |policies| ensures PolicyGood(policies[p], apps, WithDeal(docs, app, deal)) {
      assert PolicyGood(policies[p], apps, docs);
    }
  }

  lemma RefusedKeepsInv(s: Store, app: int, error: string, created: set<int>, now: int)
    requires Inv(s) && OpensAttempt(s, app) && created !! s.deals.Keys && forall d | d in created :: 0 < d
    ensures Inv(Refused(s, app, error, now).(deals := WithCreated(s.deals, created, app)))
  {
    var row := s.applications[app].(status := SubmitError, lastSyncedAt := Some(now));
    var x := NewAttempt(s, app, AttemptRetryRequired, None, Some(error));
    hide StorageGood, HistoryGood, RemoteGood, PoliciesGood;
    DealIdPresent(s, app);
    AttemptKeepsHistory(s, app, x, row);
    AttemptKeepsRemote(s, app, x, row, WithCreated(s.deals, created, app));
    RowKeepsStorage(s.applications, s.documents, s.disk, app, row);
    RowKeepsPolicies(s.applications, s.documents, s.policies, app, row);
  }

  lemma AcceptedKeepsInv(s: Store, app: int, deal: int, category: Option<int>, created: set<int>, now: int)
    requires Inv(s) && OpensAttempt(s, app) && created !! s.deals.Keys && forall d | d in created :: 0 < d
    requires deal in WithCreated(s.deals, created, app) && WithCreated(s.deals, created, app)[deal] == app
    ensures Inv(Accepted(s, app, deal, category, now).(deals := WithCreated(s.deals, created, app)))
  {
    var row := ReceivedRow(s.applications[app], deal, category, now);
    var x := NewAttempt(s, app, Succeeded, Some(deal), None);
    hide StorageGood, HistoryGood, RemoteGood, PoliciesGood;
    DealIdPresent(s, app);
    AttemptKeepsHistory(s, app, x, row);
    AttemptKeepsRemote(s, app, x, row, WithCreated(s.deals, created, app));
    WithDealKeepsStorage(s.applications, s.documents, s.disk, app, row);
    RowKeepsPolicies(s.applications, s.documents, s.policies, app, row);
    WithDealKeepsPolicies(s.applications[app := row], s.documents, s.policies, app, deal);
  }

  lemma DuplicateKeepsInv(s: Store, app: int)
    requires Inv(s) && app in s.applications && s.applications[app].dealId.Some?
    ensures Inv(s.(documents := WithDeal(s.documents, app, s.applications[app].dealId.value)))
    ensures WithDeal(s.documents, app, s.applications[app].dealId.value) == s.documents
  {
    var deal := s.applications[app].dealId.value;
    forall i | 0 <= i < |s.documents| ensures WithDeal(s.documents, app, deal)[i] == s.documents[i] {
      assert DocumentGood(s.documents[i], s.applications, s.disk);
    }
    assert WithDeal(s.documents, app, deal) == s.documents;
  }

  /** The deal an attempt records is one the remote holds for this application. */
  lemma RecordedDeal(s: Store, app: int, r: Replies)
    requires Truthful(s, app, r) && app in s.applications
    ensures SubmitResult(s, app, r).FoundExisting? ==>
              var deal := SubmitResult(s, app, r).dealId; deal in s.deals && s.deals[deal] == app
    ensures SubmitResult(s, app, r).CreatedDeal? ==> SubmitResult(s, app, r).dealId in r.created
  {
  }

  lemma NothingCreated(s: Store, app: int, deal: int, error: string, category: Option<int>, now: int)
    requires app in s.applications
    ensures WithCreated(s.deals, {}, app) == s.deals
    ensures Refused(s, app, error, now).(deals := s.deals) == Refused(s, app, error, now)
    ensures Accepted(s, app, deal, category, now).(deals := s.deals) == Accepted(s, app, deal, category, now)
  {
  }

  lemma LookupKeepsInv(s: Store, app: int, deal: int, error: string, category: Option<int>, now: int)
    requires Inv(s) && OpensAttempt(s, app)
    ensures Inv(Refused(s, app, error, now))
    ensures deal in s.deals && s.deals[deal] == app ==> Inv(Accepted(s, app, deal, category, now))
  {
    hide Inv, Accepted, Refused;
    NothingCreated(s, app, deal, error, category, now);
    RefusedKeepsInv(s, app, error, {}, now);
    if deal in s.deals && s.deals[deal] == app { AcceptedKeepsInv(s, app, deal, category, {}, now); }
  }

  lemma CreateKeepsInv(s: Store, app: int, deal: int, category: Option<int>, created: set<int>, now: int)
    requires Inv(s) && OpensAttempt(s, app) && created !! s.deals.Keys && (forall d | d in created :: 0 < d)
    requires deal in created
    ensures Inv(Accepted(s, app, deal, category, now).(deals := WithCreated(s.deals, created, app)))
  {
    hide Inv, Accepted;
    AcceptedKeepsInv(s, app, deal, category, created, now);
  }

  lemma ResultOpens(s: Store, app: int, r: Replies)
    ensures var o := SubmitResult(s, app, r);
            && (o.LookupFailed? || o.FoundExisting? || o.CreateFailed? || o.CreatedDeal? ==> OpensAttempt(s, app))
            && (o.DuplicatePrevented? ==> app in s.applications && s.applications[app].dealId == Some(o.dealId))
  {
    hide AttemptsOf;
  }

  lemma SubmitKeepsInv(s: Store, app: int, r: Replies, category: Option<int>, now: int)
    requires Inv(s) && Truthful(s, app, r)
    ensures Inv(Submit(s, app, r, category, now))
  {
    if app in s.applications {
      RecordedDeal(s, app, r);
      ResultOpens(s, app, r);
      assert r.created !! s.deals.Keys && forall d | d in r.created :: 0 < d;
      hide Inv, Truthful, Accepted, Refused, AttemptsOf, WithDeal, WithCreated, SubmitResult, OpensAttempt;
      match SubmitResult(s, app, r) {
        case DuplicatePrevented(deal) => DuplicateKeepsInv(s, app);
        case LookupFailed => LookupKeepsInv(s, app, 0, "BITRIX_DEAL_LOOKUP_FAILED", category, now);
        case FoundExisting(deal) => LookupKeepsInv(s, app, deal, "", category, now);
        case CreateFailed => RefusedKeepsInv(s, app, "BITRIX_DEAL_CREATE_FAILED", r.created, now);
        case CreatedDeal(deal) => CreateKeepsInv(s, app, deal, category, r.created, now);
        case _ =>
      }
    }
  }

  // ---------------------------------------------------------------------
  // Documents
  // ---------------------------------------------------------------------

  /** Rows may lose their file but not gain one, and the disk only shrinks. */
  lemma ShrinkKeepsStorage(
    apps: Applications, docs: seq<Document>, disk: set<string>, docs': seq<Document>, disk': set<string>)
    requires StorageGood(apps, docs, disk) && disk' <= disk && |docs'| == |docs|
    requires forall i | 0 <= i < |docs| :: DocumentGood(docs'[i], apps, disk')
    requires forall i | 0 <= i < |docs| ::
      docs'[i].storageKey == docs[i].storageKey
      || (docs'[i].storageKey.None? && docs[i].storageKey.Some? && docs[i].storageKey.value !in disk')
    requires FileIdsUnique(docs')
    ensures StorageGood(apps, docs', disk')
  {
    forall k | k in disk' ensures Owned(docs', k) {
      assert Owned(docs, k);
      var i :| 0 <= i < |docs| && docs[i].storageKey == Some(k);
      assert docs'[i].storageKey == Some(k);
    }
  }

  /** A document no policy depends on may change; one that a policy depends on keeps what matters. */
  lemma DocsKeepPolicies(apps: Applications, docs: seq<Document>, docs': seq<Document>, policies: seq<Policy>)
    requires PoliciesGood(apps, docs, policies) && |docs| <= |docs'|
    requires forall i | 0 <= i < |docs| && docs[i].status == Sent && docs[i].isPolicyFile ::
      docs'[i].applicationId == docs[i].applicationId && docs'[i].status == Sent && docs'[i].isPolicyFile
      && docs'[i].fileId == docs[i].fileId
    ensures PoliciesGood(apps, docs', policies)
  {
    forall p | 0 <= p < |policies| ensures PolicyGood(policies[p], apps, docs') {
      assert PolicyGood(policies[p], apps, docs);
    }
  }

  lemma UploadKeepsInv(s: Store, app: int, kind: string, key: string, expiresAt: int)
    requires Inv(s) && FreshKey(s, key)
    ensures Inv(Upload(s, app, kind, key, expiresAt))
  {
    if MayUpload(s, app) {
      var t := Upload(s, app, kind, key, expiresAt);
      hide HistoryGood, RemoteGood;
      forall i | 0 <= i < |t.documents| ensures DocumentGood(t.documents[i], s.applications, t.disk) {
        if i < |s.documents| { assert DocumentGood(s.documents[i], s.applications, s.disk); }
      }
      forall k | k in t.disk ensures Owned(t.documents, k) {
        if k == key {
          assert t.documents[|s.documents|].storageKey == Some(k);
        } else {
          assert Owned(s.documents, k);
          var i :| 0 <= i < |s.documents| && s.documents[i].storageKey == Some(k);
          assert t.documents[i].storageKey == Some(k);
        }
      }
      DocsKeepPolicies(s.applications, s.documents, t.documents, s.policies);
    }
  }

  lemma DeleteKeepsInv(s: Store, app: int, id: nat, now: int)
    requires Inv(s)
    ensures Inv(Delete(s, app, id, now))
  {
    if MayDelete(s, app, id) {
      var t := Delete(s, app, id, now);
      assert DocumentGood(s.documents[id], s.applications, s.disk);
      hide HistoryGood, RemoteGood;
      forall i | 0 <= i < |t.documents| ensures DocumentGood(t.documents[i], s.applications, t.disk) {
        assert DocumentGood(s.documents[i], s.applications, s.disk);
      }
      ShrinkKeepsStorage(s.applications, s.documents, s.disk, t.documents, t.disk);
      DocsKeepPolicies(s.applications, s.documents, t.documents, s.policies);
    }
  }

  /** A document in the queue always has its file: no transfer fails for want of one. */
  lemma BatchOnDisk(s: Store, i: nat)
    requires StorageGood(s.applications, s.documents, s.disk) && Eligible(s, i)
    ensures OnDisk(s.disk, s.documents[i])
  {
    assert DocumentGood(s.documents[i], s.applications, s.disk);
  }

  lemma TransferKeepsRows(s: Store, limit: nat, replies: map<nat, UploadReply>, now: int, i: nat)
    requires StorageGood(s.applications, s.documents, s.disk) && i < |s.documents|
    requires forall j | InBatch(s, limit, j) :: j in replies
    ensures DocumentGood(Transfer(s, limit, replies, now).documents[i], s.applications,
        Transfer(s, limit, replies, now).disk)
  {
    var t := Transfer(s, limit, replies, now);
    assert DocumentGood(s.documents[i], s.applications, s.disk);
    if s.documents[i].storageKey.Some? {
      var key := s.documents[i].storageKey.value;
      assert key in FileOf(s.documents[i]) <== key != "";
      if key in SentFiles(s, limit, replies) {
        var j, k :| j in replies && InBatch(s, limit, j) && replies[j].UploadedAs?
                 && k in FileOf(s.documents[j]) && k == key;
        assert s.documents[j].storageKey == s.documents[i].storageKey;
      }
    }
    if InBatch(s, limit, i) { BatchOnDisk(s, i); }
    hide SentFiles, EligibleBefore, Eligible, DocumentsGood, StorageKeysUnique, FileIdsUnique, NoOrphans;
  }

  lemma TransferKeepsFileIds(s: Store, limit: nat, replies: map<nat, UploadReply>, now: int)
    requires StorageGood(s.applications, s.documents, s.disk)
    requires forall j | InBatch(s, limit, j) :: j in replies
    requires FreshFileIds(s, limit, replies)
    ensures FileIdsUnique(Transfer(s, limit, replies, now).documents)
  {
    var t := Transfer(s, limit, replies, now);
    forall i, j | 0 <= i < j < |t.documents| && t.documents[i].fileId.Some?
                  && t.documents[i].applicationId == t.documents[j].applicationId
      ensures t.documents[i].fileId != t.documents[j].fileId
    {
      NewFileId(s, limit, replies, now, i);
      NewFileId(s, limit, replies, now, j);
    }
  }

  lemma NewFileId(s: Store, limit: nat, replies: map<nat, UploadReply>, now: int, i: nat)
    requires forall j | InBatch(s, limit, j) :: j in replies
    requires i < |s.documents|
    ensures var row := Transfer(s, limit, replies, now).documents[i];
            row.fileId == s.documents[i].fileId
            || (InBatch(s, limit, i) && replies[i].UploadedAs? && row.fileId == Some(replies[i].fileId))
  {
  }

  lemma TransferKeepsInv(s: Store, limit: nat, replies: map<nat, UploadReply>, now: int)
    requires Inv(s) && FreshFileIds(s, limit, replies)
    requires forall j | InBatch(s, limit, j) :: j in replies
    ensures Inv(Transfer(s, limit, replies, now))
  {
    var t := Transfer(s, limit, replies, now);
    TransferShape(s, limit, replies, now);
    TransferKeepsFileIds(s, limit, replies, now);
    hide Transfer, HistoryGood, RemoteGood, DocumentGood, InBatch, FreshFileIds;
    forall i | 0 <= i < |t.documents| ensures DocumentGood(t.documents[i], s.applications, t.disk) {
      TransferKeepsRows(s, limit, replies, now, i);
    }
    ShrinkKeepsStorage(s.applications, s.documents, s.disk, t.documents, t.disk);
    DocsKeepPolicies(s.applications, s.documents, t.documents, s.policies);
  }

  /** What a run of the queue leaves as it was. */
  lemma TransferShape(s: Store, limit: nat, replies: map<nat, UploadReply>, now: int)
    requires forall j | InBatch(s, limit, j) :: j in replies
    ensures var t := Transfer(s, limit, replies, now);
            && t == s.(documents := t.documents, disk := t.disk) && |t.documents| == |s.documents| && t.disk <= s.disk
            && (forall i | 0 <= i < |s.documents| :: t.documents[i].storageKey == s.documents[i].storageKey)
            && (forall i | 0 <= i < |s.documents| && s.documents[i].status == Sent :: t.documents[i] == s.documents[i])
  {
    hide EligibleBefore, OnDisk, SentFiles;
  }

  lemma CleanupKeepsRows(s: Store, now: int, i: nat)
    requires StorageGood(s.applications, s.documents, s.disk) && i < |s.documents|
    ensures DocumentGood(Cleanup(s, now).documents[i], s.applications, Cleanup(s, now).disk)
  {
    assert DocumentGood(s.documents[i], s.applications, s.disk);
    if s.documents[i].storageKey.Some? {
      var key := s.documents[i].storageKey.value;
      assert key in FileOf(s.documents[i]) <== key != "";
      if key in CleanedFiles(s, now) {
        var j, k :| 0 <= j < |s.documents| && Cleanable(s.documents[j], now) && k in FileOf(s.documents[j]) && k == key;
        assert s.documents[j].storageKey == s.documents[i].storageKey;
      }
    }
  }

  lemma CleanupKeepsInv(s: Store, now: int)
    requires Inv(s)
    ensures Inv(Cleanup(s, now))
  {
    var t := Cleanup(s, now);
    forall i | 0 <= i < |t.documents| ensures DocumentGood(t.documents[i], s.applications, t.disk) {
      CleanupKeepsRows(s, now, i);
    }
    assert forall i | 0 <= i < |s.documents| ::
        t.documents[i].storageKey == s.documents[i].storageKey && t.documents[i].fileId == s.documents[i].fileId
        && t.documents[i].applicationId == s.documents[i].applicationId;
    assert FileIdsUnique(t.documents);
    hide HistoryGood, RemoteGood, DocumentGood;
    ShrinkKeepsStorage(s.applications, s.documents, s.disk, t.documents, t.disk);
    DocsKeepPolicies(s.applications, s.documents, t.documents, s.policies);
  }

  // ---------------------------------------------------------------------
  // Reverse sync
  // ---------------------------------------------------------------------

  lemma {:induction false} FindDocumentSpec(docs: seq<Document>, app: int, fileId: string)
    ensures var f := FindDocument(docs, app, fileId);
            && (f.Some? ==>
                  f.value < |docs| && docs[f.value].applicationId == app && docs[f.value].fileId == Some(fileId))
            && (f.None? ==> forall i | 0 <= i < |docs| ::
                  docs[i].applicationId != app || docs[i].fileId != Some(fileId))
  {
    if docs != [] {
      FindDocumentSpec(docs[..|docs| - 1], app, fileId);
    }
  }

  lemma {:induction false} FindPolicySpec(policies: seq<Policy>, app: int, deal: Option<int>)
    ensures var f := FindPolicy(policies, app, deal);
            && (f.Some? ==>
                  f.value < |policies| && policies[f.value].applicationId == app && policies[f.value].dealId == deal)
            && (f.None? ==> forall p | 0 <= p < |policies| ::
                  policies[p].applicationId != app || policies[p].dealId != deal)
  {
    if policies != [] {
      FindPolicySpec(policies[..|policies| - 1], app, deal);
    }
  }

  lemma UpsertDocumentKeeps(s: Store, app: int, fileId: string, now: int)
    requires app in s.applications
    requires StorageGood(s.applications, s.documents, s.disk) && PoliciesGood(s.applications, s.documents, s.policies)
    ensures var t := UpsertDocument(s, app, fileId, now);
            var f := FindDocument(s.documents, app, fileId);
            var id := if f.Some? then f.value else |s.documents|;
            && StorageGood(t.applications, t.documents, t.disk) && PoliciesGood(t.applications, t.documents, t.policies)
            && id < |t.documents| && t.documents[id].applicationId == app && t.documents[id].fileId == Some(fileId)
            && t.documents[id].status == Sent && t.documents[id].isPolicyFile
  {
    FindDocumentSpec(s.documents, app, fileId);
    var t := UpsertDocument(s, app, fileId, now);
    forall i | 0 <= i < |s.documents| ensures DocumentGood(s.documents[i], s.applications, s.disk) {}
    match FindDocument(s.documents, app, fileId)
    case None =>
      forall k | k in t.disk ensures Owned(t.documents, k) {
        assert Owned(s.documents, k);
        var i :| 0 <= i < |s.documents| && s.documents[i].storageKey == Some(k);
        assert t.documents[i].storageKey == Some(k);
      }
      DocsKeepPolicies(s.applications, s.documents, t.documents, s.policies);
    case Some(i) =>
      assert t.disk == s.disk;
      ShrinkKeepsStorage(s.applications, s.documents, s.disk, t.documents, t.disk);
      DocsKeepPolicies(s.applications, s.documents, t.documents, s.policies);
  }

  lemma UpsertPolicyKeeps(s: Store, app: int, data: PolicyData, documentId: nat, now: int)
    requires app in s.applications && s.applications[app].dealId.Some?
    requires PoliciesGood(s.applications, s.documents, s.policies)
    requires PolicyGood(Policy(app, s.applications[app].dealId, data, documentId, now), s.applications, s.documents)
    ensures var t := UpsertPolicy(s, app, data, documentId, now);
            && PoliciesGood(t.applications, t.documents, t.policies)
            && exists p | 0 <= p < |t.policies| :: t.policies[p].applicationId == app
  {
    FindPolicySpec(s.policies, app, s.applications[app].dealId);
    var t := UpsertPolicy(s, app, data, documentId, now);
    forall p | 0 <= p < |s.policies| ensures PolicyGood(s.policies[p], s.applications, s.documents) {}
    var at := if FindPolicy(s.policies, app, s.applications[app].dealId).None? then |s.policies|
              else FindPolicy(s.policies, app, s.applications[app].dealId).value;
    assert t.policies[at].applicationId == app;
    forall a | a in t.applications && t.applications[a].status == PolicyIssued
      ensures exists p | 0 <= p < |t.policies| :: t.policies[p].applicationId == a
    {
      var p :| 0 <= p < |s.policies| && s.policies[p].applicationId == a;
      assert t.policies[p].applicationId == a;
    }
  }

  lemma SyncPolicyKeeps(s: Store, app: int, data: PolicyData, now: int)
    requires Inv(s) && app in s.applications && s.applications[app].dealId.Some?
    ensures var t := SyncPolicy(s, app, data, now);
            && Inv(t) && t.applications == s.applications
            && exists p | 0 <= p < |t.policies| :: t.policies[p].applicationId == app
  {
    hide StorageGood, HistoryGood, RemoteGood, PoliciesGood;
    UpsertDocumentKeeps(s, app, data.fileId, now);
    var f := FindDocument(s.documents, app, data.fileId);
    UpsertPolicyKeeps(UpsertDocument(s, app, data.fileId, now), app, data,
                      if f.Some? then f.value else |s.documents|, now);
  }

  lemma RowKeepsHistory(s: Store, app: int, row: Application)
    requires HistoryGood(s.applications, s.attempts) && app in s.applications
    requires row.dealId == s.applications[app].dealId && row.status != Submitting
    ensures HistoryGood(s.applications[app := row], s.attempts)
  {
    hide AttemptsGood, AttemptsOf;
  }

  lemma RowKeepsRemote(s: Store, app: int, row: Application)
    requires RemoteGood(s.applications, s.attempts, s.deals) && app in s.applications
    requires row.dealId == s.applications[app].dealId
    ensures RemoteGood(s.applications[app := row], s.attempts, s.deals)
  {
    hide AttemptsOf;
  }

  lemma IssuedRowKeepsPolicies(apps: Applications, docs: seq<Document>, policies: seq<Policy>, app: int,
      row: Application)
    requires PoliciesGood(apps, docs, policies) && app in apps && row.dealId == apps[app].dealId
    requires row.status == PolicyIssued ==> exists p | 0 <= p < |policies| :: policies[p].applicationId == app
    ensures PoliciesGood(apps[app := row], docs, policies)
  {
    forall p | 0 <= p < |policies| ensures PolicyGood(policies[p], apps[app := row], docs) {
      assert PolicyGood(policies[p], apps, docs);
    }
  }

  lemma RowKeepsInv(s: Store, app: int, row: Application)
    requires Inv(s) && app in s.applications && row.dealId == s.applications[app].dealId && row.status != Submitting
    requires row.status == PolicyIssued ==> exists p | 0 <= p < |s.policies| :: s.policies[p].applicationId == app
    ensures Inv(s.(applications := s.applications[app := row]))
  {
    hide StorageGood, HistoryGood, RemoteGood, PoliciesGood;
    RowKeepsStorage(s.applications, s.documents, s.disk, app, row);
    RowKeepsHistory(s, app, row);
    RowKeepsRemote(s, app, row);
    IssuedRowKeepsPolicies(s.applications, s.documents, s.policies, app, row);
  }

  lemma SyncKeepsInv(s: Store, app: int, reply: DealReply, stages: StageMap, now: int)
    requires Inv(s) && Submitting !in stages.Values
    ensures Inv(Sync(s, app, reply, stages, now))
  {
    if app in s.applications && HasDealId(s.applications[app]) {
      var row := s.applications[app];
      assert row.status != Submitting;
      assert row.status == PolicyIssued ==> exists p | 0 <= p < |s.policies| :: s.policies[p].applicationId == app;
      hide Inv, SyncPolicy;
      match reply
      case DealError(code, retryable) =>
        RowKeepsInv(s, app, row.(syncStatus := if retryable then SyncRetryRequired else SyncFailed,
                                 syncError := Some(code), lastSyncedAt := Some(now)));
      case DealResult(deal) =>
        var payload := PolicyPayload(row, deal.policy);
        if MappedStatus(row, deal, stages) == PolicyIssued && payload.Some? {
          SyncPolicyKeeps(s, app, payload.value, now);
          RowKeepsInv(SyncPolicy(s, app, payload.value, now), app, SyncedRow(row, deal, stages, now));
        } else {
          RowKeepsInv(s, app, SyncedRow(row, deal, stages, now));
        }
    }
  }

  // ---------------------------------------------------------------------
  // Every run
  // ---------------------------------------------------------------------

  lemma DraftKeepsInv(s: Store, app: int, product: Option<string>)
    requires Inv(s) && app !in s.applications
    ensures Inv(s.(applications := s.applications[app := NewDraft(product)]))
  {
    AttemptsKnown(s.attempts, app);
    hide AttemptsOf;
    var row := NewDraft(product);
    RowKeepsStorage(s.applications, s.documents, s.disk, app, row);
    RowKeepsPolicies(s.applications, s.documents, s.policies, app, row);
    hide StorageGood, PoliciesGood;
  }

  lemma ApplyKeepsInv(s: Store, step: Step, now: int)
    requires Inv(s) && Enabled(s, step)
    ensures Inv(Apply(s, step, now))
  {
    hide Inv;
    match step
    case DraftStep(app, product) => DraftKeepsInv(s, app, product);
    case SubmitStep(app, r, category) => SubmitKeepsInv(s, app, r, category, now);
    case UploadStep(app, kind, key, expiresAt) => UploadKeepsInv(s, app, kind, key, expiresAt);
    case DeleteStep(app, id) => DeleteKeepsInv(s, app, id, now);
    case TransferStep(limit, uploads) => TransferKeepsInv(s, limit, uploads, now);
    case CleanupStep => CleanupKeepsInv(s, now);
    case SyncStep(app, reply, stages) => SyncKeepsInv(s, app, reply, stages, now);
  }

  lemma {:induction false} RunKeepsInv(s: Store, run: seq<TimedStep>)
    requires Inv(s) && EnabledRun(s, run)
    ensures Inv(Run(s, run))
    decreases |run|
  {
    if run != [] {
      hide Inv, Apply, Enabled;
      ApplyKeepsInv(s, run[0].step, run[0].now);
      RunKeepsInv(Apply(s, run[0].step, run[0].now), run[1..]);
    }
  }

  const EMPTY_STORE := Store(map[], [], [], [], {}, map[])

  lemma EmptyStoreInv()
    ensures Inv(EMPTY_STORE)
  {
  }
}
