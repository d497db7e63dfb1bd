/**
  The pipeline's operations as they run against the database, the temporary file store and the
  remote: submission, upload and deletion, the transfer queue, cleanup and reverse sync.  Each is
  proved to have the effect PipelineTables states for it.
 */
module PipelineService {
  import opened Options
  import opened PipelineTables
  import opened PipelineInvariants
  import opened PipelineTheorems
  import opened PipelineLaws
  import opened Sets

  // ---------------------------------------------------------------------
  // Attempt numbers
  // ---------------------------------------------------------------------

  /** The largest attempt number of an application, or 0. */
  function MaxNo(attempts: seq<Attempt>, app: int): int {
    if attempts == [] then 0
    else
      var last := attempts[|attempts| - 1];
      var rest := MaxNo(attempts[..|attempts| - 1], app);
      if last.applicationId == app && last.no > rest then last.no else rest
  }

  lemma {:induction false} MaxNoOfHistory(attempts: seq<Attempt>, app: int)
    requires forall k | 0 <= k < |AttemptsOf(attempts, app)| :: AttemptsOf(attempts, app)[k].no == k + 1
    ensures MaxNo(attempts, app) == |AttemptsOf(attempts, app)|
  {
    if attempts != [] {
      var front := attempts[..|attempts| - 1];
      var xs, ys := AttemptsOf(front, app), AttemptsOf(attempts, app);
      assert forall k | 0 <= k < |xs| :: xs[k] == ys[k];
      MaxNoOfHistory(front, app);
      if attempts[|attempts| - 1].applicationId == app {
        assert ys[|xs|].no == |xs| + 1;
      }
    }
  }

  /** Inside a submission, before its commit: the attempt has started and the application is submitting. */
  ghost function Opened(s: Store, app: int, now: int): Store
    requires app in s.applications
  {
    s.(applications := s.applications[app := s.applications[app].(status := Submitting, lastSyncedAt := Some(now))],
       attempts := s.attempts + [Attempt(app, |AttemptsOf(s.attempts, app)| + 1, Started, None, None, false)])
  }

  // ---------------------------------------------------------------------
  // Loops over documents
  // ---------------------------------------------------------------------

  ghost function FilesOf(docs: seq<Document>, rows: set<nat>): set<string> {
    set i, k | i in rows && i < |docs| && k in FileOf(docs[i]) :: k
  }

  /**
    Part of the way through a loop that takes s to t: the rows in done are finished, and the files
    of the rows in gone have left the disk.
   */
  ghost predicate Midway(s: Store, t: Store, done: set<nat>, gone: set<nat>, docs: seq<Document>, disk: set<string>) {
    && |docs| == |s.documents| == |t.documents|
    && gone <= done
    && (forall i: nat | i < |docs| :: docs[i] == if i in done then t.documents[i] else s.documents[i])
    && disk == s.disk - FilesOf(s.documents, gone)
  }

  /** Work on other documents leaves this one's row and file as they were. */
  lemma NextDocument(s: Store, t: Store, done: set<nat>, gone: set<nat>, docs: seq<Document>, disk: set<string>, i: nat)
    requires StorageGood(s.applications, s.documents, s.disk) && Midway(s, t, done, gone, docs, disk)
    requires i < |docs| && i !in done
    ensures docs[i] == s.documents[i] && (OnDisk(disk, docs[i]) <==> OnDisk(s.disk, s.documents[i]))
  {
    hide DocumentsGood, FileIdsUnique, NoOrphans;
  }

  lemma OneMoreDocument(
    s: Store, t: Store, done: set<nat>, gone: set<nat>, docs: seq<Document>, disk: set<string>, i: nat, unlinked: bool)
    requires Midway(s, t, done, gone, docs, disk) && i < |docs| && i !in done
    ensures Midway(s, t, done + {i}, if unlinked then gone + {i} else gone, docs[i := t.documents[i]],
                   disk - if unlinked then FileOf(s.documents[i]) else {})
  {
    hide FileOf;
    assert FilesOf(s.documents, gone + {i}) == FilesOf(s.documents, gone) + FileOf(s.documents[i]);
  }

  ghost function Batch(s: Store, limit: nat): set<nat> {
    set i: nat | 0 <= i < |s.documents| && InBatch(s, limit, i)
  }

  ghost function SentBatch(s: Store, limit: nat, replies: map<nat, UploadReply>): set<nat> {
    set i | i in Batch(s, limit) && i in replies && replies[i].UploadedAs?
  }

  lemma TransferFinished(
    s: Store, limit: nat, replies: map<nat, UploadReply>, now: int, docs: seq<Document>, disk: set<string>)
    requires forall i | InBatch(s, limit, i) :: i in replies
    requires Midway(s, Transfer(s, limit, replies, now), Batch(s, limit), SentBatch(s, limit, replies), docs, disk)
    ensures s.(documents := docs, disk := disk) == Transfer(s, limit, replies, now)
  {
    assert forall i: nat | InBatch(s, limit, i) :: i < |s.documents|;
    hide InBatch, FileOf, TransferredRow;
    assert FilesOf(s.documents, SentBatch(s, limit, replies)) == SentFiles(s, limit, replies);
    assert docs == Transfer(s, limit, replies, now).documents;
  }

  lemma TransferStarts(s: Store, limit: nat, replies: map<nat, UploadReply>, now: int)
    requires forall i | InBatch(s, limit, i) :: i in replies
    ensures Midway(s, Transfer(s, limit, replies, now), {}, {}, s.documents, s.disk)
    ensures forall i: nat | InBatch(s, limit, i) ::
      i < |s.documents|
      && Transfer(s, limit, replies, now).documents[i]
         == TransferredRow(s.documents[i], OnDisk(s.disk, s.documents[i]), replies[i], now)
  {
    assert forall i: nat | InBatch(s, limit, i) :: i < |s.documents|;
    hide InBatch, FileOf, TransferredRow, OnDisk;
  }

  ghost function CleanableRows(s: Store, now: int): set<nat> {
    set i: nat | 0 <= i < |s.documents| && Cleanable(s.documents[i], now)
  }

  lemma CleanupStarts(s: Store, now: int)
    ensures Midway(s, Cleanup(s, now), {}, {}, s.documents, s.disk)
    ensures forall i | i in CleanableRows(s, now) ::
              i < |s.documents| && Cleanup(s, now).documents[i] == CleanedRow(s.documents[i], s.disk, now)
  {
    hide Cleanable, CleanedRow, FileOf;
  }

  lemma CleanupFinished(s: Store, now: int, docs: seq<Document>, disk: set<string>)
    requires Midway(s, Cleanup(s, now), CleanableRows(s, now), CleanableRows(s, now), docs, disk)
    ensures s.(documents := docs, disk := disk) == Cleanup(s, now)
  {
    hide Cleanable, FileOf, CleanedRow;
    assert FilesOf(s.documents, CleanableRows(s, now)) == CleanedFiles(s, now);
    assert docs == Cleanup(s, now).documents;
  }

  // ---------------------------------------------------------------------
  // Files offered for upload
  // ---------------------------------------------------------------------

  const MAX_DOCUMENT_BYTES := 50 * 1024 * 1024

  const DOCUMENT_TYPES := {
    "client_document", "invoice", "certificate", "other", "vehicle_registration_certificate", "lease_agreement",
    "previous_policy", "cmr", "transport_document", "cargo_description", "contract", "certificate_basis"}

  const ALLOWED_EXTENSIONS := {".pdf", ".jpg", ".jpeg", ".png", ".docx", ".doc", ".xls", ".xlsx", ".rar", ".zip"}

  const ALLOWED_MIME_PREFIXES := {
    "application/pdf", "image/jpeg", "image/png", "application/msword", "application/vnd.openxmlformats-officedocument",
    "application/vnd.ms-excel", "application/zip", "application/x-zip-compressed", "application/vnd.rar",
    "application/x-rar-compressed"}

  /** extension is the lower-case suffix of the file's name. */
  datatype UploadedFile = UploadedFile(extension: string, contentType: Option<string>, size: nat)

  datatype UploadRefusal =
    | ApplicationNotFound | StatusNotAllowed | TypeInvalid | LimitExceeded
    | ExtensionNotAllowed | MimeNotAllowed | TooLarge

  predicate TruthyText(text: Option<string>) { text.Some? && text.value != "" }

  predicate MimeAllowed(contentType: string) {
    exists p | p in ALLOWED_MIME_PREFIXES :: p <= contentType
  }

  /** A content type is judged by its beginning. */
  lemma MimeAllowedIff(contentType: string)
    ensures MimeAllowed(contentType) <==>
            exists n | 0 <= n <= |contentType| :: contentType[..n] in ALLOWED_MIME_PREFIXES
  {
    if MimeAllowed(contentType) {
      var p :| p in ALLOWED_MIME_PREFIXES && p <= contentType;
      assert contentType[..|p|] == p;
    }
  }

  const OCTET_STREAM := "application/octet-stream"

  lemma OctetStreamNotAllowed()
    ensures !MimeAllowed(OCTET_STREAM)
  {
    forall p | p in ALLOWED_MIME_PREFIXES ensures !(p <= OCTET_STREAM) {
      assert p[0] != OCTET_STREAM[0] || p[12] != OCTET_STREAM[12];
    }
  }

  /** A file without a content type counts as an octet stream, which is not allowed. */
  predicate FileAllowed(file: UploadedFile) {
    && file.extension in ALLOWED_EXTENSIONS
    && TruthyText(file.contentType) && MimeAllowed(file.contentType.value)
    && file.size <= MAX_DOCUMENT_BYTES
  }

  /** The reasons to refuse an upload, each on its own. */
  predicate Refuses(s: Store, app: int, kind: string, file: UploadedFile, why: UploadRefusal) {
    match why
    case ApplicationNotFound => app !in s.applications
    case StatusNotAllowed => app in s.applications && !s.applications[app].status.UploadAllowed()
    case TypeInvalid => kind !in DOCUMENT_TYPES
    case LimitExceeded => LiveDocuments(s.documents, app) >= MAX_DOCUMENTS
    case ExtensionNotAllowed => file.extension !in ALLOWED_EXTENSIONS
    case MimeNotAllowed => !(TruthyText(file.contentType) && MimeAllowed(file.contentType.value))
    case TooLarge => file.size > MAX_DOCUMENT_BYTES
  }

  /** The order in which they are looked for. */
  function Rank(why: UploadRefusal): nat {
    match why
    case ApplicationNotFound => 0
    case StatusNotAllowed => 1
    case TypeInvalid => 2
    case LimitExceeded => 3
    case ExtensionNotAllowed => 4
    case MimeNotAllowed => 5
    case TooLarge => 6
  }

  class PortalDatabase {
    var applications: map<int, Application>
    var documents: seq<Document>
    var attempts: seq<Attempt>
    var policies: seq<Policy>
    var disk: set<string>
    var deals: map<int, int>

    function View(): Store
      reads this
    {
      Store(applications, documents, attempts, policies, disk, deals)
    }

    constructor ()
      ensures View() == EMPTY_STORE
    {
      applications, documents, attempts, policies, disk, deals := map[], [], [], [], {}, map[];
    }

    // -------------------------------------------------------------------
    // Submission
    // -------------------------------------------------------------------

    method NextAttemptNo(app: int) returns (no: int)
      ensures no == MaxNo(attempts, app) + 1
    {
      var current := 0;
      for k := 0 to |attempts|
        invariant current == MaxNo(attempts[..k], app)
      {
        assert attempts[..k + 1][..k] == attempts[..k];
        if attempts[k].applicationId == app && attempts[k].no > current {
          current := attempts[k].no;
        }
      }
      assert attempts[..|attempts|] == attempts;
      no := current + 1;
    }

    method HasPreviousAttempt(app: int) returns (found: bool)
      ensures found <==> AttemptsOf(attempts, app) != []
    {
      for k := 0 to |attempts|
        invariant AttemptsOf(attempts[..k], app) == []
      {
        assert attempts[..k + 1] == attempts[..k] + [attempts[k]];
        AttemptsAppend(attempts[..k], attempts[k], app);
        if attempts[k].applicationId == app {
          AttemptsKept(attempts, k + 1, app);
          return true;
        }
      }
      assert attempts[..|attempts|] == attempts;
      found := false;
    }

    method CreateAttempt(app: int) returns (id: nat)
      modifies this`attempts
      ensures id == |old(attempts)|
      ensures attempts == old(attempts) + [Attempt(app, MaxNo(old(attempts), app) + 1, Started, None, None, false)]
    {
      var no := NextAttemptNo(app);
      id := |attempts|;
      attempts := attempts + [Attempt(app, no, Started, None, None, false)];
    }

    method FinishAttempt(id: nat, status: AttemptStatus, deal: Option<int>, error: Option<string>)
      requires id < |attempts|
      modifies this`attempts
      ensures attempts == old(attempts)[id := old(attempts)[id].(
        status := status, dealId := deal, errorCode := error, finished := true)]
    {
      attempts := attempts[id := attempts[id].(status := status, dealId := deal, errorCode := error, finished := true)];
    }

    method QueueApplicationDocuments(app: int, deal: int)
      modifies this`documents
      ensures documents == WithDeal(old(documents), app, deal)
    {
      documents := WithDeal(documents, app, deal);
    }

    /** The attempt ends without a deal. */
    method RecordError(ghost s: Store, app: int, id: nat, error: string, now: int)
      requires app in s.applications && id == |s.attempts| && View() == Opened(s, app, now).(deals := deals)
      modifies this`applications, this`attempts
      ensures View() == Refused(s, app, error, now).(deals := deals)
    {
      applications := applications[app := applications[app].(status := SubmitError, lastSyncedAt := Some(now))];
      FinishAttempt(id, AttemptRetryRequired, None, Some(error));
    }

    /** The attempt ends with a deal, found or created. */
    method RecordDeal(ghost s: Store, app: int, id: nat, deal: int, category: Option<int>, now: int)
      requires app in s.applications && id == |s.attempts| && View() == Opened(s, app, now).(deals := deals)
      modifies this`applications, this`documents, this`attempts
      ensures View() == Accepted(s, app, deal, category, now).(deals := deals)
    {
      hide AttemptsOf, WithDeal;
      applications := applications[app := ReceivedRow(applications[app], deal, category, now)];
      QueueApplicationDocuments(app, deal);
      FinishAttempt(id, Succeeded, Some(deal), None);
    }

    method OpenAttempt(app: int, now: int) returns (id: nat)
      requires Inv(View()) && OpensAttempt(View(), app)
      modifies this`applications, this`attempts
      ensures id == |old(attempts)| && View() == Opened(old(View()), app, now)
    {
      assert AttemptsGood(AttemptsOf(attempts, app), applications[app].dealId);
      MaxNoOfHistory(attempts, app);
      hide Inv, AttemptsOf, MaxNo;
      id := CreateAttempt(app);
      applications := applications[app := applications[app].(status := Submitting, lastSyncedAt := Some(now))];
    }

    /** The call to create_deal, which may create deals whether or not it says so. */
    method CreatePhase(ghost s: Store, app: int, id: nat, replies: Replies, category: Option<int>, now: int)
      returns (outcome: SubmitOutcome)
      requires app in s.applications && id == |s.attempts| && View() == Opened(s, app, now)
      modifies this
      ensures outcome == if replies.create.CreateError? then CreateFailed else CreatedDeal(replies.create.dealId)
      ensures View() == (if replies.create.CreateError? then Refused(s, app, "BITRIX_DEAL_CREATE_FAILED", now)
                         else Accepted(s, app, replies.create.dealId, category, now)
                        ).(deals := WithCreated(s.deals, replies.created, app))
    {
      hide Refused, Accepted, AttemptsOf;
      deals := deals + map d | d in replies.created :: app;
      match replies.create
      case CreateError(_) =>
        RecordError(s, app, id, "BITRIX_DEAL_CREATE_FAILED", now);
        outcome := CreateFailed;
      case CreateResult(deal) =>
        RecordDeal(s, app, id, deal, category, now);
        outcome := CreatedDeal(deal);
    }

    /** One call, from the row lock to its commit; the replies are what the remote would answer if asked. */
    method SubmitApplication(app: int, replies: Replies, category: Option<int>, now: int)
      returns (outcome: SubmitOutcome)
      requires Inv(View())
      modifies this
      ensures outcome == SubmitResult(old(View()), app, replies)
      ensures View() == Submit(old(View()), app, replies, category, now)
      ensures outcome.FoundExisting? || outcome.CreatedDeal? ==>
                app in old(applications) && applications == old(applications)[app := old(applications)[app].(
                  status := Received, dealId := Some(outcome.dealId), submittedAt := Some(now),
                  lastSyncedAt := Some(now),
                  categoryId := if category.Some? then category else old(applications)[app].categoryId)]
      ensures outcome.LookupFailed? || outcome.CreateFailed? ==>
                app in old(applications) && applications == old(applications)[app := old(applications)[app].(
                  status := SubmitError, lastSyncedAt := Some(now))]
      ensures !outcome.FoundExisting? && !outcome.CreatedDeal? && !outcome.LookupFailed? && !outcome.CreateFailed? ==>
                applications == old(applications)
    {
      SubmitApplications(View(), app, replies, category, now);
      hide Inv, Accepted, Refused, Opened, AttemptsOf, WithDeal, WithCreated;
      if app !in applications { return NoSuchApplication; }
      ghost var s := View();
      if applications[app].dealId.Some? && applications[app].dealId.value != 0 {
        QueueApplicationDocuments(app, applications[app].dealId.value);
        return DuplicatePrevented(applications[app].dealId.value);
      }
      if applications[app].status == Submitting { return SubmitInProgress; }
      if !applications[app].status.SubmitAllowed() { return AlreadySubmitted; }
      var shouldLookup := HasPreviousAttempt(app);
      var id := OpenAttempt(app, now);
      OpenedRest(s, app, now);
      hide View;
      if shouldLookup {
        match replies.lookup
        case LookupError(_) =>
          RecordError(s, app, id, "BITRIX_DEAL_LOOKUP_FAILED", now);
          AcceptedRest(s, app, 0, "BITRIX_DEAL_LOOKUP_FAILED", category, now);
          return LookupFailed;
        case LookupResult(found) =>
          if found.Some? && found.value != 0 {
            RecordDeal(s, app, id, found.value, category, now);
            AcceptedRest(s, app, found.value, "", category, now);
            return FoundExisting(found.value);
          }
      }
      outcome := CreatePhase(s, app, id, replies, category, now);
    }

    // -------------------------------------------------------------------
    // Upload and delete
    // -------------------------------------------------------------------

    method SafeUnlink(key: Option<string>) returns (deleted: bool)
      modifies this`disk
      ensures deleted <==> key.Some? && key.value != "" && key.value in old(disk)
      ensures disk == if deleted then old(disk) - {key.value} else old(disk)
    {
      if key.None? || key.value == "" || key.value !in disk { return false; }
      disk := disk - {key.value};
      deleted := true;
    }

    method CountLive(app: int) returns (count: nat)
      ensures count == LiveDocuments(documents, app)
    {
      count := 0;
      for k := 0 to |documents|
        invariant count == LiveDocuments(documents[..k], app)
      {
        assert documents[..k + 1][..k] == documents[..k];
        if documents[k].applicationId == app && !documents[k].status.Deleted? && !documents[k].status.ExpiredDocument? {
          count := count + 1;
        }
      }
      assert documents[..|documents|] == documents;
    }

    /** The checks in their order; only an upload that passes all of them writes anything. */
    method UploadApplicationDocument(app: int, kind: string, file: UploadedFile, key: string, expiresAt: int)
      returns (refusal: Option<UploadRefusal>)
      modifies this`documents, this`disk
      ensures refusal.None? <==> MayUpload(old(View()), app) && kind in DOCUMENT_TYPES && FileAllowed(file)
      ensures refusal.Some? ==> Refuses(old(View()), app, kind, file, refusal.value)
                                && forall e: UploadRefusal | Rank(e) < Rank(refusal.value) ::
                                     !Refuses(old(View()), app, kind, file, e)
      ensures View() == if refusal.None? then Upload(old(View()), app, kind, key, expiresAt) else old(View())
    {
      if app !in applications { return Some(ApplicationNotFound); }
      if !applications[app].status.UploadAllowed() { return Some(StatusNotAllowed); }
      if kind !in DOCUMENT_TYPES { return Some(TypeInvalid); }
      var existing := CountLive(app);
      if existing >= MAX_DOCUMENTS { return Some(LimitExceeded); }
      if file.extension !in ALLOWED_EXTENSIONS { return Some(ExtensionNotAllowed); }
      OctetStreamNotAllowed();
      hide MimeAllowed, LiveDocuments;
      if !MimeAllowed(if TruthyText(file.contentType) then file.contentType.value else OCTET_STREAM) {
        return Some(MimeNotAllowed);
      }
      if file.size > MAX_DOCUMENT_BYTES { return Some(TooLarge); }
      disk := disk + {key};
      documents := documents + [Document(app, kind, false, Some(key), Uploaded, None, applications[app].dealId, None,
                                         None, Some(expiresAt), 0, None, 0)];
      refusal := None;
    }

    method DeleteApplicationDocument(app: int, id: nat, now: int) returns (deleted: bool)
      modifies this`documents, this`disk
      ensures deleted <==> MayDelete(old(View()), app, id)
      ensures View() == Delete(old(View()), app, id, now)
    {
      if app !in applications || !applications[app].status.DeleteAllowed() { return false; }
      if id >= |documents| || documents[id].applicationId != app || documents[id].status == Sent { return false; }
      var unlinked := SafeUnlink(documents[id].storageKey);
      documents := documents[id := documents[id].(status := Deleted, localDeletedAt := Some(now))];
      deleted := true;
    }

    // -------------------------------------------------------------------
    // The transfer queue
    // -------------------------------------------------------------------

    predicate IsEligible(i: nat)
      reads this
      ensures IsEligible(i) <==> Eligible(View(), i)
    {
      && i < |documents| && documents[i].status.Queued() && documents[i].dealId.Some?
      && documents[i].localDeletedAt.None? && documents[i].applicationId in applications
      && applications[documents[i].applicationId].dealId == documents[i].dealId
    }

    /** The oldest eligible documents, in order, up to the limit. */
    method SelectQueue(limit: nat) returns (ids: seq<nat>)
      ensures forall i | 0 <= i < |ids| :: ids[i] < |documents|
      ensures forall i, j | 0 <= i < j < |ids| :: ids[i] < ids[j]
      ensures forall i: nat :: i in ids <==> InBatch(View(), limit, i)
      ensures |ids| == if EligibleBefore(View(), |documents|) <= limit then EligibleBefore(View(), |documents|)
                       else limit
    {
      ids := [];
      assert forall k: nat | InBatch(View(), limit, k) :: k < |documents|;
      hide View, Eligible;
      for i := 0 to |documents|
        invariant |ids| == if EligibleBefore(View(), i) <= limit then EligibleBefore(View(), i) else limit
        invariant forall k | 0 <= k < |ids| :: ids[k] < i
        invariant forall k, l | 0 <= k < l < |ids| :: ids[k] < ids[l]
        invariant forall k: nat :: k in ids <==> k < i && InBatch(View(), limit, k)
      {
        if |ids| < limit && IsEligible(i) {
          ids := ids + [i];
        }
      }
    }

    /** Hand one document over and record the outcome. */
    method TransferOne(id: nat, reply: UploadReply, now: int)
      requires id < |documents|
      modifies this`documents, this`disk
      ensures documents == old(documents)[id :=
        TransferredRow(old(documents)[id], OnDisk(old(disk), old(documents)[id]), reply, now)]
      ensures disk == old(disk) - if reply.UploadedAs? then FileOf(old(documents)[id]) else {}
      ensures Delivery(old(documents)[id], documents[id], old(View()).disk, reply, now)
    {
      var row := documents[id];
      documents := documents[id := row.(status := Transferring)];
      var available := row.storageKey.Some? && row.storageKey.value != "" && row.storageKey.value in disk;
      if !available || reply.UploadError? {
        var retryCount := row.retryCount + 1;
        documents := documents[id := row.(
          status := if retryCount < MAX_RETRIES then RetryRequired else TransferFailed,
          retryCount := retryCount,
          lastError := Some(if available then reply.code else "DOCUMENT_DOWNLOAD_NOT_AVAILABLE"),
          uploads := if available then row.uploads + 1 else row.uploads)];
        return;
      }
      var deleted := SafeUnlink(row.storageKey);
      documents := documents[id := row.(
        status := Sent, fileId := Some(reply.fileId), transferredAt := Some(now),
        localDeletedAt := if deleted then Some(now) else row.localDeletedAt, lastError := None,
        uploads := row.uploads + 1)];
    }

    method ProcessDocumentTransferQueue(limit: nat, replies: map<nat, UploadReply>, now: int) returns (processed: nat)
      requires Inv(View())
      requires forall i | InBatch(View(), limit, i) :: i in replies
      modifies this`documents, this`disk
      ensures View() == Transfer(old(View()), limit, replies, now)
      ensures processed == if EligibleBefore(old(View()), |old(documents)|) <= limit
                           then EligibleBefore(old(View()), |old(documents)|) else limit
      ensures |documents| == |old(documents)|
      ensures forall i: nat | i < |documents| && InBatch(old(View()), limit, i) ::
                HandedOver(old(documents)[i], documents[i], disk, replies[i], now)
    {
      QueueOutcomes(View(), limit, replies, now);
      var ids := SelectQueue(limit);
      assert StorageGood(applications, documents, disk);
      hide Inv, StorageGood, Transfer, EligibleBefore, Eligible, HandedOver;
      TransferAll(ids, limit, replies, now);
      processed := |ids|;
    }

    method TransferAll(ids: seq<nat>, limit: nat, replies: map<nat, UploadReply>, now: int)
      requires StorageGood(applications, documents, disk)
      requires forall i | InBatch(View(), limit, i) :: i in replies
      requires forall i | 0 <= i < |ids| :: ids[i] < |documents|
      requires forall i, j | 0 <= i < j < |ids| :: ids[i] < ids[j]
      requires forall i: nat :: i in ids <==> InBatch(View(), limit, i)
      modifies this`documents, this`disk
      ensures View() == Transfer(old(View()), limit, replies, now)
    {
      ghost var s := View();
      ghost var t := Transfer(s, limit, replies, now);
      ghost var done: set<nat>, gone: set<nat> := {}, {};
      TransferStarts(s, limit, replies, now);
      hide StorageGood, InBatch, Transfer, TransferredRow, OnDisk, FileOf, Midway, View, Delivery;
      for k := 0 to |ids|
        invariant |documents| == |s.documents|
        invariant forall i :: i in done <==> i in ids[..k]
        invariant forall i :: i in gone <==> i in done && i in replies && replies[i].UploadedAs?
        invariant Midway(s, t, done, gone, documents, disk)
      {
        var id := ids[k];
        assert id in ids && InBatch(s, limit, id) && id !in done;
        NextDocument(s, t, done, gone, documents, disk, id);
        OneMoreDocument(s, t, done, gone, documents, disk, id, replies[id].UploadedAs?);
        TransferOne(id, replies[id], now);
        done := done + {id};
        gone := if replies[id].UploadedAs? then gone + {id} else gone;
      }
      assert done == Batch(s, limit) && gone == SentBatch(s, limit, replies);
      TransferFinished(s, limit, replies, now, documents, disk);
      SameView(s);
    }

    // -------------------------------------------------------------------
    // Cleanup
    // -------------------------------------------------------------------

    method SelectCleanable(now: int) returns (ids: seq<nat>)
      ensures forall i, j | 0 <= i < j < |ids| :: ids[i] < ids[j]
      ensures forall i: nat :: i in ids <==> i in CleanableRows(View(), now)
    {
      ids := [];
      hide Cleanable;
      for i := 0 to |documents|
        invariant forall k | 0 <= k < |ids| :: ids[k] < i
        invariant forall k, l | 0 <= k < l < |ids| :: ids[k] < ids[l]
        invariant forall k: nat :: k in ids <==> k < i && Cleanable(documents[k], now)
      {
        if Cleanable(documents[i], now) {
          ids := ids + [i];
        }
      }
    }

    method CleanOne(id: nat, now: int)
      requires id < |documents|
      modifies this`documents, this`disk
      ensures documents == old(documents)[id := CleanedRow(old(documents)[id], old(disk), now)]
      ensures disk == old(disk) - FileOf(old(documents)[id])
    {
      var row := documents[id];
      var deleted := SafeUnlink(row.storageKey);
      var newStatus := if row.status == Sent then Sent else ExpiredDocument;
      documents := documents[id := row.(
        status := newStatus,
        localDeletedAt := if deleted || newStatus == ExpiredDocument then Some(now) else row.localDeletedAt,
        lastError := if newStatus == ExpiredDocument then Some("DOCUMENT_TEMPORARY_FILE_EXPIRED") else row.lastError)];
    }

    method CleanupTemporaryDocuments(now: int) returns (cleaned: nat)
      requires Inv(View())
      modifies this`documents, this`disk
      ensures View() == Cleanup(old(View()), now)
      ensures cleaned == |CleanableRows(old(View()), now)|
    {
      var ids := SelectCleanable(now);
      assert StorageGood(applications, documents, disk);
      hide Inv, StorageGood, Cleanup, CleanableRows;
      CleanAll(ids, now);
      cleaned := |ids|;
    }

    method CleanAll(ids: seq<nat>, now: int)
      requires StorageGood(applications, documents, disk)
      requires forall i, j | 0 <= i < j < |ids| :: ids[i] < ids[j]
      requires forall i: nat :: i in ids <==> i in CleanableRows(View(), now)
      modifies this`documents, this`disk
      ensures View() == Cleanup(old(View()), now)
      ensures |ids| == |CleanableRows(old(View()), now)|
    {
      ghost var s := View();
      ghost var t := Cleanup(s, now);
      CleanupStarts(s, now);
      CleanedSameFile(s, now);
      ghost var done: set<nat> := {};
      assert View() == s.(documents := documents, disk := disk);
      hide StorageGood, Cleanup, CleanedRow, OnDisk, FileOf, Midway, CleanableRows, View;
      for k := 0 to |ids|
        invariant |documents| == |s.documents|
        invariant forall i :: i in done <==> i in ids[..k]
        invariant |done| == k
        invariant Midway(s, t, done, done, documents, disk)
      {
        var id := ids[k];
        assert id in ids && id !in done;
        NextDocument(s, t, done, done, documents, disk, id);
        OneMoreDocument(s, t, done, done, documents, disk, id, true);
        CleanOne(id, now);
        done := done + {id};
      }
      assert done == CleanableRows(s, now);
      CleanupFinished(s, now, documents, disk);
      SameView(s);
    }

    lemma SameView(s: Store)
      requires applications == s.applications && attempts == s.attempts && policies == s.policies && deals == s.deals
      ensures View() == s.(documents := documents, disk := disk)
    {
    }

    // -------------------------------------------------------------------
    // Reverse sync
    // -------------------------------------------------------------------

    function DocumentsWithFile(app: int, fileId: string): (found: set<nat>)
      reads this
    {
      set i: nat | i < |documents| && documents[i].applicationId == app && documents[i].fileId == Some(fileId)
    }

    function PoliciesOf(app: int, deal: Option<int>): (found: set<nat>)
      reads this
    {
      set p: nat | p < |policies| && policies[p].applicationId == app && policies[p].dealId == deal
    }

    method UpsertPolicyDocument(app: int, fileId: string, now: int) returns (id: nat)
      requires app in applications && StorageGood(applications, documents, disk)
      modifies this`documents, this`disk
      ensures View() == UpsertDocument(old(View()), app, fileId, now)
      ensures id == var found := FindDocument(old(documents), app, fileId);
                    if found.Some? then found.value else |old(documents)|
    {
      var found := DocumentsWithFile(app, fileId);
      SingleDocument(applications, documents, disk, app, fileId);
      hide StorageGood, FindDocument;
      if |found| > 0 {
        id := Pick(found);
        var unlinked := SafeUnlink(documents[id].storageKey);
        var row := documents[id];
        documents := documents[id := row.(
          documentType := "policy_file", isPolicyFile := true, storageKey := None, status := Sent,
          dealId := applications[app].dealId,
          localDeletedAt := if row.storageKey.Some? && row.storageKey.value != "" then Some(now)
              else row.localDeletedAt)];
      } else {
        id := |documents|;
        documents := documents + [Document(app, "policy_file", true, None, Sent, Some(fileId), applications[app].dealId,
                                           Some(now), None, None, 0, None, 0)];
      }
    }

    method UpsertPolicyCache(app: int, data: PolicyData, documentId: nat, now: int)
      requires app in applications && PoliciesGood(applications, documents, policies)
      modifies this`policies
      ensures View() == UpsertPolicy(old(View()), app, data, documentId, now)
      ensures exists p: nat | p < |policies| ::
                && policies[p] == Policy(app, applications[app].dealId, data, documentId, now)
                && |policies| == (if p < |old(policies)| then |old(policies)| else |old(policies)| + 1)
                && forall q | 0 <= q < |old(policies)| && q != p :: policies[q] == old(policies)[q]
    {
      var deal := applications[app].dealId;
      var found := PoliciesOf(app, deal);
      SinglePolicy(applications, documents, policies, app, deal);
      hide PoliciesGood, FindPolicy;
      if |found| > 0 {
        var p := Pick(found);
        policies := policies[p := Policy(app, deal, data, documentId, now)];
        assert policies[p] == Policy(app, deal, data, documentId, now);
      } else {
        policies := policies + [Policy(app, deal, data, documentId, now)];
        assert policies[|old(policies)|] == Policy(app, deal, data, documentId, now);
      }
    }

    method SyncPolicyFromDeal(app: int, fields: PolicyFields, now: int) returns (warning: Option<string>)
      requires app in applications && Inv(View())
      modifies this`documents, this`policies, this`disk
      ensures warning == if PolicyPayload(old(applications)[app], fields).Some? then None else Some(INCOMPLETE)
      ensures View() == var payload := PolicyPayload(old(applications)[app], fields);
                        if payload.Some? then SyncPolicy(old(View()), app, payload.value, now) else old(View())
    {
      hide PolicyPayload;
      var payload := PolicyPayload(applications[app], fields);
      if payload.None? { return Some(INCOMPLETE); }
      UpsertDocumentKeeps(View(), app, payload.value.fileId, now);
      hide StorageGood, PoliciesGood, HistoryGood, RemoteGood, UpsertDocument, UpsertPolicy, FindDocument;
      var documentId := UpsertPolicyDocument(app, payload.value.fileId, now);
      UpsertPolicyCache(app, payload.value, documentId, now);
      warning := None;
    }

    method SyncApplication(app: int, reply: DealReply, stages: StageMap, now: int) returns (outcome: SyncOutcome)
      requires Inv(View())
      modifies this
      ensures outcome == SyncResult(old(View()), app, reply, stages)
      ensures View() == Sync(old(View()), app, reply, stages, now)
      ensures outcome.Updated? ==>
                && app in applications && applications[app].status == outcome.status
                && applications[app].syncWarning == outcome.warning
      ensures outcome.Updated? && outcome.status == PolicyIssued ==>
                reply.DealResult? && StoresDeal(old(View()), View(), app, reply.deal.policy, now)
    {
      if reply.DealResult? { IssuedStoresPolicy(View(), app, reply.deal, stages, now); }
      if app !in applications || applications[app].dealId.None? { return Skipped; }
      if applications[app].dealId.value == 0 { return Skipped; }
      var row := applications[app];
      match reply
      case DealError(code, retryable) =>
        applications := applications[app := row.(
          syncStatus := if retryable then SyncRetryRequired else SyncFailed,
          syncError := Some(code), lastSyncedAt := Some(now))];
        return Failed(code);
      case DealResult(deal) =>
        hide Inv, PolicyPayload, SyncPolicy;
        var category := SyncCategory(row, deal);
        var status := if deal.stageId != "" && (category, deal.stageId) in stages
                      then stages[(category, deal.stageId)] else row.status;
        var warning: Option<string> := None;
        ghost var s := View();
        if status == PolicyIssued {
          warning := SyncPolicyFromDeal(app, deal.policy, now);
          if warning.Some? { status := PolicyIssuing; }
        }
        applications := applications[app := row.(
          status := status, categoryId := Some(category),
          stageId := if deal.stageId != "" then Some(deal.stageId) else row.stageId,
          syncStatus := Synced, syncError := None, syncWarning := warning, lastSyncedAt := Some(now))];
        outcome := Updated(status, warning);
    }

    function ActiveForSync(): (found: set<int>)
      reads this
      ensures forall a :: a in found <==>
                a in applications && applications[a].dealId.Some?
                && applications[a].status in {Received, SentToWork, InWork, DocumentsExpected, PaymentExpected,
                                              InsurerReview, PolicyIssuing, PolicyIssued, SubmitError}
    {
      set a | a in applications && applications[a].dealId.Some? && applications[a].status.ActiveSync()
    }

    method FirstForSync(rest: set<int>, updatedAt: map<int, int>) returns (app: int)
      requires rest != {} && rest <= updatedAt.Keys
      ensures app in rest && forall a | a in rest && a != app :: UpdatedBefore(updatedAt, app, a)
    {
      app := Pick(rest);
      var others := rest - {app};
      while |others| > 0
        invariant others <= rest && app in rest && app !in others
        invariant forall a | a in rest - others && a != app :: UpdatedBefore(updatedAt, app, a)
      {
        var a := Pick(others);
        others := others - {a};
        if UpdatedBefore(updatedAt, a, app) {
          forall b | b in rest - others && b != app && b != a ensures UpdatedBefore(updatedAt, a, b) {
            assert UpdatedBefore(updatedAt, app, b);
          }
          app := a;
        }
      }
    }

    /** The active applications that have waited longest, up to the limit, in the order of their last update. */
    method SelectForSync(limit: nat, updatedAt: map<int, int>) returns (ids: seq<int>)
      requires ActiveForSync() <= updatedAt.Keys
      ensures forall i | 0 <= i < |ids| :: ids[i] in ActiveForSync()
      ensures forall i, j | 0 <= i < j < |ids| :: UpdatedBefore(updatedAt, ids[i], ids[j])
      ensures |ids| == if |ActiveForSync()| <= limit then |ActiveForSync()| else limit
      ensures forall i, a | 0 <= i < |ids| && a in ActiveForSync() && a !in ids :: UpdatedBefore(updatedAt, ids[i], a)
    {
      ids := [];
      var active := ActiveForSync();
      var rest := active;
      hide UpdatedBefore;
      while |ids| < limit && |rest| > 0
        invariant rest <= active && |ids| + |rest| == |active| && |ids| <= limit
        invariant forall i | 0 <= i < |ids| :: ids[i] in active && ids[i] !in rest
        invariant forall a | a in active :: a in rest || a in ids
        invariant forall i, a | 0 <= i < |ids| && a in rest :: UpdatedBefore(updatedAt, ids[i], a)
        invariant forall i, j | 0 <= i < j < |ids| :: UpdatedBefore(updatedAt, ids[i], ids[j])
        decreases |rest|
      {
        var a := FirstForSync(rest, updatedAt);
        ids := ids + [a];
        rest := rest - {a};
      }
    }

    /** Other transactions that commit in between, as far as they are possible. */
    method Others(turn: seq<TimedStep>) returns (ghost run: seq<TimedStep>)
      requires Inv(View())
      modifies this
      ensures Inv(View()) && EnabledRun(old(View()), run) && View() == Run(old(View()), run)
      ensures forall a | SelectedForSync(old(View()), a) :: SelectedForSync(View(), a)
      ensures turn == [] ==> run == []
    {
      ghost var s := View();
      run := [];
      RunNothing(s);
      hide Inv, Apply, Enabled, Run, EnabledRun, SelectedForSync;
      for k := 0 to |turn|
        invariant Inv(View()) && EnabledRun(s, run) && View() == Run(s, run)
        invariant forall a | SelectedForSync(s, a) :: SelectedForSync(View(), a)
        invariant k == 0 ==> run == []
      {
        var step, now := turn[k].step, turn[k].now;
        if Enabled(View(), step) {
          ghost var before := View();
          ApplyKeepsInv(before, step, now);
          StepKeepsSelection(before, step, now);
          RunAppend(s, run, At(now, step));
          var t := Apply(View(), step, now);
          applications, documents, attempts := t.applications, t.documents, t.attempts;
          policies, disk, deals := t.policies, t.disk, t.deals;
          run := run + [At(now, step)];
        }
      }
    }

    /**
      One pass over the active applications, each synchronised in a transaction of its own, with
      other transactions in between.  The whole is a run of steps, among them one sync for each
      application selected, in order.  Every application selected has a deal and keeps it, so none is
      skipped.
     */
    method SyncActiveApplications(
      limit: nat, updatedAt: map<int, int>, answers: map<int, DealAnswer>, stages: StageMap,
          script: seq<seq<TimedStep>>)
      returns (summary: SyncSummary, ghost ids: seq<int>, ghost turns: seq<seq<TimedStep>>)
      requires Inv(View()) && Submitting !in stages.Values
      requires ActiveForSync() <= answers.Keys && ActiveForSync() <= updatedAt.Keys
      modifies this
      ensures forall i | 0 <= i < |ids| :: ids[i] in old(ActiveForSync()) && ids[i] in answers
      ensures forall i, j | 0 <= i < j < |ids| :: UpdatedBefore(updatedAt, ids[i], ids[j])
      ensures |ids| == if |old(ActiveForSync())| <= limit then |old(ActiveForSync())| else limit
      ensures forall i, a | 0 <= i < |ids| && a in old(ActiveForSync()) && a !in ids ::
          UpdatedBefore(updatedAt, ids[i], a)
      ensures |turns| == |ids| && EnabledRun(old(View()), Woven(turns, ids, answers, stages))
      ensures View() == Run(old(View()), Woven(turns, ids, answers, stages)) && Inv(View())
      ensures script == [] ==> Woven(turns, ids, answers, stages) == SyncRun(ids, answers, stages)
      ensures summary.processed == |ids| == summary.updated + summary.failed
      ensures summary.failed == FailedAnswers(ids, answers) && summary.skipped == 0
    {
      var selected := SelectForSync(limit, updatedAt);
      ids := selected;
      hide Inv, Run, EnabledRun, UpdatedBefore;
      summary, turns := SyncEach(selected, answers, stages, script);
      if script == [] { WovenAlone(turns, ids, answers, stages); }
    }

    method SyncEach(ids: seq<int>, answers: map<int, DealAnswer>, stages: StageMap, script: seq<seq<TimedStep>>)
      returns (summary: SyncSummary, ghost turns: seq<seq<TimedStep>>)
      requires Inv(View()) && Submitting !in stages.Values
      requires forall k | 0 <= k < |ids| :: ids[k] in answers && SelectedForSync(View(), ids[k])
      modifies this
      ensures |turns| == |ids| && EnabledRun(old(View()), Woven(turns, ids, answers, stages))
      ensures View() == Run(old(View()), Woven(turns, ids, answers, stages)) && Inv(View())
      ensures script == [] ==> forall k | 0 <= k < |turns| :: turns[k] == []
      ensures summary.processed == |ids| == summary.updated + summary.failed
      ensures summary.failed == FailedAnswers(ids, answers) && summary.skipped == 0
    {
      ghost var s := View();
      var processed, updated, failed, skipped := 0, 0, 0, 0;
      turns := [];
      RunNothing(s);
      hide Inv, Sync, View, Run, EnabledRun, SelectedForSync, StoresDeal;
      for k := 0 to |ids|
        invariant Inv(View()) && |turns| == k
        invariant EnabledRun(s, Woven(turns, ids[..k], answers, stages))
        invariant View() == Run(s, Woven(turns, ids[..k], answers, stages))
        invariant forall j | 0 <= j < |ids| :: SelectedForSync(View(), ids[j])
        invariant script == [] ==> forall j | 0 <= j < k :: turns[j] == []
        invariant processed == k == updated + failed && failed == FailedAnswers(ids[..k], answers) && skipped == 0
      {
        assert ids[..k + 1][..k] == ids[..k];
        var app, answer := ids[k], answers[ids[k]];
        ghost var turn := Others(if k < |script| then script[k] else []);
        ghost var t := View();
        SyncStays(t, app, answer, stages);
        WovenExtends(s, turns, turn, ids[..k + 1], answers, stages);
        turns := turns + [turn];
        forall j | 0 <= j < |ids| ensures SelectedForSync(Sync(t, app, answer.reply, stages, answer.at), ids[j]) {
          SelectionStays(t, app, answer, stages, ids[j]);
        }
        var result := SyncApplication(app, answer.reply, stages, answer.at);
        processed := processed + 1;
        updated := updated + if result.Updated? then 1 else 0;
        failed := failed + if result.Failed? then 1 else 0;
        skipped := skipped + if result.Skipped? then 1 else 0;
      }
      assert ids[..|ids|] == ids;
      summary := SyncSummary(processed, updated, failed, skipped);
    }
  }

  // ---------------------------------------------------------------------
  // A pass of reverse sync
  // ---------------------------------------------------------------------

  datatype SyncSummary = SyncSummary(processed: nat, updated: nat, failed: nat, skipped: nat)

  /** What the remote says about one application's deal, and when. */
  datatype DealAnswer = DealAnswer(reply: DealReply, at: int)

  function SyncRun(ids: seq<int>, answers: map<int, DealAnswer>, stages: StageMap): seq<TimedStep>
    requires forall k | 0 <= k < |ids| :: ids[k] in answers
  {
    if ids == [] then []
    else
      var last := ids[|ids| - 1];
      SyncRun(ids[..|ids| - 1], answers, stages) + [At(answers[last].at, SyncStep(last, answers[last].reply, stages))]
  }

  function FailedAnswers(ids: seq<int>, answers: map<int, DealAnswer>): nat
    requires forall k | 0 <= k < |ids| :: ids[k] in answers
  {
    if ids == [] then 0
    else FailedAnswers(ids[..|ids| - 1], answers) + if answers[ids[|ids| - 1]].reply.DealError? then 1 else 0
  }

  /** The selection a pass starts from, apart from the status, which earlier syncs in the pass do not revisit. */
  predicate SelectedForSync(s: Store, app: int) {
    app in s.applications && s.applications[app].dealId.Some?
  }

  /** The order of the selection: by last update, then by id. */
  predicate UpdatedBefore(updatedAt: map<int, int>, a: int, b: int) {
    a in updatedAt && b in updatedAt
    && (updatedAt[a] < updatedAt[b] || (updatedAt[a] == updatedAt[b] && a < b))
  }

  /** The order is total: the earlier update comes first, and of two at one moment the smaller id. */
  lemma LongestWaitingFirst(updatedAt: map<int, int>, a: int, b: int)
    requires a in updatedAt && b in updatedAt
    ensures updatedAt[a] < updatedAt[b] ==> UpdatedBefore(updatedAt, a, b)
    ensures updatedAt[a] == updatedAt[b] ==> (UpdatedBefore(updatedAt, a, b) <==> a < b)
    ensures UpdatedBefore(updatedAt, a, b) ==> !UpdatedBefore(updatedAt, b, a)
  {
  }

  /** A pass with what others did before each of its syncs. */
  function Woven(turns: seq<seq<TimedStep>>, ids: seq<int>, answers: map<int, DealAnswer>,
      stages: StageMap): seq<TimedStep>
    requires |turns| == |ids| && forall k | 0 <= k < |ids| :: ids[k] in answers
  {
    if ids == [] then []
    else
      var n := |ids| - 1;
      Woven(turns[..n], ids[..n], answers, stages) + turns[n] + SyncRun(ids[n..], answers, stages)
  }

  lemma {:induction false} WovenAlone(
    turns: seq<seq<TimedStep>>, ids: seq<int>, answers: map<int, DealAnswer>, stages: StageMap)
    requires |turns| == |ids| && forall k | 0 <= k < |ids| :: ids[k] in answers
    requires forall k | 0 <= k < |turns| :: turns[k] == []
    ensures Woven(turns, ids, answers, stages) == SyncRun(ids, answers, stages)
  {
    if ids != [] {
      var n := |ids| - 1;
      WovenAlone(turns[..n], ids[..n], answers, stages);
      OneSync(ids[n..], answers, stages);
    }
  }

  lemma OneSync(ids: seq<int>, answers: map<int, DealAnswer>, stages: StageMap)
    requires |ids| == 1 && ids[0] in answers
    ensures SyncRun(ids, answers, stages) == [At(answers[ids[0]].at, SyncStep(ids[0], answers[ids[0]].reply, stages))]
  {
    assert ids[..0] == [];
  }

  lemma WovenExtends(
    s: Store, turns: seq<seq<TimedStep>>, turn: seq<TimedStep>, ids: seq<int>, answers: map<int, DealAnswer>,
    stages: StageMap)
    requires |ids| == |turns| + 1 && (forall k | 0 <= k < |ids| :: ids[k] in answers) && Submitting !in stages.Values
    requires EnabledRun(s, Woven(turns, ids[..|turns|], answers, stages))
    requires EnabledRun(Run(s, Woven(turns, ids[..|turns|], answers, stages)), turn)
    ensures var last := ids[|turns|];
            var t := Run(Run(s, Woven(turns, ids[..|turns|], answers, stages)), turn);
            EnabledRun(s, Woven(turns + [turn], ids, answers, stages))
            && Run(s, Woven(turns + [turn], ids, answers, stages))
               == Sync(t, last, answers[last].reply, stages, answers[last].at)
  {
    hide Sync, EnabledRun, Run;
    var n, last := |turns|, ids[|turns|];
    var done := Woven(turns, ids[..n], answers, stages);
    assert (turns + [turn])[..n] == turns;
    OneSync(ids[n..], answers, stages);
    RunConcat(s, done, turn);
    RunAppend(s, done + turn, At(answers[last].at, SyncStep(last, answers[last].reply, stages)));
  }

  lemma RunNothing(s: Store)
    ensures EnabledRun(s, []) && Run(s, []) == s
  {
  }

  lemma {:induction false} RunConcat(s: Store, run: seq<TimedStep>, more: seq<TimedStep>)
    requires EnabledRun(s, run) && EnabledRun(Run(s, run), more)
    ensures EnabledRun(s, run + more) && Run(s, run + more) == Run(Run(s, run), more)
    decreases |run|
  {
    hide Apply, Enabled;
    if run == [] {
      assert run + more == more;
    } else {
      assert (run + more)[1..] == run[1..] + more;
      RunConcat(Apply(s, run[0].step, run[0].now), run[1..], more);
    }
  }

  /** A deal id once recorded stays, whatever others do. */
  lemma StepKeepsSelection(s: Store, step: Step, now: int)
    requires Inv(s) && Enabled(s, step)
    ensures forall a | SelectedForSync(s, a) :: SelectedForSync(Apply(s, step, now), a)
  {
    forall a | SelectedForSync(s, a) ensures SelectedForSync(Apply(s, step, now), a) {
      hide Inv, Apply, Enabled;
      ApplyKeepsDealId(s, step, now, a);
    }
  }

  lemma RunAppend(s: Store, run: seq<TimedStep>, last: TimedStep)
    requires EnabledRun(s, run) && Enabled(Run(s, run), last.step)
    ensures EnabledRun(s, run + [last]) && Run(s, run + [last]) == Apply(Run(s, run), last.step, last.now)
  {
    hide Apply, Enabled;
    var t := Run(s, run);
    assert [last][1..] == [];
    assert EnabledRun(t, [last]) && Run(t, [last]) == Apply(t, last.step, last.now);
    RunConcat(s, run, [last]);
  }

  lemma SyncRunExtends(s: Store, t: Store, ids: seq<int>, answers: map<int, DealAnswer>, stages: StageMap)
    requires ids != [] && forall k | 0 <= k < |ids| :: ids[k] in answers
    requires Submitting !in stages.Values
    requires EnabledRun(s, SyncRun(ids[..|ids| - 1], answers, stages))
    requires t == Run(s, SyncRun(ids[..|ids| - 1], answers, stages))
    ensures var last := ids[|ids| - 1];
            EnabledRun(s, SyncRun(ids, answers, stages))
            && Run(s, SyncRun(ids, answers, stages)) == Sync(t, last, answers[last].reply, stages, answers[last].at)
  {
    hide Sync, EnabledRun, Run;
    var last := ids[|ids| - 1];
    RunAppend(s, SyncRun(ids[..|ids| - 1], answers, stages),
              At(answers[last].at, SyncStep(last, answers[last].reply, stages)));
  }

  lemma SyncStays(t: Store, app: int, answer: DealAnswer, stages: StageMap)
    requires Inv(t) && Submitting !in stages.Values && SelectedForSync(t, app)
    ensures Inv(Sync(t, app, answer.reply, stages, answer.at))
    ensures !SyncResult(t, app, answer.reply, stages).Skipped?
    ensures SyncResult(t, app, answer.reply, stages).Failed? <==> answer.reply.DealError?
  {
    DealIdPresent(t, app);
    hide Inv, Sync, SyncVerdict;
    SyncKeepsInv(t, app, answer.reply, stages, answer.at);
  }

  lemma SelectionStays(t: Store, app: int, answer: DealAnswer, stages: StageMap, other: int)
    requires SelectedForSync(t, other)
    ensures SelectedForSync(Sync(t, app, answer.reply, stages, answer.at), other)
  {
    hide SyncPolicy, PolicyPayload, MappedStatus, SyncVerdict;
  }

  /** What one application's row becomes, whatever else the pass touches. */
  function SyncRow(row: Application, answer: DealAnswer, stages: StageMap): Application {
    match answer.reply
    case DealError(code, retryable) =>
      row.(syncStatus := if retryable then SyncRetryRequired else SyncFailed,
           syncError := Some(code), lastSyncedAt := Some(answer.at))
    case DealResult(deal) => SyncedRow(row, deal, stages, answer.at)
  }

  lemma SyncOneRow(t: Store, app: int, answer: DealAnswer, stages: StageMap, a: int)
    requires Inv(t) && SelectedForSync(t, app)
    ensures Sync(t, app, answer.reply, stages, answer.at).applications
            == t.applications[app := SyncRow(t.applications[app], answer, stages)]
  {
    DealIdPresent(t, app);
    hide Inv, SyncPolicy, PolicyPayload, SyncedRow;
  }

  /**
    A pass brings each selected row up to date with its own deal and leaves every other row alone:
    synchronising one application never depends on another.
   */
  lemma {:induction false} PassIsRowByRow(s: Store, ids: seq<int>, answers: map<int, DealAnswer>, stages: StageMap,
      a: int)
    requires Inv(s) && Submitting !in stages.Values && a in s.applications
    requires forall i, j | 0 <= i < j < |ids| :: ids[i] != ids[j]
    requires forall k | 0 <= k < |ids| :: ids[k] in answers && SelectedForSync(s, ids[k])
    ensures EnabledRun(s, SyncRun(ids, answers, stages))
    ensures var t := Run(s, SyncRun(ids, answers, stages));
            && Inv(t) && t.applications.Keys == s.applications.Keys
            && t.applications[a] == if a in ids then SyncRow(s.applications[a], answers[a], stages)
                  else s.applications[a]
  {
    hide Inv, Sync, SyncRow, Run, EnabledRun;
    if ids == [] {
      RunNothing(s);
    } else {
      var front, last := ids[..|ids| - 1], ids[|ids| - 1];
      assert ids == front + [last];
      PassIsRowByRow(s, front, answers, stages, a);
      PassIsRowByRow(s, front, answers, stages, last);
      var t := Run(s, SyncRun(front, answers, stages));
      SyncRunExtends(s, t, ids, answers, stages);
      RunKeepsDealOf(s, front, answers, stages, last);
      SyncOneRow(t, last, answers[last], stages, a);
      SyncStays(t, last, answers[last], stages);
    }
  }

  lemma RunKeepsDealOf(s: Store, ids: seq<int>, answers: map<int, DealAnswer>, stages: StageMap, app: int)
    requires Inv(s) && Submitting !in stages.Values && SelectedForSync(s, app)
    requires forall k | 0 <= k < |ids| :: ids[k] in answers && SelectedForSync(s, ids[k])
    requires EnabledRun(s, SyncRun(ids, answers, stages))
    ensures SelectedForSync(Run(s, SyncRun(ids, answers, stages)), app)
  {
    var run := SyncRun(ids, answers, stages);
    SyncRunSteps(ids, answers, stages);
    SelectionStaysThroughRun(s, run, app);
  }

  predicate IsSync(step: Step) { step.SyncStep? }

  lemma {:induction false} SyncRunSteps(ids: seq<int>, answers: map<int, DealAnswer>, stages: StageMap)
    requires forall k | 0 <= k < |ids| :: ids[k] in answers
    ensures forall k | 0 <= k < |SyncRun(ids, answers, stages)| :: IsSync(SyncRun(ids, answers, stages)[k].step)
  {
    if ids != [] { SyncRunSteps(ids[..|ids| - 1], answers, stages); }
  }

  lemma {:induction false} SelectionStaysThroughRun(s: Store, run: seq<TimedStep>, app: int)
    requires SelectedForSync(s, app) && EnabledRun(s, run) && forall k | 0 <= k < |run| :: IsSync(run[k].step)
    ensures SelectedForSync(Run(s, run), app)
    decreases |run|
  {
    if run != [] {
      assert IsSync(run[0].step);
      hide Sync, SelectedForSync;
      var step := run[0].step;
      SelectionStays(s, step.app, DealAnswer(step.reply, run[0].now), step.stages, app);
      SelectionStaysThroughRun(Apply(s, step, run[0].now), run[1..], app);
    }
  }

  /** The lookup of a policy file by its remote id never finds two rows. */
  lemma SingleDocument(apps: Applications, docs: seq<Document>, disk: set<string>, app: int, fileId: string)
    requires StorageGood(apps, docs, disk)
    ensures var rows := set i: nat | i < |docs| && docs[i].applicationId == app && docs[i].fileId == Some(fileId);
            var found := FindDocument(docs, app, fileId);
            && rows == (if found.Some? then {found.value} else {})
            && (found.Some? ==> found.value < |docs|)
  {
    FindDocumentSpec(docs, app, fileId);
    hide DocumentsGood, StorageKeysUnique, NoOrphans, FindDocument;
  }

  /** Nor does the lookup of an application's cached policy. */
  lemma SinglePolicy(apps: Applications, docs: seq<Document>, policies: seq<Policy>, app: int, deal: Option<int>)
    requires PoliciesGood(apps, docs, policies)
    ensures var rows := set p: nat | p < |policies| && policies[p].applicationId == app && policies[p].dealId == deal;
            var found := FindPolicy(policies, app, deal);
            && rows == (if found.Some? then {found.value} else {})
            && (found.Some? ==> found.value < |policies|)
  {
    FindPolicySpec(policies, app, deal);
    hide PolicyGood, FindPolicy;
  }

  /** What a cleaned row becomes depends on the disk only through its own file. */
  lemma CleanedSameFile(s: Store, now: int)
    ensures forall row: Document, disk: set<string> | OnDisk(disk, row) <==> OnDisk(s.disk, row) ::
              CleanedRow(row, disk, now) == CleanedRow(row, s.disk, now)
  {
  }

  /** An attempt in progress touches neither documents, policies, files nor deals. */
  lemma OpenedRest(s: Store, app: int, now: int)
    requires app in s.applications
    ensures Opened(s, app, now).deals == s.deals
  {
  }

  lemma AcceptedRest(s: Store, app: int, deal: int, error: string, category: Option<int>, now: int)
    requires app in s.applications
    ensures Accepted(s, app, deal, category, now).deals == s.deals && Refused(s, app, error, now).deals == s.deals
  {
  }

  lemma {:induction false} AttemptsKept(attempts: seq<Attempt>, k: nat, app: int)
    requires k <= |attempts| && AttemptsOf(attempts[..k], app) != []
    ensures AttemptsOf(attempts, app) != []
    decreases |attempts|
  {
    if k == |attempts| {
      assert attempts[..k] == attempts;
    } else {
      var front := attempts[..|attempts| - 1];
      assert front[..k] == attempts[..k];
      AttemptsKept(front, k, app);
    }
  }
}
