/**
  From a draft application to an issued policy: the tables, the temporary file store and the
  remote CRM, and what each committed transaction does to them.

  Rows of append-only tables are numbered in the order of their creation, so a table is a
  sequence and a row's id is its position.  The clock is read once per transaction.
 */
module PipelineTables {
  import opened Options

  datatype PortalStatus =
    | Draft | ReturnedForRevision | SubmitError | Submitting | Received | ApprovalPending | SentToWork
    | InWork | DocumentsExpected | PaymentExpected | InsurerReview | PolicyIssuing | PolicyIssued
    | OtherStatus(code: string)
  {
    predicate SubmitAllowed() { Draft? || ReturnedForRevision? || SubmitError? }

    predicate UploadAllowed() {
      || Draft? || ReturnedForRevision? || ApprovalPending? || SentToWork? || InWork?
      || DocumentsExpected? || PaymentExpected? || PolicyIssuing?
    }

    predicate DeleteAllowed() { Draft? || ReturnedForRevision? }

    predicate ActiveSync() {
      || Received? || SentToWork? || InWork? || DocumentsExpected? || PaymentExpected?
      || InsurerReview? || PolicyIssuing? || PolicyIssued? || SubmitError?
    }
  }

  datatype SyncStatus = SyncPending | Synced | SyncFailed | SyncRetryRequired

  datatype Application = Application(
    status: PortalStatus, dealId: Option<int>, categoryId: Option<int>, stageId: Option<string>,
    productType: Option<string>, submittedAt: Option<int>, lastSyncedAt: Option<int>,
    syncStatus: SyncStatus, syncError: Option<string>, syncWarning: Option<string>)

  datatype AttemptStatus = Started | Succeeded | AttemptFailed | AttemptRetryRequired

  datatype Attempt = Attempt(
    applicationId: int, no: int, status: AttemptStatus, dealId: Option<int>, errorCode: Option<string>, finished: bool)

  datatype TransferStatus =
    | Uploaded | Transferring | Sent | TransferFailed | RetryRequired | ExpiredDocument | Deleted
  {
    predicate Queued() { Uploaded? || RetryRequired? }
    predicate Expirable() { Uploaded? || TransferFailed? || RetryRequired? }
  }

  /** uploads is a history variable: how often the file has been handed to the uploader. */
  datatype Document = Document(
    applicationId: int, documentType: string, isPolicyFile: bool, storageKey: Option<string>,
    status: TransferStatus, fileId: Option<string>, dealId: Option<int>, transferredAt: Option<int>,
    localDeletedAt: Option<int>, expiresAt: Option<int>, retryCount: nat, lastError: Option<string>, uploads: nat)

  datatype PolicyData = PolicyData(
    number: string, product: string, insurer: string, validFrom: int, validTo: int,
    premium: real, currency: string, fileId: string)

  datatype Policy = Policy(applicationId: int, dealId: Option<int>, data: PolicyData, documentId: nat,
      lastSyncedAt: int)

  /** deals is the remote CRM: each deal carries the portal application it was created for. */
  datatype Store = Store(
    applications: map<int, Application>,
    documents: seq<Document>,
    attempts: seq<Attempt>,
    policies: seq<Policy>,
    disk: set<string>,
    deals: map<int, int>)

  // ---------------------------------------------------------------------
  // Submitting an application
  // ---------------------------------------------------------------------

  /** The remote's answers: a call may create deals and still report an error. */
  datatype LookupReply = LookupError(code: string) | LookupResult(found: Option<int>)
  datatype CreateReply = CreateError(code: string) | CreateResult(dealId: int)

  datatype Replies = Replies(lookup: LookupReply, create: CreateReply, created: set<int>)

  datatype SubmitOutcome =
    | NoSuchApplication | DuplicatePrevented(dealId: int) | SubmitInProgress | AlreadySubmitted
    | LookupFailed | FoundExisting(dealId: int) | CreateFailed | CreatedDeal(dealId: int)

  function AttemptsOf(attempts: seq<Attempt>, app: int): seq<Attempt> {
    if attempts == [] then []
    else
      var front := AttemptsOf(attempts[..|attempts| - 1], app);
      var last := attempts[|attempts| - 1];
      if last.applicationId == app then front + [last] else front
  }

  function HasDealId(row: Application): bool {
    row.dealId.Some? && row.dealId.value != 0
  }

  /** Whether this call would get as far as opening a new attempt. */
  predicate OpensAttempt(s: Store, app: int) {
    app in s.applications && !HasDealId(s.applications[app]) && s.applications[app].status.SubmitAllowed()
  }

  predicate FoundDeal(lookup: LookupReply) {
    lookup.LookupResult? && lookup.found.Some? && lookup.found.value != 0
  }

  /** Whether this call invokes create_deal. */
  predicate InvokesCreate(s: Store, app: int, r: Replies) {
    OpensAttempt(s, app)
    && (AttemptsOf(s.attempts, app) == [] || (r.lookup.LookupResult? && !FoundDeal(r.lookup)))
  }

  function SubmitResult(s: Store, app: int, r: Replies): SubmitOutcome {
    if app !in s.applications then NoSuchApplication
    else if HasDealId(s.applications[app]) then DuplicatePrevented(s.applications[app].dealId.value)
    else if s.applications[app].status == Submitting then SubmitInProgress
    else if !s.applications[app].status.SubmitAllowed() then AlreadySubmitted
    else if AttemptsOf(s.attempts, app) != [] && r.lookup.LookupError? then LookupFailed
    else if AttemptsOf(s.attempts, app) != [] && FoundDeal(r.lookup) then FoundExisting(r.lookup.found.value)
    else if r.create.CreateError? then CreateFailed
    else CreatedDeal(r.create.dealId)
  }

  /** Documents still in the queue take on the application's deal. */
  function WithDeal(documents: seq<Document>, app: int, deal: int): seq<Document> {
    seq(|documents|, i requires 0 <= i < |documents| =>
      if documents[i].applicationId == app && documents[i].status.Queued()
      then documents[i].(dealId := Some(deal)) else documents[i])
  }

  function ReceivedRow(row: Application, deal: int, category: Option<int>, now: int): Application {
    row.(dealId := Some(deal), status := Received, submittedAt := Some(now), lastSyncedAt := Some(now),
         categoryId := if category.Some? then category else row.categoryId)
  }

  function NewAttempt(s: Store, app: int, status: AttemptStatus, deal: Option<int>, error: Option<string>): Attempt {
    Attempt(app, |AttemptsOf(s.attempts, app)| + 1, status, deal, error, true)
  }

  /** The attempt succeeded: the application is received and its queued documents carry the deal. */
  function Accepted(s: Store, app: int, deal: int, category: Option<int>, now: int): Store
    requires app in s.applications
  {
    s.(applications := s.applications[app := ReceivedRow(s.applications[app], deal, category, now)],
       documents := WithDeal(s.documents, app, deal),
       attempts := s.attempts + [NewAttempt(s, app, Succeeded, Some(deal), None)])
  }

  /** The attempt failed and a later one has to look first. */
  function Refused(s: Store, app: int, error: string, now: int): Store
    requires app in s.applications
  {
    s.(applications := s.applications[app := s.applications[app].(status := SubmitError, lastSyncedAt := Some(now))],
       attempts := s.attempts + [NewAttempt(s, app, AttemptRetryRequired, None, Some(error))])
  }

  function WithCreated(deals: map<int, int>, created: set<int>, app: int): map<int, int> {
    deals + map d | d in created :: app
  }

  function Submit(s: Store, app: int, r: Replies, category: Option<int>, now: int): Store {
    match SubmitResult(s, app, r)
    case DuplicatePrevented(deal) => s.(documents := WithDeal(s.documents, app, deal))
    case LookupFailed => Refused(s, app, "BITRIX_DEAL_LOOKUP_FAILED", now)
    case FoundExisting(deal) => Accepted(s, app, deal, category, now)
    case CreateFailed =>
      Refused(s, app, "BITRIX_DEAL_CREATE_FAILED", now).(deals := WithCreated(s.deals, r.created, app))
    case CreatedDeal(deal) => Accepted(s, app, deal, category, now).(deals := WithCreated(s.deals, r.created, app))
    case _ => s
  }

  /** Remote deals held for an application. */
  function DealsFor(s: Store, app: int): set<int> {
    set d | d in s.deals && s.deals[d] == app
  }

  /**
    What the remote owes: a lookup that answers names the oldest deal if there is one, deal ids are
    positive and new, and a successful call returns a deal it created.
   */
  predicate Truthful(s: Store, app: int, r: Replies) {
    && (r.lookup.LookupResult? ==>
          if DealsFor(s, app) == {} then r.lookup.found.None?
          else r.lookup.found.Some? && r.lookup.found.value in DealsFor(s, app)
               && forall d | d in DealsFor(s, app) :: r.lookup.found.value <= d)
    && r.created !! s.deals.Keys
    && (forall d | d in r.created :: 0 < d)
    && (r.create.CreateResult? ==> r.create.dealId in r.created)
  }

  // ---------------------------------------------------------------------
  // Documents: upload and delete
  // ---------------------------------------------------------------------

  const MAX_DOCUMENTS := 10

  function LiveDocuments(documents: seq<Document>, app: int): nat {
    if documents == [] then 0
    else
      var last := documents[|documents| - 1];
      LiveDocuments(documents[..|documents| - 1], app)
      + if last.applicationId == app && !last.status.Deleted? && !last.status.ExpiredDocument? then 1 else 0
  }

  predicate MayUpload(s: Store, app: int) {
    app in s.applications && s.applications[app].status.UploadAllowed()
    && LiveDocuments(s.documents, app) < MAX_DOCUMENTS
  }

  function NewDocument(s: Store, app: int, documentType: string, key: string, expiresAt: int): Document
    requires app in s.applications
  {
    Document(app, documentType, false, Some(key), Uploaded, None, s.applications[app].dealId, None, None,
             Some(expiresAt), 0, None, 0)
  }

  function Upload(s: Store, app: int, documentType: string, key: string, expiresAt: int): Store {
    if MayUpload(s, app)
    then s.(documents := s.documents + [NewDocument(s, app, documentType, key, expiresAt)], disk := s.disk + {key})
    else s
  }

  /** Storage keys are random and never reused. */
  predicate FreshKey(s: Store, key: string) {
    key != "" && key !in s.disk && forall i | 0 <= i < |s.documents| :: s.documents[i].storageKey != Some(key)
  }

  function FileOf(row: Document): set<string> {
    if row.storageKey.Some? && row.storageKey.value != "" then {row.storageKey.value} else {}
  }

  predicate MayDelete(s: Store, app: int, id: nat) {
    && app in s.applications && s.applications[app].status.DeleteAllowed()
    && id < |s.documents| && s.documents[id].applicationId == app && s.documents[id].status != Sent
  }

  function Delete(s: Store, app: int, id: nat, now: int): Store {
    if MayDelete(s, app, id)
    then s.(documents := s.documents[id := s.documents[id].(status := Deleted, localDeletedAt := Some(now))],
            disk := s.disk - FileOf(s.documents[id]))
    else s
  }

  // ---------------------------------------------------------------------
  // Documents: the transfer queue
  // ---------------------------------------------------------------------

  const MAX_RETRIES := 3

  datatype UploadReply = UploadError(code: string) | UploadedAs(fileId: string)

  predicate Eligible(s: Store, i: nat) {
    && i < |s.documents|
    && s.documents[i].status.Queued() && s.documents[i].dealId.Some? && s.documents[i].localDeletedAt.None?
    && s.documents[i].applicationId in s.applications
    && s.applications[s.documents[i].applicationId].dealId == s.documents[i].dealId
  }

  /** How many eligible documents come before position n. */
  function EligibleBefore(s: Store, n: nat): nat {
    if n == 0 then 0 else EligibleBefore(s, n - 1) + if Eligible(s, n - 1) then 1 else 0
  }

  /** The oldest eligible documents, up to the limit. */
  predicate InBatch(s: Store, limit: nat, i: nat) {
    Eligible(s, i) && EligibleBefore(s, i) < limit
  }

  predicate OnDisk(disk: set<string>, row: Document) {
    FileOf(row) != {} && FileOf(row) <= disk
  }

  function TransferredRow(row: Document, onDisk: bool, reply: UploadReply, now: int): Document {
    if onDisk && reply.UploadedAs? then
      row.(status := Sent, fileId := Some(reply.fileId), transferredAt := Some(now), localDeletedAt := Some(now),
           lastError := None, uploads := row.uploads + 1)
    else
      row.(status := if row.retryCount + 1 < MAX_RETRIES then RetryRequired else TransferFailed,
           retryCount := row.retryCount + 1,
           lastError := Some(if onDisk then reply.code else "DOCUMENT_DOWNLOAD_NOT_AVAILABLE"),
           uploads := if onDisk then row.uploads + 1 else row.uploads)
  }

  /** One run of the queue, as a simultaneous step: replies[i] is what the uploader says to document i. */
  function Transfer(s: Store, limit: nat, replies: map<nat, UploadReply>, now: int): Store
    requires forall i | InBatch(s, limit, i) :: i in replies
  {
    s.(documents := seq(|s.documents|, i requires 0 <= i < |s.documents| &&
                                         (forall j | InBatch(s, limit, j) :: j in replies) =>
                      if InBatch(s, limit, i)
                      then TransferredRow(s.documents[i], OnDisk(s.disk, s.documents[i]), replies[i], now)
                      else s.documents[i]),
       disk := s.disk - SentFiles(s, limit, replies))
  }

  function SentFiles(s: Store, limit: nat, replies: map<nat, UploadReply>): set<string> {
    set i, k | i in replies && InBatch(s, limit, i) && replies[i].UploadedAs? && k in FileOf(s.documents[i]) :: k
  }

  /** The remote gives every upload a file id of its own. */
  predicate FreshFileIds(s: Store, limit: nat, replies: map<nat, UploadReply>) {
    forall i | i in replies && InBatch(s, limit, i) && replies[i].UploadedAs? ::
      && (forall j | 0 <= j < |s.documents| :: s.documents[j].fileId != Some(replies[i].fileId))
      && (forall j | j in replies && InBatch(s, limit, j) && replies[j] == replies[i] :: j == i)
  }

  // ---------------------------------------------------------------------
  // Documents: cleanup
  // ---------------------------------------------------------------------

  predicate Cleanable(row: Document, now: int) {
    row.localDeletedAt.None?
    && (row.status == Sent || (row.status.Expirable() && row.expiresAt.Some? && row.expiresAt.value < now))
  }

  function CleanedRow(row: Document, disk: set<string>, now: int): Document {
    if row.status == Sent
    then row.(localDeletedAt := if OnDisk(disk, row) then Some(now) else row.localDeletedAt)
    else row.(status := ExpiredDocument, localDeletedAt := Some(now),
        lastError := Some("DOCUMENT_TEMPORARY_FILE_EXPIRED"))
  }

  function CleanedFiles(s: Store, now: int): set<string> {
    set i, k | 0 <= i < |s.documents| && Cleanable(s.documents[i], now) && k in FileOf(s.documents[i]) :: k
  }

  function Cleanup(s: Store, now: int): Store {
    s.(documents := seq(|s.documents|, i requires 0 <= i < |s.documents| =>
                      if Cleanable(s.documents[i], now)
                      then CleanedRow(s.documents[i], s.disk, now) else s.documents[i]),
       disk := s.disk - CleanedFiles(s, now))
  }

  // ---------------------------------------------------------------------
  // Reverse sync
  // ---------------------------------------------------------------------

  /** The policy fields of a deal after parsing; None stands for any value that counts as missing. */
  datatype PolicyFields = PolicyFields(
    number: Option<string>, product: Option<string>, insurer: Option<string>, validFrom: Option<int>,
    validTo: Option<int>, premium: Option<real>, currency: Option<string>, fileId: Option<string>)

  /** categoryId is None when the deal's value is missing or falsy. */
  datatype Deal = Deal(stageId: string, categoryId: Option<int>, policy: PolicyFields)
  datatype DealReply = DealError(code: string, retryable: bool) | DealResult(deal: Deal)
  datatype SyncOutcome = Skipped | Failed(code: string) | Updated(status: PortalStatus, warning: Option<string>)

  type StageMap = map<(int, string), PortalStatus>

  function PolicyPayload(row: Application, f: PolicyFields): Option<PolicyData> {
    var product := if f.product.Some? then f.product else row.productType;
    if f.number.Some? && product.Some? && product.value != "" && f.insurer.Some? && f.validFrom.Some? && f.validTo.Some?
       && f.premium.Some? && f.currency.Some? && f.fileId.Some?
    then Some(PolicyData(f.number.value, product.value, f.insurer.value, f.validFrom.value, f.validTo.value,
                         f.premium.value, f.currency.value, f.fileId.value))
    else None
  }

  function SyncCategory(row: Application, deal: Deal): int {
    if deal.categoryId.Some? then deal.categoryId.value
    else if row.categoryId.Some? then row.categoryId.value else 0
  }

  predicate Mapped(row: Application, deal: Deal, stages: StageMap) {
    deal.stageId != "" && (SyncCategory(row, deal), deal.stageId) in stages
  }

  function MappedStatus(row: Application, deal: Deal, stages: StageMap): PortalStatus {
    if Mapped(row, deal, stages) then stages[(SyncCategory(row, deal), deal.stageId)] else row.status
  }

  /** The document of an application with a given remote file id; single-row by FileIdsUnique. */
  function FindDocument(documents: seq<Document>, app: int, fileId: string): Option<nat> {
    if documents == [] then None
    else if documents[|documents| - 1].applicationId == app && documents[|documents| - 1].fileId == Some(fileId)
    then Some(|documents| - 1)
    else FindDocument(documents[..|documents| - 1], app, fileId)
  }

  function FindPolicy(policies: seq<Policy>, app: int, deal: Option<int>): Option<nat> {
    if policies == [] then None
    else if policies[|policies| - 1].applicationId == app && policies[|policies| - 1].dealId == deal
    then Some(|policies| - 1)
    else FindPolicy(policies[..|policies| - 1], app, deal)
  }

  function PolicyRow(row: Document, deal: Option<int>, now: int): Document {
    row.(documentType := "policy_file", isPolicyFile := true, storageKey := None, status := Sent, dealId := deal,
         localDeletedAt := if FileOf(row) != {} then Some(now) else row.localDeletedAt)
  }

  function NewPolicyDocument(app: int, deal: Option<int>, fileId: string, now: int): Document {
    Document(app, "policy_file", true, None, Sent, Some(fileId), deal, Some(now), None, None, 0, None, 0)
  }

  function UpsertDocument(s: Store, app: int, fileId: string, now: int): Store
    requires app in s.applications
  {
    var deal := s.applications[app].dealId;
    match FindDocument(s.documents, app, fileId)
    case None => s.(documents := s.documents + [NewPolicyDocument(app, deal, fileId, now)])
    case Some(i) =>
      if i < |s.documents|
      then s.(documents := s.documents[i := PolicyRow(s.documents[i], deal, now)],
          disk := s.disk - FileOf(s.documents[i]))
      else s
  }

  function UpsertPolicy(s: Store, app: int, data: PolicyData, documentId: nat, now: int): Store
    requires app in s.applications
  {
    var row := Policy(app, s.applications[app].dealId, data, documentId, now);
    match FindPolicy(s.policies, app, s.applications[app].dealId)
    case None => s.(policies := s.policies + [row])
    case Some(p) => if p < |s.policies| then s.(policies := s.policies[p := row]) else s
  }

  function SyncPolicy(s: Store, app: int, data: PolicyData, now: int): Store
    requires app in s.applications
  {
    var found := FindDocument(s.documents, app, data.fileId);
    UpsertPolicy(UpsertDocument(s, app, data.fileId, now), app, data,
                 if found.Some? then found.value else |s.documents|, now)
  }

  const INCOMPLETE := "POLICY_DATA_INCOMPLETE"

  /** Status and warning a deal leads to. */
  function SyncVerdict(row: Application, deal: Deal, stages: StageMap): (PortalStatus, Option<string>) {
    var status := MappedStatus(row, deal, stages);
    if status != PolicyIssued then (status, None)
    else if PolicyPayload(row, deal.policy).Some? then (status, None)
    else (PolicyIssuing, Some(INCOMPLETE))
  }

  function SyncedRow(row: Application, deal: Deal, stages: StageMap, now: int): Application {
    var verdict := SyncVerdict(row, deal, stages);
    row.(status := verdict.0, categoryId := Some(SyncCategory(row, deal)),
         stageId := if deal.stageId != "" then Some(deal.stageId) else row.stageId,
         syncStatus := Synced, syncError := None, syncWarning := verdict.1, lastSyncedAt := Some(now))
  }

  function SyncResult(s: Store, app: int, reply: DealReply, stages: StageMap): SyncOutcome {
    if app !in s.applications || !HasDealId(s.applications[app]) then Skipped
    else match reply
      case DealError(code, _) => Failed(code)
      case DealResult(deal) =>
        var verdict := SyncVerdict(s.applications[app], deal, stages);
        Updated(verdict.0, verdict.1)
  }

  function SyncDeal(s: Store, app: int, deal: Deal, stages: StageMap, now: int): Store
    requires app in s.applications
  {
    var row := s.applications[app];
    var payload := PolicyPayload(row, deal.policy);
    var t := if MappedStatus(row, deal, stages) == PolicyIssued && payload.Some?
             then SyncPolicy(s, app, payload.value, now) else s;
    t.(applications := s.applications[app := SyncedRow(row, deal, stages, now)])
  }

  function Sync(s: Store, app: int, reply: DealReply, stages: StageMap, now: int): Store {
    if app !in s.applications || !HasDealId(s.applications[app]) then s
    else match reply
      case DealError(code, retryable) =>
        s.(applications := s.applications[app := s.applications[app].(
             syncStatus := if retryable then SyncRetryRequired else SyncFailed,
             syncError := Some(code), lastSyncedAt := Some(now))])
      case DealResult(deal) => SyncDeal(s, app, deal, stages, now)
  }

  // ---------------------------------------------------------------------
  // The state machine
  // ---------------------------------------------------------------------

  datatype Step =
    | DraftStep(app: int, productType: Option<string>)
    | SubmitStep(app: int, replies: Replies, category: Option<int>)
    | UploadStep(app: int, documentType: string, key: string, expiresAt: int)
    | DeleteStep(app: int, id: nat)
    | TransferStep(limit: nat, uploads: map<nat, UploadReply>)
    | CleanupStep
    | SyncStep(app: int, reply: DealReply, stages: StageMap)

  function NewDraft(productType: Option<string>): Application {
    Application(Draft, None, None, None, productType, None, None, SyncPending, None, None)
  }

  /** Which steps the environment can take: it answers truthfully and never maps a stage to submitting. */
  predicate Enabled(s: Store, step: Step) {
    match step
    case DraftStep(app, _) => app !in s.applications
    case SubmitStep(app, r, _) => Truthful(s, app, r)
    case UploadStep(_, _, key, _) => FreshKey(s, key)
    case DeleteStep(_, _) => true
    case TransferStep(limit, uploads) =>
      (forall i: nat | i < |s.documents| && InBatch(s, limit, i) :: i in uploads) && FreshFileIds(s, limit, uploads)
    case CleanupStep => true
    case SyncStep(_, _, stages) => Submitting !in stages.Values
  }

  function Apply(s: Store, step: Step, now: int): Store
    requires Enabled(s, step)
  {
    match step
    case DraftStep(app, product) => s.(applications := s.applications[app := NewDraft(product)])
    case SubmitStep(app, r, category) => Submit(s, app, r, category, now)
    case UploadStep(app, kind, key, expiresAt) => Upload(s, app, kind, key, expiresAt)
    case DeleteStep(app, id) => Delete(s, app, id, now)
    case TransferStep(limit, uploads) => Transfer(s, limit, uploads, now)
    case CleanupStep => Cleanup(s, now)
    case SyncStep(app, reply, stages) => Sync(s, app, reply, stages, now)
  }

  datatype TimedStep = At(now: int, step: Step)

  predicate EnabledRun(s: Store, run: seq<TimedStep>)
    decreases |run|
  {
    run == [] || (Enabled(s, run[0].step) && EnabledRun(Apply(s, run[0].step, run[0].now), run[1..]))
  }

  function Run(s: Store, run: seq<TimedStep>): Store
    requires EnabledRun(s, run)
    decreases |run|
  {
    if run == [] then s else Run(Apply(s, run[0].step, run[0].now), run[1..])
  }
}
