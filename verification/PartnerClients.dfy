/**
  Partner client requests: a partner asks for a client company, Bitrix and administrators decide
  independently, and a confirmed request opens a link between partner and company.

  Rows of both tables are numbered in the order of their creation.
 */
module PartnerClients {
  import opened Options

  datatype RequestStatus = Draft | Pending | ClarificationRequired | Confirmed | DuplicateFound | Rejected {
    predicate Editable() { Pending? || ClarificationRequired? }
  }

  /** A decision as it is sent: linking to an existing company is stored as a confirmation. */
  datatype Decision = Decided(status: RequestStatus) | LinkedToExisting {
    function Stored(): RequestStatus { if LinkedToExisting? then Confirmed else status }
  }

  datatype SyncState = SyncPending | Synced | SyncFailed | SyncRetryRequired

  datatype Request = Request(
    partner: int, data: string, status: RequestStatus, checkEntity: Option<int>, checkStatus: RequestStatus,
    sync: SyncState, syncError: Option<string>, syncedAt: Option<int>,
    decision: Option<Decision>, decisionReason: Option<string>, decidedAt: Option<int>, decidedBy: Option<int>,
    linkedToExisting: bool, linked: Option<int>, original: Option<int>,
    confirmedCompany: Option<int>, confirmedBitrix: Option<int>,
    rejectionReason: Option<string>, clarification: Option<string>)

  datatype LinkStatus = LinkPending | LinkActive | LinkAnotherPartner | LinkRejected | LinkRevoked

  datatype Link = Link(
    partner: int, company: int, status: LinkStatus, createdBy: Option<int>,
    confirmedBy: Option<int>, confirmedAt: Option<int>, revokedBy: Option<int>, revokedAt: Option<int>)

  datatype Portal = Portal(requests: seq<Request>, links: seq<Link>)

  const EMPTY_PORTAL := Portal([], [])

  const SYSTEM_COMPANIES := {1817}

  // ---------------------------------------------------------------------
  // Reading a row
  // ---------------------------------------------------------------------

  predicate Truthy(id: Option<int>) { id.Some? && id.value != 0 }

  function FinalCompany(row: Request): Option<int> {
    if Truthy(row.linked) then row.linked
    else if Truthy(row.confirmedBitrix) then row.confirmedBitrix
    else row.confirmedCompany
  }

  function PublicStatus(row: Request): Decision {
    if row.linkedToExisting && row.status == Confirmed then LinkedToExisting else Decided(row.status)
  }

  /** The request whose check object is a given company. */
  function FindRequest(requests: seq<Request>, company: int): Option<nat> {
    if requests == [] then None
    else if requests[|requests| - 1].checkEntity == Some(company) then Some(|requests| - 1)
    else FindRequest(requests[..|requests| - 1], company)
  }

  function FindLink(links: seq<Link>, partner: int, company: int): Option<nat> {
    if links == [] then None
    else if links[|links| - 1].partner == partner && links[|links| - 1].company == company then Some(|links| - 1)
    else FindLink(links[..|links| - 1], partner, company)
  }

  // ---------------------------------------------------------------------
  // Links
  // ---------------------------------------------------------------------

  function NewLink(partner: int, company: int, who: Option<int>, now: int): Link {
    Link(partner, company, LinkActive, who, who, Some(now), None, None)
  }

  /** A link opens, or opens again whatever had become of it. */
  function EnsureLink(links: seq<Link>, partner: int, company: int, who: Option<int>, now: int): seq<Link> {
    if company <= 0 then links
    else match FindLink(links, partner, company)
      case None => links + [NewLink(partner, company, who, now)]
      case Some(k) =>
        if k < |links|
        then links[k := links[k].(status := LinkActive, confirmedBy := who, confirmedAt := Some(now),
                                  revokedBy := None, revokedAt := None)]
        else links
  }

  // ---------------------------------------------------------------------
  // Decisions
  // ---------------------------------------------------------------------

  datatype WebhookError = InvalidCompany | StatusInvalid | LinkedCompanyRequired | RequestNotFound
  datatype WebhookOutcome = Refused(error: WebhookError) | Updated(id: nat, decision: Decision, repeated: bool)

  /** Checking and completing the parameters of a delivery; a duplicate that names a company is a link. */
  function ReadDelivery(company: Option<int>, raw: Option<Decision>, linked: Option<int>)
    : (int, Option<Decision>, WebhookError)
  {
    if company.None? || company.value <= 0 then (0, None, InvalidCompany)
    else
      var d := if raw == Some(Decided(DuplicateFound)) && linked.Some? then Some(LinkedToExisting) else raw;
      if d.None? then (0, None, StatusInvalid)
      else if d.value == LinkedToExisting && linked.None? then (0, None, LinkedCompanyRequired)
      else (company.value, d, RequestNotFound)
  }

  function FinalOf(company: int, d: Decision, linked: Option<int>): int
    requires d == LinkedToExisting ==> linked.Some?
  {
    if d == LinkedToExisting then linked.value else company
  }

  function WebhookRow(
    row: Request, company: int, d: Decision, linked: Option<int>, reason: Option<string>, user: Option<int>, now: int)
    : Request
    requires d == LinkedToExisting ==> linked.Some?
  {
    var final := Some(FinalOf(company, d, linked));
    row.(
      status := d.Stored(), checkStatus := d.Stored(), sync := Synced, syncError := None, syncedAt := Some(now),
      decision := Some(d), decisionReason := if d == Decided(Rejected) then reason else None,
      decidedAt := if row.decidedAt.Some? then row.decidedAt else Some(now), decidedBy := user,
      original := if row.original.None? then Some(company) else row.original,
      confirmedCompany := if d.Stored() == Confirmed then final else row.confirmedCompany,
      confirmedBitrix := if d.Stored() == Confirmed then final else row.confirmedBitrix,
      linkedToExisting := if d == Decided(Rejected) then row.linkedToExisting else d == LinkedToExisting,
      linked := if d == Decided(Rejected) then row.linked else if d == LinkedToExisting then linked else None,
      rejectionReason := if d == Decided(Rejected) then reason else row.rejectionReason)
  }

  /** What the handler calls a repeated delivery. */
  predicate IsRepeat(row: Request, company: int, d: Decision, linked: Option<int>)
    requires d == LinkedToExisting ==> linked.Some?
  {
    && row.status == d.Stored() && row.checkStatus == d.Stored()
    && (if Truthy(row.linked) then row.linked else None) == (if Truthy(linked) then linked else None)
    && (if Truthy(row.confirmedBitrix) then row.confirmedBitrix else None)
       == (if d.Stored() == Confirmed then Some(FinalOf(company, d, linked)) else None)
  }

  /** A delivery whose parameters are in order. */
  predicate DeliveryOk(company: int, d: Decision, linked: Option<int>) {
    && 0 < company && d != Decided(Draft)
    && (linked.Some? ==> 0 < linked.value)
    && (d == LinkedToExisting ==> linked.Some?)
    && (d == Decided(DuplicateFound) ==> linked.None?)
  }

  function Webhook(
    s: Portal, company: int, d: Decision, linked: Option<int>, reason: Option<string>, user: Option<int>,
        now: int): Portal
    requires d == LinkedToExisting ==> linked.Some?
  {
    match FindRequest(s.requests, company)
    case None => s
    case Some(i) =>
      if i >= |s.requests| then s
      else
        Portal(s.requests[i := WebhookRow(s.requests[i], company, d, linked, reason, user, now)],
               if d.Stored() == Confirmed
               then EnsureLink(s.links, s.requests[i].partner, FinalOf(company, d, linked), None, now) else s.links)
  }

  datatype AdminError = AdminRequestNotFound | AdminStatusInvalid | AdminLinkedCompanyRequired | AdminCompanyNotFound

  /** A company an administrator names, unless it is not a positive number or belongs to the system. */
  function Normalized(id: Option<int>): Option<int> {
    if id.Some? && id.value > 0 && id.value !in SYSTEM_COMPANIES then id else None
  }

  function AdminCompany(confirmed: Option<int>, linked: Option<int>): Option<int> {
    if Normalized(linked).Some? then Normalized(linked) else Normalized(confirmed)
  }

  function AdminRefusal(s: Portal, i: nat, d: Decision, confirmed: Option<int>, linked: Option<int>)
    : Option<AdminError>
  {
    if d == Decided(Draft) then Some(AdminStatusInvalid)
    else if i >= |s.requests| then Some(AdminRequestNotFound)
    else if d == LinkedToExisting && Normalized(linked).None? then Some(AdminLinkedCompanyRequired)
    else if d.Stored() == Confirmed && AdminCompany(confirmed, linked).None? then Some(AdminCompanyNotFound)
    else None
  }

  function AdminRow(
    row: Request, d: Decision, confirmed: Option<int>, linked: Option<int>,
    rejection: Option<string>, clarification: Option<string>, now: int): Request
  {
    var company := AdminCompany(confirmed, linked);
    row.(
      status := d.Stored(), checkStatus := d.Stored(), decision := Some(d),
      decisionReason := if d == Decided(Rejected) then rejection else None, decidedAt := Some(now),
      rejectionReason := rejection, clarification := clarification,
      linkedToExisting := d == LinkedToExisting, linked := Normalized(linked),
      confirmedBitrix := if company.Some? then company else row.confirmedBitrix,
      confirmedCompany := if company.Some? then company else row.confirmedCompany,
      original := if row.original.None? && Truthy(row.checkEntity) then row.checkEntity else row.original)
  }

  function AdminDecision(
    s: Portal, i: nat, d: Decision, confirmed: Option<int>, linked: Option<int>,
    rejection: Option<string>, clarification: Option<string>, admin: int, now: int): Portal
  {
    if AdminRefusal(s, i, d, confirmed, linked).Some? then s
    else
      Portal(s.requests[i := AdminRow(s.requests[i], d, confirmed, linked, rejection, clarification, now)],
             if d.Stored() == Confirmed
             then EnsureLink(s.links, s.requests[i].partner, AdminCompany(confirmed, linked).value, Some(admin), now)
             else s.links)
  }

  // ---------------------------------------------------------------------
  // The partner's side
  // ---------------------------------------------------------------------

  datatype CreateReply = CreateFailed(code: string) | CompanyCreated(company: int)

  function NewRequest(partner: int, data: string, reply: CreateReply, now: int): Request {
    var row := Request(partner, data, Pending, None, Pending, SyncPending, None, None, None, None, None, None, false,
                       None, None, None, None, None, None);
    match reply
    case CreateFailed(code) => row.(sync := SyncFailed, syncError := Some(code))
    case CompanyCreated(company) => row.(checkEntity := Some(company), sync := Synced, syncedAt := Some(now))
  }

  predicate MayEdit(s: Portal, partner: int, i: nat) {
    i < |s.requests| && s.requests[i].partner == partner && s.requests[i].status.Editable()
  }

  /** Answering a request for clarification puts the request back in the queue. */
  function Edit(s: Portal, partner: int, i: nat, data: string): Portal {
    if MayEdit(s, partner, i)
    then s.(requests := s.requests[i := s.requests[i].(data := data, status := Pending, sync := SyncRetryRequired)])
    else s
  }

  datatype UseOutcome =
    | UseAllowed | UseNotFound | UseRejected | UseDuplicateUnresolved | UseNotConfirmed | UseCompanyMismatch

  function UseVerdict(s: Portal, partner: int, i: nat, company: int): UseOutcome {
    if i >= |s.requests| || s.requests[i].partner != partner then UseNotFound
    else
      var row := s.requests[i];
      if row.status == Confirmed && row.checkStatus == Confirmed && FinalCompany(row) == Some(company) then UseAllowed
      else if row.status == Rejected then UseRejected
      else if row.status == DuplicateFound && !Truthy(row.linked) then UseDuplicateUnresolved
      else if row.status in {Pending, ClarificationRequired, Rejected, DuplicateFound, Draft} then UseNotConfirmed
      else UseCompanyMismatch
  }

  /** Starting an application for a client on the strength of a request. */
  function Use(s: Portal, partner: int, i: nat, company: int, now: int): Portal {
    if UseVerdict(s, partner, i, company) == UseAllowed
    then s.(links := EnsureLink(s.links, partner, company, Some(partner), now))
    else s
  }

  function Revoke(s: Portal, k: nat, admin: int, now: int): Portal {
    if k < |s.links| && s.links[k].status != LinkRevoked
    then s.(links := s.links[k := s.links[k].(status := LinkRevoked, revokedBy := Some(admin), revokedAt := Some(now))])
    else s
  }

  /** An administrator may add a link, unless there is one. */
  function AddLink(s: Portal, link: Link): Portal {
    if FindLink(s.links, link.partner, link.company).Some? then s else s.(links := s.links + [link])
  }

  // ---------------------------------------------------------------------
  // The state machine
  // ---------------------------------------------------------------------

  datatype Step =
    | CreateStep(partner: int, data: string, reply: CreateReply)
    | EditStep(partner: int, id: nat, data: string)
    | WebhookStep(company: int, decision: Decision, linked: Option<int>, reason: Option<string>, user: Option<int>)
    | AdminStep(id: nat, decision: Decision, confirmed: Option<int>, linked: Option<int>,
                rejection: Option<string>, clarification: Option<string>, admin: int)
    | UseStep(partner: int, id: nat, company: int)
    | RevokeStep(link: nat, admin: int)
    | AddLinkStep(row: Link)

  /** A company created for a check is new. */
  predicate FreshCompany(s: Portal, company: int) {
    0 < company && forall i | 0 <= i < |s.requests| :: s.requests[i].checkEntity != Some(company)
  }

  predicate Enabled(s: Portal, step: Step) {
    match step
    case CreateStep(_, _, reply) => reply.CompanyCreated? ==> FreshCompany(s, reply.company)
    case WebhookStep(company, d, linked, _, _) => DeliveryOk(company, d, linked)
    case _ => true
  }

  function Apply(s: Portal, step: Step, now: int): Portal
    requires Enabled(s, step)
  {
    match step
    case CreateStep(partner, data, reply) => s.(requests := s.requests + [NewRequest(partner, data, reply, now)])
    case EditStep(partner, i, data) => Edit(s, partner, i, data)
    case WebhookStep(company, d, linked, reason, user) => Webhook(s, company, d, linked, reason, user, now)
    case AdminStep(i, d, confirmed, linked, rejection, clarification, admin) =>
      AdminDecision(s, i, d, confirmed, linked, rejection, clarification, admin, now)
    case UseStep(partner, i, company) => Use(s, partner, i, company, now)
    case RevokeStep(k, admin) => Revoke(s, k, admin, now)
    case AddLinkStep(link) => AddLink(s, link)
  }

  datatype TimedStep = At(now: int, step: Step)

  predicate EnabledRun(s: Portal, run: seq<TimedStep>)
    decreases |run|
  {
    run == [] || (Enabled(s, run[0].step) && EnabledRun(Apply(s, run[0].step, run[0].now), run[1..]))
  }

  function Run(s: Portal, run: seq<TimedStep>): Portal
    requires EnabledRun(s, run)
    decreases |run|
  {
    if run == [] then s else Run(Apply(s, run[0].step, run[0].now), run[1..])
  }
}
