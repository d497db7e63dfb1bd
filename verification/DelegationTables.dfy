/**
  The tables behind application delegations, and what each committed
  transaction does to them, as functions on values.

  A transaction reads the clock once; time is an integer number of seconds.
  Every way in which delegations change status is one bulk Transition: a map
  from delegation ids to changes.  The row loops that carry it out are in
  DelegationService.
 */
module DelegationTables {
  import opened Options

  const FIVE_MINUTES := 5 * 60
  const MAX_PERIOD := 30 * 24 * 60 * 60

  datatype DelegationStatus = Scheduled | Active | Cancelled | Expired | Terminated | Failed {
    predicate Open() { Scheduled? || Active? }
  }

  datatype ApplicationStatus =
    | Draft | Submitting | SubmitError | Received | InReview | InWork | Submitted | RequiresAssignment
    | CancelledByClient | PolicyIssued | ClosedStatus | RejectedStatus | OtherStatus(code: string)
  {
    predicate Final() { CancelledByClient? || PolicyIssued? || ClosedStatus? || RejectedStatus? }
  }

  datatype UserStatus = PendingUser | ActiveUser | BlockedUser
  datatype UserType = Client | Partner
  datatype RoleCode = ClientExecutor | ClientAdmin | ClientViewer

  datatype Delegation = Delegation(
    companyId: int, delegatorId: int, delegateId: int, startsAt: int, endsAt: int,
    status: DelegationStatus, createdBy: int, idempotencyKey: Option<string>,
    cancelledBy: Option<int>, cancelledAt: Option<int>, completionReason: Option<string>,
    activatedNotifiedAt: Option<int>)

  datatype Item = Item(
    delegationId: nat, applicationId: int, status: DelegationStatus,
    accessStartedAt: Option<int>, accessEndedAt: Option<int>, completionReason: Option<string>)

  datatype NotificationEvent =
    | DelegationCreated | DelegationActivated | DelegationCancelled
    | DelegationExpired | DelegationTerminated | DelegationActivationFailed

  datatype Notification = Notification(delegationId: nat, event: NotificationEvent, recipientId: int)

  datatype Application = Application(
    companyId: int, assignedTo: Option<int>, status: ApplicationStatus, reassignedFrom: Option<int>)

  datatype User = User(status: UserStatus, userType: UserType)

  /** A row of user_company_roles whose access is active; at most one exists for each triple. */
  datatype ActiveRole = ActiveRole(userId: int, companyId: int, role: RoleCode)

  datatype UserSession = UserSession(userId: int, revokedAt: Option<int>)

  datatype Tables = Tables(
    delegations: map<nat, Delegation>,
    items: map<nat, Item>,
    notifications: set<Notification>,
    applications: map<int, Application>,
    users: map<int, User>,
    roles: set<ActiveRole>,
    sessions: map<nat, UserSession>)

  // ---------------------------------------------------------------------
  // Queries
  // ---------------------------------------------------------------------

  ghost function ApplicationsOf(s: Tables, d: nat): set<int> {
    set i | i in s.items && s.items[i].delegationId == d :: s.items[i].applicationId
  }

  predicate OpenItem(s: Tables, i: nat) {
    i in s.items && s.items[i].status.Open()
  }

  predicate OpenDelegation(s: Tables, d: nat) {
    d in s.delegations && s.delegations[d].status.Open()
  }

  predicate Names(row: Delegation, user: int) {
    row.delegatorId == user || row.delegateId == user
  }

  predicate ActiveClient(s: Tables, user: int) {
    user in s.users && s.users[user] == User(ActiveUser, Client)
  }

  predicate HasDelegationRole(s: Tables, user: int, company: int) {
    ActiveRole(user, company, ClientExecutor) in s.roles || ActiveRole(user, company, ClientAdmin) in s.roles
  }

  /** Both allowed roles are held in one company, so the single-row lookup raises. */
  predicate AmbiguousRole(s: Tables, user: int, company: int) {
    ActiveRole(user, company, ClientExecutor) in s.roles && ActiveRole(user, company, ClientAdmin) in s.roles
  }

  /** Rows of the conflict query: open items of other open delegations on this application. */
  ghost function ConflictRows(s: Tables, app: int, ignore: Option<nat>): set<nat> {
    set i | i in s.items && s.items[i].applicationId == app && s.items[i].status.Open()
            && OpenDelegation(s, s.items[i].delegationId)
            && (ignore.None? || s.items[i].delegationId != ignore.value)
  }

  /** Rows of the access query of has_active_delegated_access. */
  ghost function AccessRows(s: Tables, user: int, app: int, now: int): set<nat> {
    set i | i in s.items && s.items[i].applicationId == app && s.items[i].status == Active
            && s.items[i].delegationId in s.delegations
            && GrantsAccess(s.delegations[s.items[i].delegationId], user, now)
  }

  predicate GrantsAccess(row: Delegation, user: int, now: int) {
    row.delegateId == user && row.status == Active && row.startsAt <= now < row.endsAt
  }

  /** Applications a user holds through active delegations. */
  ghost function HeldApplications(s: Tables, user: int): set<int> {
    set i | i in s.items && s.items[i].status == Active && s.items[i].delegationId in s.delegations
            && s.delegations[s.items[i].delegationId].status == Active
            && s.delegations[s.items[i].delegationId].delegateId == user :: s.items[i].applicationId
  }

  ghost predicate NoLiveSession(s: Tables, user: int) {
    forall k | k in s.sessions && s.sessions[k].userId == user :: s.sessions[k].revokedAt.Some?
  }

  predicate ActiveApplicationOf(row: Application, user: int) {
    row.assignedTo == Some(user) && !row.status.Final()
  }

  // ---------------------------------------------------------------------
  // Validation
  // ---------------------------------------------------------------------

  datatype DelegationRequest = DelegationRequest(
    delegatorId: int, delegateId: int, companyId: int, startsAt: int, endsAt: int)

  datatype Problem =
    | DelegatorEqualsDelegate | StartsAtInPast | EndsAtBeforeStartsAt | MaxPeriodExceeded
    | DelegatorNotActive | DelegateNotActive | DelegatorCompanyAccessDenied | DelegateNotAllowed
    | EmptySelection | ApplicationNotFound(app: int) | DifferentCompany(app: int)
    | NotCurrentResponsible(app: int) | FinalStatus(app: int) | DelegationConflict(app: int)

  datatype Validation = Raised | Checked(problems: seq<Problem>)

  function RequestOf(row: Delegation): DelegationRequest {
    DelegationRequest(row.delegatorId, row.delegateId, row.companyId, row.startsAt, row.endsAt)
  }

  /** What a request must satisfy, whatever order it is checked in. */
  ghost predicate Acceptable(s: Tables, r: DelegationRequest, apps: set<int>, now: int, ignore: Option<nat>) {
    && r.delegatorId != r.delegateId
    && now - FIVE_MINUTES <= r.startsAt < r.endsAt <= r.startsAt + MAX_PERIOD
    && ActiveClient(s, r.delegatorId) && ActiveClient(s, r.delegateId)
    && HasDelegationRole(s, r.delegatorId, r.companyId) && HasDelegationRole(s, r.delegateId, r.companyId)
    && apps != {}
    && forall a | a in apps :: AcceptableApplication(s, r, a, ignore)
  }

  ghost predicate AcceptableApplication(s: Tables, r: DelegationRequest, a: int, ignore: Option<nat>) {
    && a in s.applications
    && s.applications[a].companyId == r.companyId
    && s.applications[a].assignedTo == Some(r.delegatorId)
    && !s.applications[a].status.Final()
    && ConflictRows(s, a, ignore) == {}
  }

  /** A single-row lookup of the validation finds two rows. */
  ghost predicate ValidationRaises(s: Tables, r: DelegationRequest, apps: set<int>, ignore: Option<nat>) {
    || AmbiguousRole(s, r.delegatorId, r.companyId)
    || AmbiguousRole(s, r.delegateId, r.companyId)
    || exists a | a in apps :: a in s.applications && |ConflictRows(s, a, ignore)| > 1
  }

  // ---------------------------------------------------------------------
  // Changing the status of delegations
  // ---------------------------------------------------------------------

  datatype Change =
    | Activate
    | Close(status: DelegationStatus, reason: string, actor: Option<int>)

  function ChangedDelegation(row: Delegation, c: Change, now: int): Delegation {
    match c
    case Activate => row.(status := Active, activatedNotifiedAt := Some(now))
    case Close(st, why, actor) =>
      row.(status := st,
           completionReason := Some(why),
           cancelledBy := if st == Cancelled then actor else None,
           cancelledAt := if st == Cancelled then Some(now) else None)
  }

  function ChangedItem(row: Item, c: Change, now: int): Item {
    match c
    case Activate =>
      if row.status == Scheduled then row.(status := Active, accessStartedAt := Some(now)) else row
    case Close(st, why, actor) =>
      if row.status.Open() then row.(status := st, accessEndedAt := Some(now), completionReason := Some(why)) else row
  }

  function EventOf(c: Change): NotificationEvent {
    match c
    case Activate => DelegationActivated
    case Close(Cancelled, _, _) => DelegationCancelled
    case Close(Expired, _, _) => DelegationExpired
    case Close(Failed, _, _) => DelegationActivationFailed
    case Close(_, _, _) => DelegationTerminated
  }

  function Revoked(row: UserSession, users: set<int>, now: int): UserSession {
    if row.userId in users && row.revokedAt.None? then row.(revokedAt := Some(now)) else row
  }

  function RevokedSessions(sessions: map<nat, UserSession>, users: set<int>, now: int): map<nat, UserSession> {
    map k | k in sessions :: Revoked(sessions[k], users, now)
  }

  ghost function PartyNotifications(d: nat, row: Delegation, event: NotificationEvent): set<Notification> {
    {Notification(d, event, row.delegatorId), Notification(d, event, row.delegateId)}
  }

  ghost function ChangeNotifications(s: Tables, changes: map<nat, Change>): set<Notification>
    requires changes.Keys <= s.delegations.Keys
  {
    set d, n | d in changes && n in PartyNotifications(d, s.delegations[d], EventOf(changes[d])) :: n
  }

  ghost function ChangedDelegates(s: Tables, changes: map<nat, Change>): set<int>
    requires changes.Keys <= s.delegations.Keys
  {
    set d | d in changes :: s.delegations[d].delegateId
  }

  function ChangedDelegations(rows: map<nat, Delegation>, changes: map<nat, Change>, now: int): map<nat, Delegation> {
    map d | d in rows :: if d in changes then ChangedDelegation(rows[d], changes[d], now) else rows[d]
  }

  function ChangedItems(rows: map<nat, Item>, changes: map<nat, Change>, now: int): map<nat, Item> {
    map i | i in rows ::
      if rows[i].delegationId in changes then ChangedItem(rows[i], changes[rows[i].delegationId], now) else rows[i]
  }

  /** Carry out a set of changes at one moment. */
  ghost function Transition(s: Tables, changes: map<nat, Change>, now: int): Tables
    requires changes.Keys <= s.delegations.Keys
  {
    s.(delegations := ChangedDelegations(s.delegations, changes, now),
       items := ChangedItems(s.items, changes, now),
       notifications := s.notifications + ChangeNotifications(s, changes),
       sessions := RevokedSessions(s.sessions, ChangedDelegates(s, changes), now))
  }

  lemma ChangedDelegatesSplit(s: Tables, m1: map<nat, Change>, m2: map<nat, Change>)
    requires m1.Keys <= s.delegations.Keys && m2.Keys <= s.delegations.Keys
    ensures ChangedDelegates(s, m1 + m2) == ChangedDelegates(s, m1) + ChangedDelegates(s, m2)
  {
    forall d | d in m1 || d in m2 ensures s.delegations[d].delegateId in ChangedDelegates(s, m1 + m2) {
      assert d in m1 + m2;
    }
  }

  lemma ChangeNotificationsSplit(s: Tables, m1: map<nat, Change>, m2: map<nat, Change>)
    requires m1.Keys <= s.delegations.Keys && m2.Keys <= s.delegations.Keys && m1.Keys !! m2.Keys
    ensures ChangeNotifications(s, m1 + m2) == ChangeNotifications(s, m1) + ChangeNotifications(s, m2)
  {
    var m := m1 + m2;
    forall n | n in ChangeNotifications(s, m1) + ChangeNotifications(s, m2) ensures n in ChangeNotifications(s, m) {
      var d :| d in m && n in PartyNotifications(d, s.delegations[d], EventOf(m[d]));
    }
  }

  lemma RowsCompose(ds: map<nat, Delegation>, its: map<nat, Item>, m1: map<nat, Change>, m2: map<nat, Change>, now: int)
    requires m1.Keys !! m2.Keys
    ensures ChangedDelegations(ChangedDelegations(ds, m1, now), m2, now) == ChangedDelegations(ds, m1 + m2, now)
    ensures ChangedItems(ChangedItems(its, m1, now), m2, now) == ChangedItems(its, m1 + m2, now)
  {
  }

  lemma SessionsCompose(sessions: map<nat, UserSession>, us: set<int>, vs: set<int>, now: int)
    ensures RevokedSessions(RevokedSessions(sessions, us, now), vs, now) == RevokedSessions(sessions, us + vs, now)
  {
  }

  lemma SameParties(s: Tables, t: Tables, m: map<nat, Change>)
    requires m.Keys <= s.delegations.Keys && m.Keys <= t.delegations.Keys
    requires forall d | d in m :: s.delegations[d].delegatorId == t.delegations[d].delegatorId
                                  && s.delegations[d].delegateId == t.delegations[d].delegateId
    ensures ChangeNotifications(s, m) == ChangeNotifications(t, m)
    ensures ChangedDelegates(s, m) == ChangedDelegates(t, m)
  {
    forall d, e | d in m
      ensures PartyNotifications(d, s.delegations[d], e) == PartyNotifications(d, t.delegations[d], e)
    {
    }
  }

  /** Two groups of changes to different delegations amount to one larger group. */
  lemma TransitionCompose(s: Tables, m1: map<nat, Change>, m2: map<nat, Change>, now: int)
    requires m1.Keys <= s.delegations.Keys && m2.Keys <= s.delegations.Keys && m1.Keys !! m2.Keys
    ensures Transition(Transition(s, m1, now), m2, now) == Transition(s, m1 + m2, now)
  {
    RowsCompose(s.delegations, s.items, m1, m2, now);
    SameParties(s, Transition(s, m1, now), m2);
    ChangeNotificationsSplit(s, m1, m2);
    ChangedDelegatesSplit(s, m1, m2);
    SessionsCompose(s.sessions, ChangedDelegates(s, m1), ChangedDelegates(s, m2), now);
  }
}
