/**
  The committed transactions that touch delegations, as steps of a state machine:
  creation, the periodic worker, cancellation and termination, blocking a user,
  and everything else the portal may do to the shared tables in between.
 */
module DelegationSteps {
  import opened Options
  import opened DelegationTables

  // ---------------------------------------------------------------------
  // The worker tick
  // ---------------------------------------------------------------------

  predicate Due(row: Delegation, now: int) {
    row.status == Scheduled && row.startsAt <= now
  }

  predicate Expiring(row: Delegation, now: int) {
    row.status == Active && row.endsAt <= now
  }

  ghost predicate Activatable(s: Tables, d: nat, now: int)
    requires d in s.delegations
  {
    var row := s.delegations[d];
    now < row.endsAt && Acceptable(s, RequestOf(row), ApplicationsOf(s, d), now, Some(d))
  }

  /** Revalidating this delegation raises, so a tick that reaches it is rolled back. */
  predicate AmbiguousParty(s: Tables, row: Delegation) {
    AmbiguousRole(s, row.delegatorId, row.companyId) || AmbiguousRole(s, row.delegateId, row.companyId)
  }

  predicate RaisesTick(s: Tables, d: nat, now: int) {
    d in s.delegations && Due(s.delegations[d], now) && AmbiguousParty(s, s.delegations[d])
  }

  ghost predicate TickRaises(s: Tables, now: int) {
    exists d :: RaisesTick(s, d, now)
  }

  const ACTIVATION_FAILED := Close(Failed, "activation_validation_failed", None)
  const ENDS_AT_REACHED := Close(Expired, "ends_at_reached", None)

  ghost function DueChange(s: Tables, d: nat, now: int): Change
    requires d in s.delegations
  {
    if Activatable(s, d, now) then Activate else ACTIVATION_FAILED
  }

  /** One verdict per delegation, each read off the tables as they were before the tick. */
  ghost function TickChanges(s: Tables, now: int): map<nat, Change> {
    map d | d in s.delegations && (Due(s.delegations[d], now) || Expiring(s.delegations[d], now)) ::
      if Due(s.delegations[d], now) then DueChange(s, d, now) else ENDS_AT_REACHED
  }

  ghost function Tick(s: Tables, now: int): Tables {
    Transition(s, TickChanges(s, now), now)
  }

  // ---------------------------------------------------------------------
  // Creation
  // ---------------------------------------------------------------------

  predicate StrictlyIncreasing(xs: seq<int>) {
    forall i, j | 0 <= i < j < |xs| :: xs[i] < xs[j]
  }

  function Elements(xs: seq<int>): set<int> {
    set x | x in xs
  }

  ghost function KeyHolders(s: Tables, user: int, key: Option<string>): set<nat> {
    set d | d in s.delegations && s.delegations[d].createdBy == user && s.delegations[d].idempotencyKey == key
  }

  ghost predicate KeyTaken(s: Tables, user: int, key: Option<string>) {
    key.Some? && KeyHolders(s, user, key) != {}
  }

  predicate FreshIds(s: Tables, id: nat, firstItem: nat) {
    id !in s.delegations && forall i | i in s.items :: i < firstItem
  }

  function NewRow(r: DelegationRequest, key: Option<string>, now: int): Delegation {
    Delegation(r.companyId, r.delegatorId, r.delegateId, r.startsAt, r.endsAt,
               if r.startsAt <= now then Active else Scheduled, r.delegatorId, key, None, None, None, None)
  }

  function NewItem(d: nat, app: int, status: DelegationStatus, now: int): Item {
    Item(d, app, status, if status == Active then Some(now) else None, None, None)
  }

  predicate Allotted(firstItem: nat, count: nat, i: nat) {
    firstItem <= i < firstItem + count
  }

  function NewItems(d: nat, firstItem: nat, apps: seq<int>, status: DelegationStatus, now: int): map<nat, Item> {
    map i: nat | firstItem <= i < firstItem + |apps| && Allotted(firstItem, |apps|, i) ::
      NewItem(d, apps[i - firstItem], status, now)
  }

  ghost function Inserted(
    s: Tables, r: DelegationRequest, key: Option<string>, apps: seq<int>, id: nat, firstItem: nat, now: int): Tables
  {
    var row := NewRow(r, key, now);
    s.(delegations := s.delegations[id := row],
       items := s.items + NewItems(id, firstItem, apps, row.status, now),
       notifications := s.notifications + PartyNotifications(id, row, DelegationCreated)
                        + (if row.status == Active then PartyNotifications(id, row, DelegationActivated) else {}),
       sessions := if row.status == Active then RevokedSessions(s.sessions, {r.delegateId}, now) else s.sessions)
  }

  ghost predicate MayCreate(
    s: Tables, r: DelegationRequest, key: Option<string>, apps: seq<int>, id: nat, firstItem: nat, now: int)
  {
    && StrictlyIncreasing(apps)
    && FreshIds(s, id, firstItem)
    && !KeyTaken(s, r.delegatorId, key)
    && Acceptable(s, r, Elements(apps), now, None)
  }

  // ---------------------------------------------------------------------
  // Ending delegations
  // ---------------------------------------------------------------------

  /** Close one delegation if it is open; otherwise nothing happens. */
  ghost function EndOne(s: Tables, id: nat, c: Change, now: int): Tables {
    if OpenDelegation(s, id) then Transition(s, map[id := c], now) else s
  }

  /** The changes that close every open delegation naming a user. */
  ghost function ClosingFor(s: Tables, user: int, why: string, actor: Option<int>): map<nat, Change> {
    map d | d in s.delegations && s.delegations[d].status.Open() && Names(s.delegations[d], user) ::
      Close(Terminated, why, actor)
  }

  ghost function EndForUser(s: Tables, user: int, why: string, actor: Option<int>, now: int): Tables {
    Transition(s, ClosingFor(s, user, why, actor), now)
  }

  // ---------------------------------------------------------------------
  // Blocking a user
  // ---------------------------------------------------------------------

  datatype Reassignment = NoAction | AssignToUser(newId: Option<int>) | RequireAssignment | UnknownAction

  datatype BlockOutcome =
    | UserNotFound | CannotBlockSelf | AlreadyBlocked | ReassignmentRequired | AssigneeRejected | AssigneeLookupRaised
    | Blocked(reassigned: nat)

  function ActiveApplications(s: Tables, user: int): set<int> {
    set a | a in s.applications && ActiveApplicationOf(s.applications[a], user)
  }

  /** The single-row checks on a new responsible user all pass, without raising. */
  predicate AssigneeAllowed(s: Tables, user: int, company: int) {
    && user in s.users && s.users[user].status == ActiveUser
    && HasDelegationRole(s, user, company) && !AmbiguousRole(s, user, company)
  }

  /**
    The checks on a new responsible user end with the first application they fail for: in a refusal,
    or in an exception when the role lookup finds two rows.  Which comes first is up to the order of rows.
   */
  ghost predicate AssigneeFailure(s: Tables, user: int, apps: set<int>, outcome: BlockOutcome) {
    match outcome
    case AssigneeRejected =>
      !(user in s.users && s.users[user].status == ActiveUser)
      || exists a | a in apps && a in s.applications :: !HasDelegationRole(s, user, s.applications[a].companyId)
    case AssigneeLookupRaised =>
      user in s.users && s.users[user].status == ActiveUser
      && exists a | a in apps && a in s.applications :: AmbiguousRole(s, user, s.applications[a].companyId)
    case _ => false
  }

  function NewAssignee(action: Reassignment): Option<int> {
    if action.AssignToUser? then action.newId else None
  }

  /** A failed check on the assignee is one verdict here; AssigneeFailure tells the two kinds apart. */
  ghost function BlockVerdict(s: Tables, actor: int, target: int, action: Reassignment): BlockOutcome {
    var apps := ActiveApplications(s, target);
    if target !in s.users then UserNotFound
    else if target == actor then CannotBlockSelf
    else if s.users[target].status == BlockedUser then AlreadyBlocked
    else if apps == {} then Blocked(0)
    else if action.NoAction? || action.UnknownAction? then ReassignmentRequired
    else if action.AssignToUser?
            && (action.newId.None?
                || exists a | a in apps :: !AssigneeAllowed(s, action.newId.value, s.applications[a].companyId))
    then AssigneeRejected
    else Blocked(|apps|)
  }

  function ReassignedRow(row: Application, target: int, assignee: Option<int>): Application {
    row.(assignedTo := assignee, reassignedFrom := Some(target))
  }

  function ReassignedApplications(s: Tables, target: int, assignee: Option<int>): map<int, Application> {
    map a | a in s.applications ::
      if ActiveApplicationOf(s.applications[a], target)
      then ReassignedRow(s.applications[a], target, assignee) else s.applications[a]
  }

  function BlockReason(s: Tables, target: int): string {
    if ActiveApplications(s, target) != {} then "delegator_blocked" else "user_blocked"
  }

  ghost function BlockedTables(s: Tables, actor: int, target: int, action: Reassignment, now: int): Tables
    requires target in s.users
  {
    var t := EndForUser(s, target, BlockReason(s, target), Some(actor), now);
    t.(applications := ReassignedApplications(s, target, NewAssignee(action)),
       users := s.users[target := s.users[target].(status := BlockedUser)],
       sessions := RevokedSessions(t.sessions, {target}, now))
  }

  ghost function Block(s: Tables, actor: int, target: int, action: Reassignment, now: int): Tables {
    if BlockVerdict(s, actor, target, action).Blocked? then BlockedTables(s, actor, target, action, now) else s
  }

  // ---------------------------------------------------------------------
  // The state machine
  // ---------------------------------------------------------------------

  /**
    What the rest of the portal may do between delegation transactions: change roles,
    sessions, and the company or status of applications, add rows, log users in, or
    unblock them.  It neither reassigns applications nor blocks users.
   */
  ghost predicate OtherTransaction(s: Tables, t: Tables) {
    && t.delegations == s.delegations && t.items == s.items && t.notifications == s.notifications
    && (forall a | a in s.applications ::
          a in t.applications && t.applications[a].assignedTo == s.applications[a].assignedTo)
    && (forall u | u in s.users ::
          u in t.users && (t.users[u].status == BlockedUser ==> s.users[u].status == BlockedUser))
  }

  datatype Step =
    | CreateStep(request: DelegationRequest, key: Option<string>, apps: seq<int>, id: nat, firstItem: nat)
    | TickStep
    | CancelStep(id: nat, reason: string, actor: int)
    | TerminateStep(id: nat, reason: string, actor: int)
    | EndForUserStep(user: int, reason: string, endedBy: Option<int>)
    | BlockStep(actor: int, target: int, action: Reassignment)
    | OtherStep(after: Tables)

  /** A step that is refused, or raises, commits nothing. */
  ghost function Apply(s: Tables, step: Step, now: int): Tables {
    match step
    case CreateStep(r, key, apps, id, first) =>
      if MayCreate(s, r, key, apps, id, first, now) then Inserted(s, r, key, apps, id, first, now) else s
    case TickStep => if TickRaises(s, now) then s else Tick(s, now)
    case CancelStep(id, why, actor) => EndOne(s, id, Close(Cancelled, why, Some(actor)), now)
    case TerminateStep(id, why, actor) => EndOne(s, id, Close(Terminated, why, Some(actor)), now)
    case EndForUserStep(user, why, actor) => EndForUser(s, user, why, actor, now)
    case BlockStep(actor, target, action) => Block(s, actor, target, action, now)
    case OtherStep(after) => if OtherTransaction(s, after) then after else s
  }

  datatype TimedStep = At(now: int, step: Step)

  /** Transactions commit in the order of the clock readings they made. */
  predicate InOrder(clock: int, run: seq<TimedStep>)
    decreases |run|
  {
    run == [] || (clock <= run[0].now && InOrder(run[0].now, run[1..]))
  }

  ghost function Run(s: Tables, run: seq<TimedStep>): Tables
    decreases |run|
  {
    if run == [] then s else Run(Apply(s, run[0].step, run[0].now), run[1..])
  }

  function ClockAfter(clock: int, run: seq<TimedStep>): int
    decreases |run|
  {
    if run == [] then clock else ClockAfter(run[0].now, run[1..])
  }
}
