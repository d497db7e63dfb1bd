/**
  The operations of the delegation service and of user blocking, as they run against the
  database: row by row, each reading what the previous statement wrote.  Every operation is
  proved to have the effect on the tables that DelegationSteps states for it.
 */
module DelegationService {
  import opened Options
  import opened Sets
  import opened DelegationTables
  import opened DelegationSteps
  import opened DelegationInvariants
  import opened DelegationTheorems
  import opened DelegationLaws

  // ---------------------------------------------------------------------
  // The list of problems
  // ---------------------------------------------------------------------

  function When(c: bool, p: Problem): seq<Problem> {
    if c then [p] else []
  }

  function HeaderProblems(s: Tables, r: DelegationRequest, now: int): seq<Problem> {
    When(r.delegatorId == r.delegateId, DelegatorEqualsDelegate)
    + When(r.startsAt < now - FIVE_MINUTES, StartsAtInPast)
    + When(r.endsAt <= r.startsAt, EndsAtBeforeStartsAt)
    + When(r.endsAt - r.startsAt > MAX_PERIOD, MaxPeriodExceeded)
    + When(!ActiveClient(s, r.delegatorId), DelegatorNotActive)
    + When(!ActiveClient(s, r.delegateId), DelegateNotActive)
    + When(!HasDelegationRole(s, r.delegatorId, r.companyId), DelegatorCompanyAccessDenied)
    + When(!HasDelegationRole(s, r.delegateId, r.companyId), DelegateNotAllowed)
  }

  ghost function ApplicationProblems(s: Tables, r: DelegationRequest, a: int, ignore: Option<nat>): seq<Problem> {
    if a !in s.applications then [ApplicationNotFound(a)]
    else
      var row := s.applications[a];
      When(row.companyId != r.companyId, DifferentCompany(a))
      + When(row.assignedTo != Some(r.delegatorId), NotCurrentResponsible(a))
      + When(row.status.Final(), FinalStatus(a))
      + When(ConflictRows(s, a, ignore) != {}, DelegationConflict(a))
  }

  ghost function SelectionProblems(s: Tables, r: DelegationRequest, apps: seq<int>, ignore: Option<nat>): seq<Problem> {
    if apps == [] then []
    else SelectionProblems(s, r, apps[..|apps| - 1], ignore) + ApplicationProblems(s, r, apps[|apps| - 1], ignore)
  }

  ghost function AllProblems(
    s: Tables, r: DelegationRequest, apps: seq<int>, now: int, ignore: Option<nat>): seq<Problem>
  {
    HeaderProblems(s, r, now) + When(apps == [], EmptySelection) + SelectionProblems(s, r, apps, ignore)
  }

  lemma {:induction false} SelectionProblemsEmptyIff(
    s: Tables, r: DelegationRequest, apps: seq<int>, ignore: Option<nat>)
    ensures SelectionProblems(s, r, apps, ignore) == []
            <==> forall a | a in apps :: AcceptableApplication(s, r, a, ignore)
  {
    if apps != [] {
      var front, last := apps[..|apps| - 1], apps[|apps| - 1];
      SelectionProblemsEmptyIff(s, r, front, ignore);
      assert ApplicationProblems(s, r, last, ignore) == [] <==> AcceptableApplication(s, r, last, ignore);
      assert apps == front + [last];
      hide AcceptableApplication, ApplicationProblems;
    }
  }

  /** The checks report nothing exactly when the request is acceptable. */
  lemma NoProblemsIffAcceptable(s: Tables, r: DelegationRequest, apps: seq<int>, now: int, ignore: Option<nat>)
    ensures AllProblems(s, r, apps, now, ignore) == [] <==> Acceptable(s, r, Elements(apps), now, ignore)
  {
    SelectionProblemsEmptyIff(s, r, apps, ignore);
    hide AcceptableApplication, SelectionProblems;
    assert Elements(apps) == {} <==> apps == [] by {
      if apps != [] { assert apps[0] in Elements(apps); }
    }
  }

  /** What each problem means. */
  ghost predicate HasProblem(
    s: Tables, r: DelegationRequest, apps: seq<int>, now: int, ignore: Option<nat>, p: Problem)
  {
    match p
    case DelegatorEqualsDelegate => r.delegatorId == r.delegateId
    case StartsAtInPast => r.startsAt < now - 300
    case EndsAtBeforeStartsAt => r.endsAt <= r.startsAt
    case MaxPeriodExceeded => r.endsAt > r.startsAt + 2592000
    case DelegatorNotActive => !(r.delegatorId in s.users && s.users[r.delegatorId] == User(ActiveUser, Client))
    case DelegateNotActive => !(r.delegateId in s.users && s.users[r.delegateId] == User(ActiveUser, Client))
    case DelegatorCompanyAccessDenied =>
      forall role | role in {ClientExecutor, ClientAdmin} :: ActiveRole(r.delegatorId, r.companyId, role) !in s.roles
    case DelegateNotAllowed =>
      forall role | role in {ClientExecutor, ClientAdmin} :: ActiveRole(r.delegateId, r.companyId, role) !in s.roles
    case EmptySelection => apps == []
    case ApplicationNotFound(a) => a in apps && a !in s.applications
    case DifferentCompany(a) => a in apps && a in s.applications && s.applications[a].companyId != r.companyId
    case NotCurrentResponsible(a) =>
      a in apps && a in s.applications && s.applications[a].assignedTo != Some(r.delegatorId)
    case FinalStatus(a) => a in apps && a in s.applications && IsFinal(s.applications[a].status)
    case DelegationConflict(a) => a in apps && a in s.applications && Elsewhere(s, a, ignore)
  }

  /** The checks report exactly the problems a request has. */
  lemma ProblemsAre(s: Tables, r: DelegationRequest, apps: seq<int>, now: int, ignore: Option<nat>, p: Problem)
    ensures p in AllProblems(s, r, apps, now, ignore) <==> HasProblem(s, r, apps, now, ignore, p)
  {
    SelectionProblemsAre(s, r, apps, now, ignore, p);
    HeaderProblemsAre(s, r, apps, now, ignore, p);
    assert p == EmptySelection ==> (HasProblem(s, r, apps, now, ignore, p) <==> apps == []) && About(p).None?;
    hide HasProblem, HeaderProblems, SelectionProblems, About;
  }

  /** The problem is about one of the applications. */
  function About(p: Problem): Option<int> {
    match p
    case ApplicationNotFound(a) => Some(a)
    case DifferentCompany(a) => Some(a)
    case NotCurrentResponsible(a) => Some(a)
    case FinalStatus(a) => Some(a)
    case DelegationConflict(a) => Some(a)
    case _ => None
  }

  lemma HeaderProblemsAre(s: Tables, r: DelegationRequest, apps: seq<int>, now: int, ignore: Option<nat>, p: Problem)
    ensures p in HeaderProblems(s, r, now) <==>
            About(p).None? && p != EmptySelection && HasProblem(s, r, apps, now, ignore, p)
  {
    hide Elsewhere;
  }

  lemma {:induction false} SelectionProblemsAre(
    s: Tables, r: DelegationRequest, apps: seq<int>, now: int, ignore: Option<nat>, p: Problem)
    ensures p in SelectionProblems(s, r, apps, ignore) <==> About(p).Some? && HasProblem(s, r, apps, now, ignore, p)
  {
    hide Elsewhere, ConflictRows, ApplicationProblems;
    if apps == [] {
    } else {
      var front, last := apps[..|apps| - 1], apps[|apps| - 1];
      assert apps == front + [last];
      SelectionProblemsAre(s, r, front, now, ignore, p);
      ApplicationProblemsAre(s, r, last, now, ignore, p);
      if About(p).Some? { OneMoreApplication(s, r, front, last, now, ignore, p); }
      hide HasProblem;
    }
  }

  lemma ApplicationProblemsAre(s: Tables, r: DelegationRequest, a: int, now: int, ignore: Option<nat>, p: Problem)
    ensures p in ApplicationProblems(s, r, a, ignore) <==> About(p).Some? && HasProblem(s, r, [a], now, ignore, p)
  {
    ElsewhereIff(s, a, ignore);
    hide Elsewhere, ConflictRows;
  }

  lemma OneMoreApplication(
    s: Tables, r: DelegationRequest, front: seq<int>, last: int, now: int, ignore: Option<nat>, p: Problem)
    requires About(p).Some?
    ensures HasProblem(s, r, front + [last], now, ignore, p)
            <==> HasProblem(s, r, front, now, ignore, p) || HasProblem(s, r, [last], now, ignore, p)
  {
    hide Elsewhere;
  }

  // ---------------------------------------------------------------------
  // sorted(set(...))
  // ---------------------------------------------------------------------

  function Insert(x: int, ys: seq<int>): (r: seq<int>)
    requires StrictlyIncreasing(ys) && x !in ys
    ensures StrictlyIncreasing(r) && Elements(r) == Elements(ys) + {x}
    ensures |r| == |ys| + 1
    ensures ys != [] ==> r[0] == x || r[0] == ys[0]
    ensures ys == [] ==> r[0] == x
  {
    if ys == [] then [x]
    else if x < ys[0] then
      assert Elements([x] + ys) == Elements(ys) + {x} by { assert ys == ([x] + ys)[1..]; }
      [x] + ys
    else
      var rest := Insert(x, ys[1..]);
      assert Elements(ys) == {ys[0]} + Elements(ys[1..]) by { assert ys == [ys[0]] + ys[1..]; }
      [ys[0]] + rest
  }

  method Sorted(xs: set<int>) returns (r: seq<int>)
    ensures StrictlyIncreasing(r) && Elements(r) == xs && |r| == |xs|
  {
    r := [];
    var rest := xs;
    while |rest| > 0
      invariant rest <= xs && StrictlyIncreasing(r) && Elements(r) == xs - rest && |r| == |xs| - |rest|
    {
      var x := Pick(rest);
      assert x !in Elements(r);
      r := Insert(x, r);
      rest := rest - {x};
    }
  }

  // ---------------------------------------------------------------------
  // Processing rows one at a time
  // ---------------------------------------------------------------------

  lemma FactsUnaffected(s: Tables, done: map<nat, Change>, now: int, d: nat)
    requires done.Keys <= s.delegations.Keys && d in s.delegations && d !in done
    ensures var t := Transition(s, done, now);
            && d in t.delegations && t.delegations[d] == s.delegations[d] && (FactsHold(t, d) <==> FactsHold(s, d))
            && (AmbiguousParty(t, s.delegations[d]) <==> AmbiguousParty(s, s.delegations[d]))
  {
    TransitionApplicationsOf(s, done, now, d);
    hide ApplicationsOf;
  }

  /** A change for one more delegation, judged on the tables as the previous changes left them. */
  lemma DueUnaffected(s: Tables, done: map<nat, Change>, now: int, d: nat)
    requires Consistent(s) && done.Keys <= s.delegations.Keys && Lawful(s, done, now)
    requires d in s.delegations && d !in done && s.delegations[d].status == Scheduled
    ensures var t := Transition(s, done, now);
            && d in t.delegations && t.delegations[d] == s.delegations[d]
            && Consistent(t)
            && (Activatable(t, d, now) <==> Activatable(s, d, now))
            && (AmbiguousParty(t, s.delegations[d]) <==> AmbiguousParty(s, s.delegations[d]))
  {
    hide Acceptable, ConflictRows, Lawful, Consistent, FactsHold, Transition, AmbiguousParty;
    FactsUnaffected(s, done, now, d);
    TransitionKeepsConsistent(s, done, now);
    ActivatableIff(s, d, now);
    ActivatableIff(Transition(s, done, now), d, now);
  }

  /** A loop over changed delegations, part of the way through: the rows in rest are still to come. */
  ghost function Without(all: map<nat, Change>, rest: set<nat>): map<nat, Change> {
    map d | d in all && d !in rest :: all[d]
  }

  ghost function Processed(s: Tables, all: map<nat, Change>, rest: set<nat>, now: int): Tables
    requires all.Keys <= s.delegations.Keys
  {
    Transition(s, Without(all, rest), now)
  }

  lemma NothingProcessed(s: Tables, all: map<nat, Change>, now: int)
    requires all.Keys <= s.delegations.Keys
    ensures Processed(s, all, all.Keys, now) == s
  {
    assert Without(all, all.Keys) == map[];
    hide Transition;
    NoChange(s, now);
  }

  lemma AllProcessed(s: Tables, all: map<nat, Change>, now: int)
    requires all.Keys <= s.delegations.Keys
    ensures Processed(s, all, {}, now) == Transition(s, all, now)
  {
    assert Without(all, {}) == all;
  }

  /** The next row of the loop is as it was before the loop. */
  lemma NextRowUntouched(s: Tables, all: map<nat, Change>, rest: set<nat>, d: nat, now: int)
    requires all.Keys <= s.delegations.Keys && d in rest && d in all
    ensures d in Processed(s, all, rest, now).delegations
    ensures Processed(s, all, rest, now).delegations[d] == s.delegations[d]
  {
  }

  lemma OneMoreProcessed(s: Tables, all: map<nat, Change>, rest: set<nat>, d: nat, now: int)
    requires all.Keys <= s.delegations.Keys && d in rest && d in all
    requires d in Processed(s, all, rest, now).delegations
    ensures Transition(Processed(s, all, rest, now), map[d := all[d]], now) == Processed(s, all, rest - {d}, now)
  {
    hide Transition;
    TransitionCompose(s, Without(all, rest), map[d := all[d]], now);
    assert Without(all, rest) + map[d := all[d]] == Without(all, rest - {d});
  }

  // ---------------------------------------------------------------------
  // The database
  // ---------------------------------------------------------------------

  datatype CreateOutcome =
    | Existing(id: nat)
    | Rejected(problems: seq<Problem>)
    | CreateRaised
    | Created(id: nat)

  /** What a delegate may do with a delegated application. */
  const DELEGATED_ACTIONS := {
    "read", "upload_document", "request_policy_email", "request_policy_telegram", "request_cancellation",
    "request_change"}

  /** An idempotency key that the lookup before creation pays attention to. */
  predicate Truthy(key: Option<string>) {
    key.Some? && key.value != ""
  }

  ghost function ChosenApplications(
    s: Tables, actor: int, company: int, applicationIds: seq<int>, allActive: bool): set<int>
  {
    if allActive
    then set a | a in s.applications && s.applications[a].companyId == company
                 && ActiveApplicationOf(s.applications[a], actor)
    else Elements(applicationIds)
  }

  /**
    What an attempt at creation that found no existing delegation comes to.  An acceptable request
    can still fail for an empty key, which skips the lookup but not the unique constraint.
   */
  ghost predicate CreationResult(
    s: Tables, t: Tables, r: DelegationRequest, key: Option<string>, apps: seq<int>, firstItem: nat, now: int,
    result: CreateOutcome)
  {
    match result
    case Existing(_) => false
    case CreateRaised =>
      || ValidationRaises(s, r, Elements(apps), None)
      || (Acceptable(s, r, Elements(apps), now, None) && key == Some("") && KeyTaken(s, r.delegatorId, key))
    case Rejected(problems) =>
      && !ValidationRaises(s, r, Elements(apps), None)
      && problems == AllProblems(s, r, apps, now, None) && !Acceptable(s, r, Elements(apps), now, None)
    case Created(id) =>
      && !ValidationRaises(s, r, Elements(apps), None)
      && MayCreate(s, r, key, apps, id, firstItem, now)
      && t == Inserted(s, r, key, apps, id, firstItem, now)
  }

  /** Each way for a creation to end has its exact condition: the three below exclude each other. */
  lemma CreationOutcomeIff(
    s: Tables, t: Tables, r: DelegationRequest, key: Option<string>, apps: seq<int>, firstItem: nat, now: int,
    result: CreateOutcome)
    requires CreationResult(s, t, r, key, apps, firstItem, now, result)
    ensures result.CreateRaised? <==>
              ValidationRaises(s, r, Elements(apps), None)
              || (Acceptable(s, r, Elements(apps), now, None) && key == Some("") && KeyTaken(s, r.delegatorId, key))
    ensures result.Rejected? <==>
              !ValidationRaises(s, r, Elements(apps), None) && !Acceptable(s, r, Elements(apps), now, None)
    ensures result.Created? <==>
              !ValidationRaises(s, r, Elements(apps), None) && Acceptable(s, r, Elements(apps), now, None)
              && !(key == Some("") && KeyTaken(s, r.delegatorId, key))
  {
    hide ValidationRaises, Acceptable, KeyTaken, AllProblems, Inserted;
  }

  /**
    Once a user has created a delegation with the empty key, every later acceptable request of that
    user with the empty key raises, whatever happens in between.
   */
  lemma EmptyKeyRaisesEverAfter(
    s: Tables, clock: int, first: DelegationRequest, apps: seq<int>, id: nat, item: nat, now: int, run: seq<TimedStep>,
    t: Tables, r: DelegationRequest, again: seq<int>, firstItem: nat, later: int, result: CreateOutcome)
    requires Inv(s, clock) && clock <= now && MayCreate(s, first, Some(""), apps, id, item, now) && InOrder(now, run)
    requires r.delegatorId == first.delegatorId
    requires var u := Run(Inserted(s, first, Some(""), apps, id, item, now), run);
             Acceptable(u, r, Elements(again), later, None)
             && CreationResult(u, t, r, Some(""), again, firstItem, later, result)
    ensures result == CreateRaised
  {
    hide *;
    KeyStaysTaken(s, clock, first, Some(""), apps, id, item, now, run);
    var u := Run(Inserted(s, first, Some(""), apps, id, item, now), run);
    CreationOutcomeIff(u, t, r, Some(""), again, firstItem, later, result);
    ResultCases(u, t, r, Some(""), again, firstItem, later, result);
  }

  lemma KeyStaysTaken(
    s: Tables, clock: int, r: DelegationRequest, key: Option<string>, apps: seq<int>, id: nat, item: nat, now: int,
    run: seq<TimedStep>)
    requires Inv(s, clock) && clock <= now && MayCreate(s, r, key, apps, id, item, now) && InOrder(now, run)
        && key.Some?
    ensures KeyTaken(Run(Inserted(s, r, key, apps, id, item, now), run), r.delegatorId, key)
  {
    var u := Inserted(s, r, key, apps, id, item, now);
    CreateKeepsInv(s, r, key, apps, id, item, clock, now);
    assert id in KeyHolders(u, r.delegatorId, key) by { hide MayCreate, Inv; }
    hide Inv, Run, InOrder, MayCreate, Inserted, KeyHolders;
    IdempotencyKey(u, now, run, r.delegatorId, key);
  }

  lemma Matching(s: Tables)
    requires Consistent(s)
    ensures ItemsMatch(s)
  {
  }

  lemma ResultCases(
    s: Tables, t: Tables, r: DelegationRequest, key: Option<string>, apps: seq<int>, firstItem: nat, now: int,
    result: CreateOutcome)
    requires CreationResult(s, t, r, key, apps, firstItem, now, result)
    ensures !result.Existing?
  {
  }

  class Database {
    var delegations: map<nat, Delegation>
    var items: map<nat, Item>
    var notifications: seq<Notification>
    var applications: map<int, Application>
    var users: map<int, User>
    var roles: set<ActiveRole>
    var sessions: map<nat, UserSession>
    var nextDelegation: nat
    var nextItem: nat

    ghost function View(): Tables
      reads this
    {
      Tables(delegations, items, (set n | n in notifications), applications, users, roles, sessions)
    }

    /** Serial ids are ahead of the rows, and uq_delegation_notification_once holds. */
    ghost predicate Valid()
      reads this
    {
      ValidRows(delegations, items, notifications)
    }

    ghost predicate ValidRows(ds: map<nat, Delegation>, its: map<nat, Item>, ns: seq<Notification>)
      reads this`nextDelegation, this`nextItem
    {
      && (forall d | d in ds :: d < nextDelegation)
      && (forall i | i in its :: i < nextItem)
      && (forall i, j | 0 <= i < j < |ns| :: ns[i] != ns[j])
    }

    constructor ()
      ensures Valid() && View() == Tables(map[], map[], {}, map[], map[], {}, map[])
    {
      delegations, items, notifications := map[], map[], [];
      applications, users, roles, sessions := map[], map[], {}, map[];
      nextDelegation, nextItem := 1, 1;
    }

    method RevokeSessionsForUser(user: int, now: int)
      requires Valid()
      modifies this`sessions
      ensures Valid()
      ensures View() == old(View()).(sessions := RevokedSessions(old(sessions), {user}, now))
      ensures NoLiveSession(View(), user)
      ensures forall k | k in old(sessions) && (old(sessions)[k].userId != user || old(sessions)[k].revokedAt.Some?) ::
                k in sessions && sessions[k] == old(sessions)[k]
    {
      sessions := RevokedSessions(sessions, {user}, now);
    }

    method QueueNotifications(d: nat, event: NotificationEvent, recipients: set<int>)
      requires Valid()
      modifies this`notifications
      ensures Valid()
      ensures View() == old(View()).(
        notifications := old(View()).notifications + (set u | u in recipients :: Notification(d, event, u)))
    {
      var rest := recipients;
      while |rest| > 0
        invariant Valid() && rest <= recipients
        invariant forall n :: n in notifications <==>
          n in old(notifications) || (exists u | u in recipients - rest :: n == Notification(d, event, u))
      {
        var u := Pick(rest);
        if Notification(d, event, u) !in notifications {
          notifications := notifications + [Notification(d, event, u)];
        }
        rest := rest - {u};
      }
      assert View().notifications
             == old(View()).notifications + set u | u in recipients :: Notification(d, event, u);
    }

    /** The checks of a request, in the order they are made; the list is built by appending. */
    method ValidateDelegationRequest(r: DelegationRequest, apps: seq<int>, now: int, ignore: Option<nat>)
      returns (v: Validation)
      ensures v.Raised? <==> ValidationRaises(View(), r, Elements(apps), ignore)
      ensures v.Checked? ==> v.problems == AllProblems(View(), r, apps, now, ignore)
      ensures v.Checked? ==> (v.problems == [] <==> Acceptable(View(), r, Elements(apps), now, ignore))
    {
      hide Acceptable, HeaderProblems, ApplicationProblems;
      NoProblemsIffAcceptable(View(), r, apps, now, ignore);
      v := CheckHeader(r, now);
      if v.Raised? {
        return;
      }
      if apps == [] {
        return Checked(v.problems + [EmptySelection]);
      }
      v := CheckSelection(r, apps, ignore, v.problems);
    }

    method CheckHeader(r: DelegationRequest, now: int) returns (v: Validation)
      ensures v.Raised? <==>
              AmbiguousRole(View(), r.delegatorId, r.companyId) || AmbiguousRole(View(), r.delegateId, r.companyId)
      ensures v.Checked? ==> v.problems == HeaderProblems(View(), r, now)
    {
      hide HasDelegationRole, AmbiguousRole, ActiveClient, When;
      var problems := When(r.delegatorId == r.delegateId, DelegatorEqualsDelegate);
      problems := problems + When(r.startsAt < now - FIVE_MINUTES, StartsAtInPast);
      problems := problems + When(r.endsAt <= r.startsAt, EndsAtBeforeStartsAt);
      problems := problems + When(r.endsAt - r.startsAt > MAX_PERIOD, MaxPeriodExceeded);
      problems := problems + When(!IsActiveClient(r.delegatorId), DelegatorNotActive);
      problems := problems + When(!IsActiveClient(r.delegateId), DelegateNotActive);
      var delegatorRoles := ActiveCompanyRoles(r.delegatorId, r.companyId);
      if |delegatorRoles| > 1 { return Raised; }
      problems := problems + When(delegatorRoles == {}, DelegatorCompanyAccessDenied);
      var delegateRoles := ActiveCompanyRoles(r.delegateId, r.companyId);
      if |delegateRoles| > 1 { return Raised; }
      problems := problems + When(delegateRoles == {}, DelegateNotAllowed);
      v := Checked(problems);
    }

    method CheckSelection(r: DelegationRequest, apps: seq<int>, ignore: Option<nat>, before: seq<Problem>)
      returns (v: Validation)
      ensures v.Raised? <==>
              exists a | a in Elements(apps) :: a in applications && |ConflictRows(View(), a, ignore)| > 1
      ensures v.Checked? ==> v.problems == before + SelectionProblems(View(), r, apps, ignore)
    {
      hide ConflictRows, ApplicationProblems;
      var problems := before;
      for k := 0 to |apps|
        invariant problems == before + SelectionProblems(View(), r, apps[..k], ignore)
        invariant forall j | 0 <= j < k :: !(apps[j] in applications && |ConflictRows(View(), apps[j], ignore)| > 1)
      {
        assert apps[..k + 1][..k] == apps[..k];
        v := CheckApplication(r, apps[k], ignore);
        if v.Raised? {
          assert apps[k] in Elements(apps);
          return;
        }
        problems := problems + v.problems;
      }
      assert apps[..|apps|] == apps;
      v := Checked(problems);
    }

    method CheckApplication(r: DelegationRequest, app: int, ignore: Option<nat>) returns (v: Validation)
      ensures v.Raised? <==> app in applications && |ConflictRows(View(), app, ignore)| > 1
      ensures v.Checked? ==> v.problems == ApplicationProblems(View(), r, app, ignore)
    {
      if app !in applications {
        return Checked([ApplicationNotFound(app)]);
      }
      var row := applications[app];
      var problems: seq<Problem> := [];
      if row.companyId != r.companyId { problems := problems + [DifferentCompany(app)]; }
      if row.assignedTo != Some(r.delegatorId) { problems := problems + [NotCurrentResponsible(app)]; }
      if row.status.Final() { problems := problems + [FinalStatus(app)]; }
      var conflicts := Conflicts(app, ignore);
      if |conflicts| > 1 {
        return Raised;
      }
      if conflicts != {} { problems := problems + [DelegationConflict(app)]; }
      v := Checked(problems);
    }

    predicate IsActiveClient(user: int)
      reads this
      ensures IsActiveClient(user) <==> ActiveClient(View(), user)
    {
      user in users && users[user].status == ActiveUser && users[user].userType == Client
    }

    function ActiveCompanyRoles(user: int, company: int): (found: set<RoleCode>)
      reads this
      ensures found != {} <==> HasDelegationRole(View(), user, company)
      ensures |found| > 1 <==> AmbiguousRole(View(), user, company)
    {
      var found := set role | role in {ClientExecutor, ClientAdmin} && ActiveRole(user, company, role) in roles;
      assert AmbiguousRole(View(), user, company) ==> found == {ClientExecutor, ClientAdmin};
      assert !AmbiguousRole(View(), user, company) && HasDelegationRole(View(), user, company) ==>
          found == {ClientExecutor} || found == {ClientAdmin};
      assert !HasDelegationRole(View(), user, company) ==> found == {};
      found
    }

    function Conflicts(app: int, ignore: Option<nat>): (found: set<nat>)
      reads this
      ensures found == ConflictRows(View(), app, ignore)
    {
      set i | i in items && items[i].applicationId == app && items[i].status.Open()
              && items[i].delegationId in delegations && delegations[items[i].delegationId].status.Open()
              && (ignore.None? || items[i].delegationId != ignore.value)
    }

    /** The access query: a delegation id, and the only one there can be. */
    method HasActiveDelegatedAccess(user: int, app: int, action: string, now: int) returns (found: Option<nat>)
      requires Consistent(View())
      ensures found.Some? <==>
              action in DELEGATED_ACTIONS
              && exists i | i in items && items[i].applicationId == app && items[i].delegationId in delegations ::
                   && delegations[items[i].delegationId].delegateId == user
                   && delegations[items[i].delegationId].status == Active
                   && delegations[items[i].delegationId].startsAt <= now < delegations[items[i].delegationId].endsAt
      ensures found.Some? ==>
                && found.value in delegations && delegations[found.value].delegateId == user
                && delegations[found.value].status == Active
                && delegations[found.value].startsAt <= now < delegations[found.value].endsAt
                && app in ApplicationsOf(View(), found.value)
      ensures action in DELEGATED_ACTIONS ==>
        forall i | i in AccessRows(View(), user, app, now) :: found == Some(items[i].delegationId)
    {
      hide Consistent;
      if action !in DELEGATED_ACTIONS { return None; }
      var rows := set i | i in items && items[i].applicationId == app && items[i].status == Active
                          && items[i].delegationId in delegations
                          && GrantsAccess(delegations[items[i].delegationId], user, now);
      assert rows == AccessRows(View(), user, app, now);
      assert ItemsMatch(View()) by { Matching(View()); }
      AccessIff(View(), user, app, now);
      SingleRowQueries(View(), app, user, user, None, now);
      hide AccessRows, GrantsAccess, ApplicationsOf, ItemsMatch;
      if |rows| > 0 {
        var i := Pick(rows);
        AccessRow(View(), user, app, now, i);
        Singleton(rows, i);
        found := Some(items[i].delegationId);
      } else {
        found := None;
      }
    }

    // -------------------------------------------------------------------
    // Changing the status of one delegation
    // -------------------------------------------------------------------

    /** Update the items of one delegation row by row. */
    method ChangeItems(d: nat, c: Change, now: int)
      modifies this`items
      ensures items == ChangedItems(old(items), map[d := c], now)
    {
      var rest := set i | i in items && items[i].delegationId == d;
      while |rest| > 0
        invariant items.Keys == old(items).Keys
        invariant forall i | i in rest :: i in items && items[i] == old(items)[i] && items[i].delegationId == d
        invariant forall i | i in items && i !in rest :: items[i] == ChangedItems(old(items), map[d := c], now)[i]
      {
        var i := Pick(rest);
        items := items[i := ChangedItem(items[i], c, now)];
        rest := rest - {i};
      }
    }

    /** The statements shared by activation and closing: rows, items, notifications, sessions. */
    method ChangeDelegation(d: nat, c: Change, now: int)
      requires Valid() && d in delegations
      modifies this`delegations, this`items, this`notifications, this`sessions
      ensures Valid()
      ensures View() == Transition(old(View()), map[d := c], now)
    {
      var row := delegations[d];
      delegations := delegations[d := ChangedDelegation(row, c, now)];
      ChangeItems(d, c, now);
      QueueNotifications(d, EventOf(c), {row.delegatorId, row.delegateId});
      RevokeSessionsForUser(row.delegateId, now);
      SingleTransition(old(View()), d, c, now);
      assert View().notifications == old(View()).notifications + PartyNotifications(d, row, EventOf(c));
    }

    method ExpireOrTerminateDelegation(id: nat, status: DelegationStatus, reason: string, actor: Option<int>, now: int)
      returns (changed: bool)
      requires Valid()
      modifies this`delegations, this`items, this`notifications, this`sessions
      ensures Valid()
      ensures changed == OpenDelegation(old(View()), id)
      ensures View() == EndOne(old(View()), id, Close(status, reason, actor), now)
    {
      if id !in delegations || !delegations[id].status.Open() {
        return false;
      }
      ChangeDelegation(id, Close(status, reason, actor), now);
      changed := true;
    }

    // -------------------------------------------------------------------
    // Ending every delegation of a user
    // -------------------------------------------------------------------

    function OpenNaming(user: int): set<nat>
      reads this
    {
      set d | d in delegations && delegations[d].status.Open() && Names(delegations[d], user)
    }

    method TerminateDelegationsForUser(user: int, reason: string, actor: Option<int>, now: int) returns (count: nat)
      requires Valid()
      modifies this`delegations, this`items, this`notifications, this`sessions
      ensures Valid()
      ensures count == |ClosingFor(old(View()), user, reason, actor)|
      ensures View() == EndForUser(old(View()), user, reason, actor, now)
    {
      ghost var s := View();
      ghost var all := ClosingFor(s, user, reason, actor);
      var rest := OpenNaming(user);
      count := 0;
      assert rest == all.Keys && forall d | d in all ::
          OpenDelegation(s, d) && all[d] == Close(Terminated, reason, actor);
      NothingProcessed(s, all, now);
      hide Processed, Transition, ClosingFor, Valid, View, Names;
      while |rest| > 0
        invariant Valid() && rest <= all.Keys
        invariant count == |all| - |rest|
        invariant View() == Processed(s, all, rest, now)
      {
        var d := Pick(rest);
        NextRowUntouched(s, all, rest, d, now);
        OneMoreProcessed(s, all, rest, d, now);
        var closed := ExpireOrTerminateDelegation(d, Terminated, reason, actor, now);
        if closed { count := count + 1; }
        rest := rest - {d};
      }
      assert rest == {};
      AllProcessed(s, all, now);
    }

    // -------------------------------------------------------------------
    // The worker
    // -------------------------------------------------------------------

    /** One scheduled delegation whose start has come: revalidate, then activate or fail it. */
    method ProcessDue(d: nat, now: int) returns (raised: bool, activated: bool)
      requires Valid() && Consistent(View()) && d in delegations && Due(delegations[d], now)
      modifies this`delegations, this`items, this`notifications, this`sessions
      ensures Valid()
      ensures raised <==> AmbiguousParty(old(View()), old(delegations)[d])
      ensures raised ==> View() == old(View())
      ensures !raised ==> View() == Transition(old(View()), map[d := DueChange(old(View()), d, now)], now)
      ensures !raised ==> activated == Activatable(old(View()), d, now)
    {
      hide Acceptable, Consistent, Transition, ConflictRows;
      var row := delegations[d];
      var apps := Sorted(set i | i in items && items[i].delegationId == d :: items[i].applicationId);
      assert Elements(apps) == ApplicationsOf(View(), d);
      forall a ensures |ConflictRows(View(), a, Some(d))| <= 1 {
        SingleRowQueries(View(), a, 0, 0, Some(d), now);
      }
      var v := ValidateDelegationRequest(RequestOf(row), apps, now, Some(d));
      if v.Raised? {
        return true, false;
      }
      activated := row.endsAt > now && v.problems == [];
      if activated {
        ChangeDelegation(d, Activate, now);
      } else {
        var closed := ExpireOrTerminateDelegation(d, Failed, "activation_validation_failed", None, now);
      }
      raised := false;
    }

    /** The same inside a tick, relative to the tables before it. */
    method ProcessNext(ghost s: Tables, ghost all: map<nat, Change>, ghost rest: set<nat>, d: nat, now: int)
      returns (raised: bool, activated: bool)
      requires Valid() && Consistent(s) && all == TickChanges(s, now)
      requires View() == Processed(s, all, rest, now)
      requires d in rest && d in s.delegations && Due(s.delegations[d], now)
      modifies this`delegations, this`items, this`notifications, this`sessions
      ensures Valid()
      ensures raised <==> RaisesTick(s, d, now)
      ensures !raised ==> View() == Processed(s, all, rest - {d}, now)
      ensures !raised ==> (activated <==> d in Activations(s, now))
    {
      DueReady(s, all, rest, d, now);
      OneMoreProcessed(s, all, rest, d, now);
      assert delegations == View().delegations;
      hide Consistent, Processed, Transition, TickChanges, Activations, Activatable, RaisesTick, AmbiguousParty;
      raised, activated := ProcessDue(d, now);
    }

    function DueIds(now: int): set<nat>
      reads this
    {
      set d | d in delegations && Due(delegations[d], now)
    }

    function ExpiringIds(now: int): set<nat>
      reads this
    {
      set d | d in delegations && Expiring(delegations[d], now)
    }

    /** First loop of the worker; a lookup that raises leaves it in the middle. */
    method ActivateDue(now: int) returns (raised: bool, activated: nat)
      requires Valid() && Consistent(View())
      modifies this`delegations, this`items, this`notifications, this`sessions
      ensures Valid()
      ensures raised <==> TickRaises(old(View()), now)
      ensures !raised ==> View() == Processed(old(View()), TickChanges(old(View()), now),
          Expirations(old(View()), now), now)
      ensures !raised ==> activated == |Activations(old(View()), now)|
    {
      hide Consistent, Processed, Transition, TickChanges, Activations, Valid, Activatable, RaisesTick, AmbiguousParty;
      ghost var s, all, later := View(), TickChanges(View(), now), Expirations(View(), now);
      ghost var activations := Activations(s, now);
      var rest := DueIds(now);
      activated := 0;
      TickStart(s, now, rest, later);
      hide View;
      while |rest| > 0
        invariant Valid() && rest <= all.Keys && rest !! later
        invariant forall d | d in rest :: d in s.delegations && Due(s.delegations[d], now)
        invariant forall d | RaisesTick(s, d, now) :: d in rest
        invariant activated == |activations - rest|
        invariant View() == Processed(s, all, rest + later, now)
      {
        var d := Pick(rest);
        var activatedNow: bool;
        raised, activatedNow := ProcessNext(s, all, rest + later, d, now);
        if raised {
          return;
        }
        OneFewerOfTwo(rest, later, d);
        OneFewer(activations, rest, d);
        if activatedNow {
          activated := activated + 1;
        }
        rest := rest - {d};
      }
      NoneLeft(activations, rest, later);
      raised := false;
    }

    /** Second loop of the worker, over the delegations that are active once the first has run. */
    method ExpireActive(ghost s: Tables, now: int) returns (expired: nat)
      requires Valid() && Consistent(s)
      requires View() == Processed(s, TickChanges(s, now), Expirations(s, now), now)
      modifies this`delegations, this`items, this`notifications, this`sessions
      ensures Valid()
      ensures View() == Tick(s, now) && expired == |Expirations(s, now)|
    {
      hide Consistent, Processed, Transition, TickChanges, Valid, Expirations;
      ghost var all := TickChanges(s, now);
      StillExpiring(s, now);
      var rest := ExpiringIds(now);
      assert rest == set d | d in View().delegations && Expiring(View().delegations[d], now);
      expired := 0;
      hide View;
      while |rest| > 0
        invariant Valid() && rest <= Expirations(s, now)
        invariant expired == |Expirations(s, now)| - |rest|
        invariant View() == Processed(s, all, rest, now)
      {
        var d := Pick(rest);
        ExpiringReady(s, rest, d, now);
        OneMoreProcessed(s, all, rest, d, now);
        var closed := ExpireOrTerminateDelegation(d, Expired, "ends_at_reached", None, now);
        if closed { expired := expired + 1; }
        rest := rest - {d};
      }
      assert rest == {};
      AllProcessed(s, all, now);
    }

    /**
      The periodic worker.  The row-by-row run, which revalidates against tables it is changing,
      amounts to one simultaneous verdict on every delegation; if a lookup raises, to nothing.
     */
    method RunDelegationWorker(now: int) returns (raised: bool, activated: nat, expired: nat)
      requires Valid() && Consistent(View())
      modifies this`delegations, this`items, this`notifications, this`sessions
      ensures Valid()
      ensures raised <==> TickRaises(old(View()), now)
      ensures View() == Apply(old(View()), TickStep, now)
      ensures !raised ==> activated == |Activations(old(View()), now)| && expired == |Expirations(old(View()), now)|
    {
      hide Consistent, Processed, Transition, TickChanges, Activations, Tick, TickRaises;
      ghost var s := View();
      var delegations0, items0, notifications0, sessions0 := delegations, items, notifications, sessions;
      expired := 0;
      raised, activated := ActivateDue(now);
      if raised {
        delegations, items, notifications, sessions := delegations0, items0, notifications0, sessions0;
        assert View() == s;
      } else {
        hide View;
        expired := ExpireActive(s, now);
      }
    }

    // -------------------------------------------------------------------
    // Creation
    // -------------------------------------------------------------------

    function RowsWithKey(user: int, key: Option<string>): (found: set<nat>)
      reads this
      ensures found == KeyHolders(View(), user, key)
      ensures key.Some? ==> (|found| > 0 <==> KeyTaken(View(), user, key))
    {
      set d | d in delegations && delegations[d].createdBy == user && delegations[d].idempotencyKey == key
    }

    method SelectApplications(actor: int, company: int, applicationIds: seq<int>, allActive: bool)
      returns (selected: seq<int>)
      ensures StrictlyIncreasing(selected)
      ensures Elements(selected) == ChosenApplications(View(), actor, company, applicationIds, allActive)
    {
      if allActive {
        selected := Sorted(set a | a in applications && applications[a].companyId == company
                                   && ActiveApplicationOf(applications[a], actor));
      } else {
        selected := Sorted(set a | a in applicationIds);
      }
    }

    /** Insert one item for each selected application. */
    method InsertItems(d: nat, apps: seq<int>, status: DelegationStatus, now: int)
      requires forall i | i in items :: i < nextItem
      modifies this`items, this`nextItem
      ensures items == old(items) + NewItems(d, old(nextItem), apps, status, now)
      ensures forall i | i in items :: i < nextItem
    {
      var first := nextItem;
      assert items == old(items) + NewItems(d, first, apps[..0], status, now);
      hide NewItems, NewItem;
      for k := 0 to |apps|
        invariant nextItem == first + k
        invariant items == old(items) + NewItems(d, first, apps[..k], status, now)
        invariant forall i | i in items :: i < nextItem
      {
        OneMoreItem(d, first, apps, k, status, now);
        PutAfterMerge(old(items), NewItems(d, first, apps[..k], status, now), nextItem,
            NewItem(d, apps[k], status, now));
        items := items[nextItem := NewItem(d, apps[k], status, now)];
        nextItem := nextItem + 1;
      }
      assert apps[..|apps|] == apps;
    }

    /**
      Create a delegation, unless the caller's idempotency key already names one or the request
      is not acceptable.  A refused or failing request leaves every table as it was.
     */
    method CreateDelegation(
      actor: int, delegate: int, company: int, applicationIds: seq<int>, allActive: bool,
      startsAt: int, endsAt: int, key: Option<string>, now: int)
      returns (result: CreateOutcome, selected: seq<int>)
      requires Valid() && Consistent(View())
      modifies this
      ensures Valid()
      ensures result.Created? || View() == old(View())
      ensures result.Existing? <==> Truthy(key) && KeyTaken(old(View()), actor, key)
      ensures result.Existing? ==> KeyHolders(old(View()), actor, key) == {result.id}
      ensures !result.Existing? ==>
        StrictlyIncreasing(selected)
        && Elements(selected) == ChosenApplications(old(View()), actor, company, applicationIds, allActive)
        && CreationResult(old(View()), View(), DelegationRequest(actor, delegate, company, startsAt, endsAt),
                          key, selected, old(nextItem), now, result)
    {
      hide CreationResult, StrictlyIncreasing, ChosenApplications;
      selected := [];
      if Truthy(key) {
        var existing := RowsWithKey(actor, key);
        if |existing| > 0 {
          var d := Pick(existing);
          assert existing == {d} by { assert KeysUnique(View()); }
          return Existing(d), [];
        }
      }
      hide Consistent, KeyTaken, View;
      selected := SelectApplications(actor, company, applicationIds, allActive);
      result := ValidateAndInsert(DelegationRequest(actor, delegate, company, startsAt, endsAt), key, selected, now);
    }

    method ValidateAndInsert(r: DelegationRequest, key: Option<string>, apps: seq<int>, now: int)
      returns (result: CreateOutcome)
      requires Valid() && StrictlyIncreasing(apps)
      requires Truthy(key) ==> !KeyTaken(View(), r.delegatorId, key)
      modifies this
      ensures Valid() && !result.Existing?
      ensures result.Created? || View() == old(View())
      ensures CreationResult(old(View()), View(), r, key, apps, old(nextItem), now, result)
    {
      hide Acceptable, ValidationRaises, AllProblems, KeyTaken, Inserted, StrictlyIncreasing;
      var v := ValidateDelegationRequest(r, apps, now, None);
      if v.Raised? {
        return CreateRaised;
      }
      if v.problems != [] {
        return Rejected(v.problems);
      }
      if key.Some? && |RowsWithKey(r.delegatorId, key)| > 0 {
        return CreateRaised;
      }
      assert !KeyTaken(View(), r.delegatorId, key) by { KeyNeeded(View(), r.delegatorId, key); }
      assert FreshIds(View(), nextDelegation, nextItem);
      hide View, Valid;
      result := Created(nextDelegation);
      InsertDelegation(r, key, apps, now);
    }

    method InsertDelegation(r: DelegationRequest, key: Option<string>, apps: seq<int>, now: int)
      requires Valid()
      modifies this
      ensures Valid()
      ensures View() == Inserted(old(View()), r, key, apps, old(nextDelegation), old(nextItem), now)
    {
      var d := nextDelegation;
      var row := NewRow(r, key, now);
      BothParties(d, row, DelegationCreated);
      BothParties(d, row, DelegationActivated);
      hide PartyNotifications, NewItems, RevokedSessions, Valid;
      InsertRows(row, apps, now);
      QueueNotifications(d, DelegationCreated, {row.delegatorId, row.delegateId});
      if row.status == Active {
        QueueNotifications(d, DelegationActivated, {row.delegatorId, row.delegateId});
        RevokeSessionsForUser(row.delegateId, now);
      }
    }

    method InsertRows(row: Delegation, apps: seq<int>, now: int)
      requires Valid()
      modifies this`delegations, this`nextDelegation, this`items, this`nextItem
      ensures Valid()
      ensures View() == old(View()).(
        delegations := old(delegations)[old(nextDelegation) := row],
        items := old(items) + NewItems(old(nextDelegation), old(nextItem), apps, row.status, now))
    {
      var d := nextDelegation;
      delegations := delegations[d := row];
      nextDelegation := nextDelegation + 1;
      hide NewItems;
      InsertItems(d, apps, row.status, now);
    }

    // -------------------------------------------------------------------
    // Blocking a user
    // -------------------------------------------------------------------

    function ActiveApplicationIds(user: int): (found: set<int>)
      reads this
      ensures found == ActiveApplications(View(), user) && found <= applications.Keys
    {
      set a | a in applications && ActiveApplicationOf(applications[a], user)
    }

    /** Check the new responsible user against the company of each application in turn; None lets it pass. */
    method EnsureAssigneeAllowed(user: int, apps: set<int>) returns (failure: Option<BlockOutcome>)
      requires apps <= applications.Keys
      ensures failure.None? <==> forall a | a in apps :: AssigneeAllowed(View(), user, applications[a].companyId)
      ensures failure.Some? ==> AssigneeFailure(View(), user, apps, failure.value)
    {
      hide AmbiguousRole, HasDelegationRole;
      var rest := apps;
      while |rest| > 0
        invariant rest <= apps
        invariant forall a | a in apps - rest :: AssigneeAllowed(View(), user, applications[a].companyId)
      {
        var a := Pick(rest);
        assert AssigneeAllowed(View(), user, applications[a].companyId) <==>
          user in users && users[user].status == ActiveUser
              && |ActiveCompanyRoles(user, applications[a].companyId)| == 1;
        if user !in users || users[user].status != ActiveUser { return Some(AssigneeRejected); }
        var found := ActiveCompanyRoles(user, applications[a].companyId);
        if |found| > 1 { return Some(AssigneeLookupRaised); }
        if |found| == 0 { return Some(AssigneeRejected); }
        rest := rest - {a};
      }
      failure := None;
    }

    /** The checks that may stop a reassignment; None lets it through. */
    method RefuseReassignment(action: Reassignment, apps: set<int>) returns (refusal: Option<BlockOutcome>)
      requires apps <= applications.Keys
      ensures action.NoAction? || action.UnknownAction? ==> refusal == Some(ReassignmentRequired)
      ensures action.RequireAssignment? ==> refusal == None
      ensures action.AssignToUser? && action.newId.None? ==> refusal == Some(AssigneeRejected)
      ensures action.AssignToUser? && action.newId.Some? ==>
        && (refusal.Some? ==> AssigneeFailure(View(), action.newId.value, apps, refusal.value))
        && (refusal.None? <==> forall a | a in apps ::
                                 AssigneeAllowed(View(), action.newId.value, applications[a].companyId))
    {
      hide AssigneeAllowed;
      match action
      case AssignToUser(newId) =>
        if newId.None? { return Some(AssigneeRejected); }
        refusal := EnsureAssigneeAllowed(newId.value, apps);
      case RequireAssignment => refusal := None;
      case NoAction => refusal := Some(ReassignmentRequired);
      case UnknownAction => refusal := Some(ReassignmentRequired);
    }

    /** End the target's delegations and check the reassignment; a refusal rolls the ending back. */
    method EndAndCheck(actor: int, target: int, action: Reassignment, apps: set<int>, now: int)
      returns (refusal: Option<BlockOutcome>)
      requires Valid() && apps <= applications.Keys
      modifies this`delegations, this`items, this`notifications, this`sessions
      ensures Valid()
      ensures View() == if refusal.Some? then old(View())
                        else EndForUser(old(View()), target, "delegator_blocked", Some(actor), now)
      ensures action.NoAction? || action.UnknownAction? ==> refusal == Some(ReassignmentRequired)
      ensures action.RequireAssignment? ==> refusal == None
      ensures action.AssignToUser? && action.newId.None? ==> refusal == Some(AssigneeRejected)
      ensures action.AssignToUser? && action.newId.Some? ==>
        && (refusal.Some? ==> AssigneeFailure(old(View()), action.newId.value, apps, refusal.value))
        && (refusal.None? <==> forall a | a in apps ::
                                 AssigneeAllowed(old(View()), action.newId.value, applications[a].companyId))
    {
      ghost var s := View();
      hide EndForUser, AssigneeAllowed, AssigneeFailure, ValidRows;
      EndForUserKeepsRest(s, target, "delegator_blocked", Some(actor), now);
      if action.AssignToUser? && action.newId.Some? {
        EndForUserKeepsFailure(s, target, "delegator_blocked", Some(actor), now, action.newId.value, apps);
      }
      var delegations0, items0, notifications0, sessions0 := delegations, items, notifications, sessions;
      var closed := TerminateDelegationsForUser(target, "delegator_blocked", Some(actor), now);
      refusal := RefuseReassignment(action, apps);
      if refusal.Some? {
        RollBack(s, delegations0, items0, notifications0, sessions0);
      }
    }

    method RollBack(
      ghost s: Tables, delegations0: map<nat, Delegation>, items0: map<nat, Item>, notifications0: seq<Notification>,
      sessions0: map<nat, UserSession>)
      requires s == View().(delegations := delegations0, items := items0, sessions := sessions0,
                            notifications := set n | n in notifications0)
      requires ValidRows(delegations0, items0, notifications0)
      modifies this`delegations, this`items, this`notifications, this`sessions
      ensures Valid() && View() == s
    {
      delegations, items, notifications, sessions := delegations0, items0, notifications0, sessions0;
    }

    /**
      Block a user.  With unfinished applications the delegations end before the applications move,
      and a refused reassignment rolls that back; the second termination is for users without
      unfinished applications, and otherwise finds nothing left to end.
     */
    method BlockUser(actor: int, target: int, action: Reassignment, now: int) returns (outcome: BlockOutcome)
      requires Valid()
      modifies this
      ensures Valid()
      ensures View() == Block(old(View()), actor, target, action, now)
      ensures var verdict := BlockVerdict(old(View()), actor, target, action);
              if verdict == AssigneeRejected && action.newId.Some?
              then AssigneeFailure(old(View()), action.newId.value, ActiveApplications(old(View()), target), outcome)
              else outcome == verdict
    {
      if target !in users { return UserNotFound; }
      if target == actor { return CannotBlockSelf; }
      if users[target].status == BlockedUser { return AlreadyBlocked; }
      ghost var s := View();
      hide EndForUser, ActiveApplications, AssigneeAllowed, AssigneeFailure, Valid, BlockedTables;
      var apps := ActiveApplicationIds(target);
      if apps != {} {
        var refusal := EndAndCheck(actor, target, action, apps, now);
        if refusal.Some? { return refusal.value; }
      }
      FinishBlock(s, actor, target, action, now);
      outcome := Blocked(|apps|);
    }

    method FinishBlock(ghost s: Tables, actor: int, target: int, action: Reassignment, now: int)
      requires Valid() && target in users && target in s.users
      requires View() == if ActiveApplications(s, target) == {} then s
                         else EndForUser(s, target, "delegator_blocked", Some(actor), now)
      modifies this
      ensures Valid()
      ensures View() == BlockedTables(s, actor, target, action, now)
    {
      ghost var t := View();
      EndForUserKeepsRest(s, target, "delegator_blocked", Some(actor), now);
      EndForUserTwice(s, target, "delegator_blocked", "user_blocked", Some(actor), now);
      hide EndForUser, ActiveApplications, ActiveApplicationOf, ReassignedRow, RevokedSessions, ValidRows;
      applications := map a | a in applications ::
        if ActiveApplicationOf(applications[a], target)
        then ReassignedRow(applications[a], target, NewAssignee(action)) else applications[a];
      users := users[target := users[target].(status := BlockedUser)];
      EndForUserIgnores(t, target, "user_blocked", Some(actor), now, applications, users);
      assert View() == t.(applications := applications, users := users);
      var closed := TerminateDelegationsForUser(target, "user_blocked", Some(actor), now);
      RevokeSessionsForUser(target, now);
    }
  }

  lemma EndForUserKeepsRest(s: Tables, user: int, why: string, actor: Option<int>, now: int)
    ensures var t := EndForUser(s, user, why, actor, now);
            t.applications == s.applications && t.users == s.users
            && forall u, c :: AssigneeAllowed(t, u, c) == AssigneeAllowed(s, u, c)
  {
  }

  lemma EndForUserKeepsFailure(
    s: Tables, user: int, why: string, actor: Option<int>, now: int, assignee: int, apps: set<int>)
    ensures forall o :: AssigneeFailure(EndForUser(s, user, why, actor, now), assignee, apps, o)
                        == AssigneeFailure(s, assignee, apps, o)
  {
  }

  lemma EndForUserIgnores(
    s: Tables, user: int, why: string, actor: Option<int>, now: int,
    applications: map<int, Application>, users: map<int, User>)
    ensures EndForUser(s.(applications := applications, users := users), user, why, actor, now)
            == EndForUser(s, user, why, actor, now).(applications := applications, users := users)
  {
    var s' := s.(applications := applications, users := users);
    var m := ClosingFor(s, user, why, actor);
    assert ClosingFor(s', user, why, actor) == m;
    SameParties(s, s', m);
  }

  lemma BothParties(d: nat, row: Delegation, event: NotificationEvent)
    ensures (set u | u in {row.delegatorId, row.delegateId} :: Notification(d, event, u))
        == PartyNotifications(d, row, event)
  {
  }

  lemma KeyNeeded(s: Tables, user: int, key: Option<string>)
    ensures KeyTaken(s, user, key) ==> key.Some?
  {
  }

  lemma OneMoreItem(d: nat, first: nat, apps: seq<int>, k: nat, status: DelegationStatus, now: int)
    requires k < |apps|
    ensures NewItems(d, first, apps[..k + 1], status, now)
            == NewItems(d, first, apps[..k], status, now)[first + k := NewItem(d, apps[k], status, now)]
  {
  }

  lemma EndForUserTwice(s: Tables, user: int, why: string, again: string, actor: Option<int>, now: int)
    ensures EndForUser(EndForUser(s, user, why, actor, now), user, again, actor, now)
        == EndForUser(s, user, why, actor, now)
  {
    var t := EndForUser(s, user, why, actor, now);
    EndForUserClosesAll(s, user, why, actor, now);
    assert ClosingFor(t, user, again, actor) == map[];
    hide Transition, ClosingFor;
    NoChange(t, now);
  }

  lemma NoChange(s: Tables, now: int)
    ensures Transition(s, map[], now) == s
  {
    assert RevokedSessions(s.sessions, {}, now) == s.sessions;
    assert ChangedDelegates(s, map[]) == {};
    assert ChangeNotifications(s, map[]) == {};
  }

  /** The delegations a tick expires. */
  ghost function Expirations(s: Tables, now: int): set<nat> {
    set d | d in s.delegations && Expiring(s.delegations[d], now)
  }

  /** Nothing activated by this tick is already at its end, so the second query finds what it would have found first. */
  lemma StillExpiring(s: Tables, now: int)
    ensures Expirations(s, now) <= s.delegations.Keys && TickChanges(s, now).Keys <= s.delegations.Keys
    ensures var t := Processed(s, TickChanges(s, now), Expirations(s, now), now);
            (set d | d in t.delegations && Expiring(t.delegations[d], now)) == Expirations(s, now)
  {
    hide Acceptable, ChangedItems, ChangeNotifications, ChangedDelegates, RevokedSessions;
  }

  lemma ExpiringReady(s: Tables, rest: set<nat>, d: nat, now: int)
    requires d in rest && rest <= Expirations(s, now)
    ensures d in TickChanges(s, now) && TickChanges(s, now)[d] == ENDS_AT_REACHED
    ensures d in Processed(s, TickChanges(s, now), rest, now).delegations
    ensures OpenDelegation(Processed(s, TickChanges(s, now), rest, now), d)
  {
    hide Acceptable, ChangedItems, ChangeNotifications, ChangedDelegates, RevokedSessions;
  }

  /** The delegations a tick activates. */
  ghost function Activations(s: Tables, now: int): set<nat> {
    set d | d in s.delegations && Due(s.delegations[d], now) && Activatable(s, d, now)
  }

  lemma TickStart(s: Tables, now: int, due: set<nat>, later: set<nat>)
    requires due == set d | d in s.delegations && Due(s.delegations[d], now)
    requires later == Expirations(s, now)
    ensures TickChanges(s, now).Keys == due + later && due !! later && due <= s.delegations.Keys
    ensures forall d | RaisesTick(s, d, now) :: d in due
    ensures Activations(s, now) - due == {}
    ensures due + later <= s.delegations.Keys && Processed(s, TickChanges(s, now), due + later, now) == s
  {
    hide Acceptable, Transition;
    NothingProcessed(s, TickChanges(s, now), now);
  }

  lemma TickLawful(s: Tables, now: int)
    ensures Lawful(s, TickChanges(s, now), now)
  {
    hide Acceptable;
  }

  lemma PartLawful(s: Tables, all: map<nat, Change>, rest: set<nat>, now: int)
    requires Lawful(s, all, now)
    ensures Lawful(s, Without(all, rest), now)
  {
  }

  /** In the middle of the first loop the next row is judged as it would have been before the tick. */
  lemma DueReady(s: Tables, all: map<nat, Change>, rest: set<nat>, d: nat, now: int)
    requires Consistent(s) && all == TickChanges(s, now) && d in rest && d in s.delegations
        && Due(s.delegations[d], now)
    ensures var t := Processed(s, all, rest, now);
            && d in t.delegations && t.delegations[d] == s.delegations[d]
            && Consistent(t)
            && (AmbiguousParty(t, t.delegations[d]) <==> RaisesTick(s, d, now))
            && (Activatable(t, d, now) <==> d in Activations(s, now))
            && d in all && DueChange(t, d, now) == all[d]
  {
    assert d in all && all[d] == DueChange(s, d, now);
    hide Consistent, Acceptable, Transition, AmbiguousParty, Lawful, TickChanges;
    TickLawful(s, now);
    PartLawful(s, all, rest, now);
    DueUnaffected(s, Without(all, rest), now, d);
  }

  lemma SingleTransition(s: Tables, d: nat, c: Change, now: int)
    requires d in s.delegations
    ensures var row := s.delegations[d];
            && ChangedDelegations(s.delegations, map[d := c], now) == s.delegations[d := ChangedDelegation(row, c, now)]
            && ChangedDelegates(s, map[d := c]) == {row.delegateId}
            && ChangeNotifications(s, map[d := c]) == PartyNotifications(d, row, EventOf(c))
  {
    assert s.delegations[d].delegateId in ChangedDelegates(s, map[d := c]) by { assert d in map[d := c]; }
    forall n | n in PartyNotifications(d, s.delegations[d], EventOf(c))
        ensures n in ChangeNotifications(s, map[d := c]) {
      assert d in map[d := c];
    }
  }
}
