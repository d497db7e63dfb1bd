/**
  Properties of delegations that hold in every reachable state or of every step.
 */
module DelegationTheorems {
  import opened Options
  import opened Sets
  import opened DelegationTables
  import opened DelegationSteps
  import opened DelegationInvariants

  // ---------------------------------------------------------------------
  // Single-row queries
  // ---------------------------------------------------------------------

  /** Neither single-row query ever finds two rows, and one delegate at most has access to an application. */
  lemma SingleRowQueries(s: Tables, app: int, user: int, other: int, ignore: Option<nat>, now: int)
    requires Consistent(s)
    ensures |AccessRows(s, user, app, now)| <= 1
    ensures |ConflictRows(s, app, ignore)| <= 1
    ensures AccessRows(s, user, app, now) != {} && AccessRows(s, other, app, now) != {} ==> user == other
  {
    hide KeysUnique, Windows, NonEmptyDelegations, DelegatorResponsible, DistinctApplications, PartiesNotBlocked;
    forall i: nat | i in s.items && s.items[i].status.Open() ensures OpenItem(s, i) {}
    AtMostOne(AccessRows(s, user, app, now));
    AtMostOne(ConflictRows(s, app, ignore));
    if AccessRows(s, user, app, now) != {} && AccessRows(s, other, app, now) != {} {
      var i :| i in AccessRows(s, user, app, now);
      var j :| j in AccessRows(s, other, app, now);
      assert OpenItem(s, i) && OpenItem(s, j);
    }
  }

  /** An application of an open delegation is in no other open delegation. */
  lemma NoConflictWithOthers(s: Tables, d: nat, a: int)
    requires ItemsMatch(s) && OneOpenItemPerApplication(s) && OpenDelegation(s, d) && a in ApplicationsOf(s, d)
    ensures ConflictRows(s, a, Some(d)) == {}
  {
    var i :| i in s.items && s.items[i].delegationId == d && s.items[i].applicationId == a;
    assert OpenItem(s, i);
    forall j | j in ConflictRows(s, a, Some(d)) ensures false {
      assert OpenItem(s, j);
    }
  }

  /** What can change between creation and activation. */
  ghost predicate FactsHold(s: Tables, d: nat)
    requires d in s.delegations
  {
    var row := s.delegations[d];
    && ActiveClient(s, row.delegatorId) && ActiveClient(s, row.delegateId)
    && HasDelegationRole(s, row.delegatorId, row.companyId) && HasDelegationRole(s, row.delegateId, row.companyId)
    && forall a | a in ApplicationsOf(s, d) ::
         a in s.applications && s.applications[a].companyId == row.companyId && !s.applications[a].status.Final()
  }

  /**
    Of everything the worker revalidates, only the clock and these facts can stop an activation:
    never a conflict, a changed responsible user, an empty selection or a malformed window.
   */
  lemma ActivatableIff(s: Tables, d: nat, now: int)
    requires Consistent(s) && d in s.delegations && s.delegations[d].status == Scheduled
    ensures Activatable(s, d, now) <==>
            now - FIVE_MINUTES <= s.delegations[d].startsAt && now < s.delegations[d].endsAt && FactsHold(s, d)
  {
    hide KeysUnique, PartiesNotBlocked, DistinctApplications;
    var row := s.delegations[d];
    var r := RequestOf(row);
    assert OpenDelegation(s, d);
    assert ApplicationsOf(s, d) != {};
    forall a | a in ApplicationsOf(s, d)
      ensures AcceptableApplication(s, r, a, Some(d)) <==>
              a in s.applications && s.applications[a].companyId == row.companyId && !s.applications[a].status.Final()
    {
      NoConflictWithOthers(s, d, a);
      var i :| i in s.items && s.items[i].delegationId == d && s.items[i].applicationId == a;
      assert OpenItem(s, i) && HeldByDelegator(s, i);
    }
  }

  // ---------------------------------------------------------------------
  // The worker and the clock
  // ---------------------------------------------------------------------

  /** After a committed tick the status of every open delegation is determined by the clock. */
  lemma TickClock(s: Tables, clock: int, now: int, d: nat)
    requires Inv(s, clock) && clock <= now && d in s.delegations
    ensures var row := Tick(s, now).delegations[d];
            && (row.status == Scheduled ==> now < row.startsAt)
            && (row.status == Active ==> row.startsAt <= now < row.endsAt)
  {
    hide Consistent, Acceptable, ChangedItems, ChangeNotifications, ChangedDelegates, RevokedSessions;
  }

  /**
    A committed tick leaves an overdue delegation active exactly when it was rolled back, that is,
    when some delegation due for activation has a party holding both allowed roles in its company.
   */
  lemma TickExpiresUnlessRaised(s: Tables, now: int, d: nat)
    requires d in s.delegations && Expiring(s.delegations[d], now)
    ensures Apply(s, TickStep, now).delegations[d].status == (if TickRaises(s, now) then Active else Expired)
  {
  }

  /** A tick that raises leaves its cause in place: the worker stays stuck, whatever else is due. */
  lemma {:induction false} StuckWorker(s: Tables, clock: int, run: seq<TimedStep>)
    requires InOrder(clock, run) && TickRaises(s, clock)
    requires forall k | 0 <= k < |run| :: run[k].step == TickStep
    ensures Run(s, run) == s
    decreases |run|
  {
    if run != [] {
      assert run[0].step == TickStep;
      assert TickRaises(s, run[0].now) by {
        var d :| RaisesTick(s, d, clock);
        assert RaisesTick(s, d, run[0].now);
      }
      StuckWorker(s, run[0].now, run[1..]);
    }
  }

  // ---------------------------------------------------------------------
  // Closed delegations stay closed
  // ---------------------------------------------------------------------

  predicate SameTerms(a: Delegation, b: Delegation) {
    && a.companyId == b.companyId && a.delegatorId == b.delegatorId && a.delegateId == b.delegateId
    && a.startsAt == b.startsAt && a.endsAt == b.endsAt && a.createdBy == b.createdBy
    && a.idempotencyKey == b.idempotencyKey
  }

  /** No step deletes a delegation or alters its terms, and a closed one keeps its whole row. */
  ghost predicate Kept(s: Tables, t: Tables, d: nat)
    requires d in s.delegations
  {
    && d in t.delegations && SameTerms(s.delegations[d], t.delegations[d])
    && (!s.delegations[d].status.Open() ==> t.delegations[d] == s.delegations[d])
  }

  lemma TransitionKeepsRow(s: Tables, changes: map<nat, Change>, now: int, d: nat)
    requires d in s.delegations && changes.Keys <= s.delegations.Keys
    requires d in changes ==> OpenDelegation(s, d)
    ensures Kept(s, Transition(s, changes, now), d)
  {
    hide ChangedItems, ChangeNotifications, ChangedDelegates, RevokedSessions;
  }

  lemma TickChangesOpen(s: Tables, now: int)
    ensures TickChanges(s, now).Keys <= s.delegations.Keys
    ensures forall d | d in TickChanges(s, now) :: OpenDelegation(s, d)
  {
    hide DueChange;
  }

  lemma BlockKeepsRow(s: Tables, actor: int, target: int, action: Reassignment, now: int, d: nat)
    requires d in s.delegations
    ensures Kept(s, Block(s, actor, target, action, now), d)
  {
    if BlockVerdict(s, actor, target, action).Blocked? {
      TransitionKeepsRow(s, ClosingFor(s, target, BlockReason(s, target), Some(actor)), now, d);
    }
    hide BlockVerdict, Transition, ActiveApplications;
  }

  lemma ApplyKeepsRow(s: Tables, step: Step, now: int, d: nat)
    requires d in s.delegations
    ensures Kept(s, Apply(s, step, now), d)
  {
    TickChangesOpen(s, now);
    hide MayCreate, Transition, Block, TickChanges, TickRaises, NewItems, PartyNotifications, RevokedSessions;
    match step
    case CreateStep(r, key, apps, id, first) =>
      if MayCreate(s, r, key, apps, id, first, now) { AcceptedIsNew(s, r, key, apps, id, first, now); }
    case TickStep => hide OpenDelegation; TransitionKeepsRow(s, TickChanges(s, now), now, d);
    case CancelStep(id, why, actor) =>
      if OpenDelegation(s, id) { TransitionKeepsRow(s, map[id := Close(Cancelled, why, Some(actor))], now, d); }
    case TerminateStep(id, why, actor) =>
      if OpenDelegation(s, id) { TransitionKeepsRow(s, map[id := Close(Terminated, why, Some(actor))], now, d); }
    case EndForUserStep(u, why, actor) => TransitionKeepsRow(s, ClosingFor(s, u, why, actor), now, d);
    case BlockStep(actor, target, action) => BlockKeepsRow(s, actor, target, action, now, d);
    case OtherStep(after) =>
  }

  lemma AcceptedIsNew(
    s: Tables, r: DelegationRequest, key: Option<string>, apps: seq<int>, id: nat, first: nat, now: int)
    requires MayCreate(s, r, key, apps, id, first, now)
    ensures id !in s.delegations
  {
  }

  lemma {:induction false} RunKeepsRow(s: Tables, run: seq<TimedStep>, d: nat)
    requires d in s.delegations
    ensures Kept(s, Run(s, run), d)
    decreases |run|
  {
    if run != [] {
      hide Apply;
      ApplyKeepsRow(s, run[0].step, run[0].now, d);
      RunKeepsRow(Apply(s, run[0].step, run[0].now), run[1..], d);
    }
  }

  // ---------------------------------------------------------------------
  // Sessions follow access
  // ---------------------------------------------------------------------

  lemma TransitionSessions(s: Tables, changes: map<nat, Change>, now: int, user: int)
    requires ItemsMatch(s) && changes.Keys <= s.delegations.Keys
    ensures HeldApplications(Transition(s, changes, now), user) == HeldApplications(s, user)
            || NoLiveSession(Transition(s, changes, now), user)
  {
    var t := Transition(s, changes, now);
    if user !in ChangedDelegates(s, changes) {
      forall i | i in s.items && s.delegations[s.items[i].delegationId].delegateId == user
        ensures t.items[i] == s.items[i]
            && t.delegations[s.items[i].delegationId] == s.delegations[s.items[i].delegationId]
      {
      }
      forall a ensures a in HeldApplications(t, user) <==> a in HeldApplications(s, user) {
        if a in HeldApplications(t, user) {
          var i :| i in t.items && t.items[i].status == Active && t.items[i].delegationId in t.delegations
                   && t.delegations[t.items[i].delegationId].status == Active
                   && t.delegations[t.items[i].delegationId].delegateId == user && t.items[i].applicationId == a;
          assert i in s.items;
        }
        if a in HeldApplications(s, user) {
          var i :| i in s.items && s.items[i].status == Active && s.items[i].delegationId in s.delegations
                   && s.delegations[s.items[i].delegationId].status == Active
                   && s.delegations[s.items[i].delegationId].delegateId == user && s.items[i].applicationId == a;
          assert i in t.items;
        }
      }
    }
  }

  lemma HeldReadsRows(s: Tables, t: Tables, user: int)
    requires t.delegations == s.delegations && t.items == s.items
    ensures HeldApplications(t, user) == HeldApplications(s, user)
  {
  }

  /** What makes an item one through which a user holds its application. */
  predicate Holds(s: Tables, i: nat, user: int) {
    i in s.items && s.items[i].status == Active && s.items[i].delegationId in s.delegations
    && s.delegations[s.items[i].delegationId].status == Active
    && s.delegations[s.items[i].delegationId].delegateId == user
  }

  lemma HeldThrough(s: Tables, t: Tables, user: int)
    requires forall i: nat | Holds(s, i, user) ::
      Holds(t, i, user) && t.items[i].applicationId == s.items[i].applicationId
    ensures HeldApplications(s, user) <= HeldApplications(t, user)
  {
    forall a | a in HeldApplications(s, user) ensures a in HeldApplications(t, user) {
      var i: nat :| i in s.items && s.items[i].status == Active && s.items[i].delegationId in s.delegations
               && s.delegations[s.items[i].delegationId].status == Active
               && s.delegations[s.items[i].delegationId].delegateId == user && s.items[i].applicationId == a;
      assert Holds(s, i, user);
    }
  }

  lemma InsertedSessions(
    s: Tables, r: DelegationRequest, key: Option<string>, apps: seq<int>, id: nat, first: nat, now: int, user: int)
    requires ItemsMatch(s) && MayCreate(s, r, key, apps, id, first, now)
    ensures HeldApplications(Inserted(s, r, key, apps, id, first, now), user) == HeldApplications(s, user)
            || NoLiveSession(Inserted(s, r, key, apps, id, first, now), user)
  {
    if !(user == r.delegateId && NewRow(r, key, now).status == Active) {
      InsertedHolds(s, r, key, apps, id, first, now, user);
      hide Inserted, MayCreate, ItemsMatch, HeldApplications, Holds;
      HeldThrough(s, Inserted(s, r, key, apps, id, first, now), user);
      HeldThrough(Inserted(s, r, key, apps, id, first, now), s, user);
    } else {
      hide MayCreate, ItemsMatch, HeldApplications, NewItems, PartyNotifications;
    }
  }

  /** Unless the new delegation is active and to the user, they hold what they held. */
  lemma InsertedHolds(
    s: Tables, r: DelegationRequest, key: Option<string>, apps: seq<int>, id: nat, first: nat, now: int, user: int)
    requires ItemsMatch(s) && MayCreate(s, r, key, apps, id, first, now)
    requires !(user == r.delegateId && NewRow(r, key, now).status == Active)
    ensures var t := Inserted(s, r, key, apps, id, first, now);
            forall i: nat ::
              (Holds(s, i, user) <==> Holds(t, i, user))
              && (Holds(s, i, user) ==> t.items[i].applicationId == s.items[i].applicationId)
  {
    InsertedItems(s, r, key, apps, id, first, now);
    hide NewItems, PartyNotifications, RevokedSessions, Acceptable, KeyTaken, StrictlyIncreasing;
  }

  /** A step that changes which applications a user holds leaves that user logged out everywhere. */
  lemma AccessChangeEndsSessions(s: Tables, step: Step, now: int, user: int)
    requires ItemsMatch(s)
    ensures HeldApplications(Apply(s, step, now), user) == HeldApplications(s, user)
            || NoLiveSession(Apply(s, step, now), user)
  {
    hide Transition, Inserted, ItemsMatch, HeldApplications, NoLiveSession, BlockVerdict, TickRaises, MayCreate;
    match step
    case CreateStep(r, key, apps, id, first) =>
      if MayCreate(s, r, key, apps, id, first, now) { InsertedSessions(s, r, key, apps, id, first, now, user); }
    case TickStep => TransitionSessions(s, TickChanges(s, now), now, user);
    case CancelStep(id, why, actor) =>
      if OpenDelegation(s, id) { TransitionSessions(s, map[id := Close(Cancelled, why, Some(actor))], now, user); }
    case TerminateStep(id, why, actor) =>
      if OpenDelegation(s, id) { TransitionSessions(s, map[id := Close(Terminated, why, Some(actor))], now, user); }
    case EndForUserStep(u, why, actor) => TransitionSessions(s, ClosingFor(s, u, why, actor), now, user);
    case BlockStep(actor, target, action) => BlockSessions(s, actor, target, action, now, user);
    case OtherStep(after) => if OtherTransaction(s, after) { HeldReadsRows(s, after, user); }
  }

  lemma BlockSessions(s: Tables, actor: int, target: int, action: Reassignment, now: int, user: int)
    requires ItemsMatch(s)
    ensures HeldApplications(Block(s, actor, target, action, now), user) == HeldApplications(s, user)
            || NoLiveSession(Block(s, actor, target, action, now), user)
  {
    if BlockVerdict(s, actor, target, action).Blocked? {
      var changes := ClosingFor(s, target, BlockReason(s, target), Some(actor));
      var t := Transition(s, changes, now);
      hide Transition, ItemsMatch, HeldApplications;
      TransitionSessions(s, changes, now, user);
      HeldReadsRows(t, BlockedTables(s, actor, target, action, now), user);
    }
  }

  // ---------------------------------------------------------------------
  // Ending a user's delegations, and blocking
  // ---------------------------------------------------------------------

  /** Exactly the open delegations naming the user are terminated; every other row is as it was. */
  lemma EndForUserExact(s: Tables, user: int, why: string, actor: Option<int>, now: int)
    requires ItemsMatch(s)
    ensures var t := EndForUser(s, user, why, actor, now);
            && t.delegations.Keys == s.delegations.Keys && t.items.Keys == s.items.Keys
            && (forall d | d in s.delegations ::
                  if s.delegations[d].status.Open() && Names(s.delegations[d], user)
                  then t.delegations[d].status == Terminated && t.delegations[d].completionReason == Some(why)
                  else t.delegations[d] == s.delegations[d])
            && (forall i | i in s.items ::
                  if s.items[i].status.Open() && Names(s.delegations[s.items[i].delegationId], user)
                  then t.items[i].status == Terminated && t.items[i].accessEndedAt == Some(now)
                  else t.items[i] == s.items[i])
            && t.applications == s.applications && t.users == s.users
  {
  }

  /**
    A successful block leaves the target logged out, in no open delegation and blocked.  Exactly
    the target's unfinished applications change hands, and the count says how many: the target
    keeps none of them unless they were assigned back to the target.
   */
  lemma BlockSucceeds(s: Tables, actor: int, target: int, action: Reassignment, now: int)
    requires BlockVerdict(s, actor, target, action).Blocked?
    ensures var t := Block(s, actor, target, action, now);
            && t.users[target].status == BlockedUser
            && NoLiveSession(t, target)
            && (forall d | OpenDelegation(t, d) :: OpenDelegation(s, d) && !Names(t.delegations[d], target))
            && BlockVerdict(s, actor, target, action).reassigned == |ActiveApplications(s, target)|
            && t.applications.Keys == s.applications.Keys
            && (forall a | a in s.applications && a !in ActiveApplications(s, target) ::
                  t.applications[a] == s.applications[a])
            && (forall a | a in ActiveApplications(s, target) ::
                  t.applications[a].assignedTo == NewAssignee(action)
                  && t.applications[a].status == s.applications[a].status)
            && (forall a, u | a in ActiveApplications(s, target) && t.applications[a].assignedTo == Some(u) ::
                  u in s.users && s.users[u].status == ActiveUser
                  && (ActiveRole(u, s.applications[a].companyId, ClientExecutor) in s.roles
                      <==> ActiveRole(u, s.applications[a].companyId, ClientAdmin) !in s.roles))
            && (ActiveApplications(t, target) == {}
                <==> (ActiveApplications(s, target) == {} || NewAssignee(action) != Some(target)))
  {
    var t := Block(s, actor, target, action, now);
    var active := ActiveApplications(s, target);
    EndForUserClosesAll(s, target, BlockReason(s, target), Some(actor), now);
    forall d: nat | OpenDelegation(t, d) ensures OpenDelegation(s, d) && !Names(t.delegations[d], target) {
      assert OpenDelegation(EndForUser(s, target, BlockReason(s, target), Some(actor), now), d);
    }
    forall a ensures a in ActiveApplications(t, target) <==> a in active && NewAssignee(action) == Some(target) {}
    forall a, u | a in active && t.applications[a].assignedTo == Some(u)
      ensures u in s.users && s.users[u].status == ActiveUser
      ensures ActiveRole(u, s.applications[a].companyId, ClientExecutor) in s.roles
              <==> ActiveRole(u, s.applications[a].companyId, ClientAdmin) !in s.roles
    {
      assert AssigneeAllowed(s, u, s.applications[a].companyId);
    }
    assert ActiveApplications(t, target) == if NewAssignee(action) == Some(target) then active else {};
  }

  /** Blocking is refused exactly for these callers, and then nothing at all changes. */
  lemma BlockRefused(s: Tables, actor: int, target: int, action: Reassignment, now: int)
    ensures !BlockVerdict(s, actor, target, action).Blocked? ==> Block(s, actor, target, action, now) == s
    ensures BlockVerdict(s, actor, target, action).Blocked? <==>
            && target in s.users && target != actor && s.users[target].status != BlockedUser
            && (ActiveApplications(s, target) == {}
                || action.RequireAssignment?
                || (action.AssignToUser? && action.newId.Some?
                    && forall a | a in ActiveApplications(s, target) ::
                         AssigneeAllowed(s, action.newId.value, s.applications[a].companyId)))
  {
  }

  // ---------------------------------------------------------------------
  // Idempotent creation
  // ---------------------------------------------------------------------

  /** Over any run, one user's idempotency key never names two delegations, and keeps naming the same one. */
  lemma IdempotencyKey(s: Tables, clock: int, run: seq<TimedStep>, user: int, key: Option<string>)
    requires Inv(s, clock) && InOrder(clock, run) && key.Some?
    ensures |KeyHolders(Run(s, run), user, key)| <= 1
    ensures KeyHolders(s, user, key) != {} ==> KeyHolders(Run(s, run), user, key) == KeyHolders(s, user, key)
  {
    var t := Run(s, run);
    RunKeepsInv(s, clock, run);
    assert KeysUnique(t) && KeysUnique(s);
    hide Inv, Run, InOrder;
    AtMostOne(KeyHolders(t, user, key));
    if d :| d in KeyHolders(s, user, key) {
      RunKeepsRow(s, run, d);
      assert d in KeyHolders(t, user, key);
    }
  }
}
