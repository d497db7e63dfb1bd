/**
  What every reachable state of the delegation tables satisfies, and what the
  individual steps do to it.
 */
module DelegationInvariants {
  import opened Options
  import opened DelegationTables
  import opened DelegationSteps

  /** Foreign key, and an item always has its delegation's status. */
  ghost predicate ItemsMatch(s: Tables) {
    forall i | i in s.items ::
      s.items[i].delegationId in s.delegations && s.items[i].status == s.delegations[s.items[i].delegationId].status
  }

  /** The partial unique index uq_application_delegation_items_open. */
  ghost predicate OneOpenItemPerApplication(s: Tables) {
    forall i, j | OpenItem(s, i) && OpenItem(s, j) && s.items[i].applicationId == s.items[j].applicationId :: i == j
  }

  ghost predicate DistinctApplications(s: Tables) {
    forall i, j | i in s.items && j in s.items && s.items[i].delegationId == s.items[j].delegationId
                  && s.items[i].applicationId == s.items[j].applicationId :: i == j
  }

  ghost predicate NonEmptyDelegations(s: Tables) {
    forall d | d in s.delegations :: ApplicationsOf(s, d) != {}
  }

  ghost predicate Windows(s: Tables) {
    forall d | d in s.delegations ::
      && s.delegations[d].delegatorId != s.delegations[d].delegateId
      && s.delegations[d].startsAt < s.delegations[d].endsAt <= s.delegations[d].startsAt + MAX_PERIOD
  }

  ghost predicate HeldByDelegator(s: Tables, i: nat)
    requires i in s.items && s.items[i].delegationId in s.delegations
  {
    && s.items[i].applicationId in s.applications
    && s.applications[s.items[i].applicationId].assignedTo == Some(s.delegations[s.items[i].delegationId].delegatorId)
  }

  /** An open item names an application its delegator is still responsible for. */
  ghost predicate DelegatorResponsible(s: Tables) {
    forall i | OpenItem(s, i) && s.items[i].delegationId in s.delegations :: HeldByDelegator(s, i)
  }

  predicate NotBlocked(s: Tables, user: int) {
    user in s.users && s.users[user].status != BlockedUser
  }

  ghost predicate PartiesNotBlocked(s: Tables) {
    forall d | OpenDelegation(s, d) ::
      NotBlocked(s, s.delegations[d].delegatorId) && NotBlocked(s, s.delegations[d].delegateId)
  }

  /** The unique constraint uq_application_delegations_idempotency. */
  ghost predicate KeysUnique(s: Tables) {
    forall d, e | d in s.delegations && e in s.delegations && s.delegations[d].idempotencyKey.Some?
                  && s.delegations[d].idempotencyKey == s.delegations[e].idempotencyKey
                  && s.delegations[d].createdBy == s.delegations[e].createdBy :: d == e
  }

  ghost predicate Consistent(s: Tables) {
    && ItemsMatch(s) && OneOpenItemPerApplication(s) && DistinctApplications(s) && NonEmptyDelegations(s)
    && Windows(s) && DelegatorResponsible(s) && PartiesNotBlocked(s) && KeysUnique(s)
  }

  ghost predicate StartedBefore(s: Tables, clock: int) {
    forall d | d in s.delegations && s.delegations[d].status == Active :: s.delegations[d].startsAt <= clock
  }

  ghost predicate Inv(s: Tables, clock: int) {
    Consistent(s) && StartedBefore(s, clock)
  }

  // ---------------------------------------------------------------------
  // Transitions
  // ---------------------------------------------------------------------

  /** Changes start from open delegations; activation only from scheduled ones that have begun. */
  ghost predicate Lawful(s: Tables, changes: map<nat, Change>, now: int) {
    forall d | d in changes ::
      && OpenDelegation(s, d)
      && (changes[d].Activate? ==> s.delegations[d].status == Scheduled && s.delegations[d].startsAt <= now)
      && (changes[d].Close? ==> !changes[d].status.Open())
  }

  lemma TransitionKeepsMatch(s: Tables, changes: map<nat, Change>, now: int)
    requires ItemsMatch(s) && Lawful(s, changes, now) && changes.Keys <= s.delegations.Keys
    ensures ItemsMatch(Transition(s, changes, now))
    ensures forall i | OpenItem(Transition(s, changes, now), i) :: OpenItem(s, i)
    ensures forall d | OpenDelegation(Transition(s, changes, now), d) :: OpenDelegation(s, d)
  {
  }

  lemma TransitionApplicationsOf(s: Tables, changes: map<nat, Change>, now: int, d: nat)
    requires changes.Keys <= s.delegations.Keys
    ensures ApplicationsOf(Transition(s, changes, now), d) == ApplicationsOf(s, d)
  {
    var t := Transition(s, changes, now);
    forall i | i in s.items
      ensures t.items[i].delegationId == s.items[i].delegationId && t.items[i].applicationId == s.items[i].applicationId
    {
    }
    forall a ensures a in ApplicationsOf(t, d) <==> a in ApplicationsOf(s, d) {
      if a in ApplicationsOf(t, d) {
        var i :| i in t.items && t.items[i].delegationId == d && t.items[i].applicationId == a;
        assert i in s.items;
      }
      if a in ApplicationsOf(s, d) {
        var i :| i in s.items && s.items[i].delegationId == d && s.items[i].applicationId == a;
        assert i in t.items;
      }
    }
  }

  lemma TransitionKeepsUniqueness(s: Tables, changes: map<nat, Change>, now: int)
    requires ItemsMatch(s) && Lawful(s, changes, now) && changes.Keys <= s.delegations.Keys
    requires OneOpenItemPerApplication(s) && DistinctApplications(s)
    ensures OneOpenItemPerApplication(Transition(s, changes, now))
    ensures DistinctApplications(Transition(s, changes, now))
  {
    TransitionKeepsMatch(s, changes, now);
    TransitionItems(s, changes, now);
    hide Transition, ItemsMatch, Lawful, OpenItem;
  }

  lemma TransitionItems(s: Tables, changes: map<nat, Change>, now: int)
    requires changes.Keys <= s.delegations.Keys
    ensures var t := Transition(s, changes, now);
            t.items.Keys == s.items.Keys
            && forall i | i in s.items :: t.items[i].delegationId == s.items[i].delegationId
                                         && t.items[i].applicationId == s.items[i].applicationId
  {
  }

  lemma TransitionKeepsNonEmpty(s: Tables, changes: map<nat, Change>, now: int)
    requires NonEmptyDelegations(s) && changes.Keys <= s.delegations.Keys
    ensures NonEmptyDelegations(Transition(s, changes, now))
  {
    forall d | d in s.delegations ensures ApplicationsOf(Transition(s, changes, now), d) != {} {
      TransitionApplicationsOf(s, changes, now, d);
    }
  }

  lemma TransitionKeepsRows(s: Tables, changes: map<nat, Change>, now: int)
    requires Windows(s) && KeysUnique(s) && changes.Keys <= s.delegations.Keys
    ensures Windows(Transition(s, changes, now))
    ensures KeysUnique(Transition(s, changes, now))
  {
  }

  lemma TransitionKeepsParties(s: Tables, changes: map<nat, Change>, now: int)
    requires ItemsMatch(s) && Lawful(s, changes, now) && changes.Keys <= s.delegations.Keys
    requires DelegatorResponsible(s) && PartiesNotBlocked(s)
    ensures DelegatorResponsible(Transition(s, changes, now))
    ensures PartiesNotBlocked(Transition(s, changes, now))
  {
    var t := Transition(s, changes, now);
    TransitionKeepsMatch(s, changes, now);
    forall i | OpenItem(t, i) && t.items[i].delegationId in t.delegations ensures HeldByDelegator(t, i) {
      assert HeldByDelegator(s, i);
    }
    forall d | OpenDelegation(t, d)
      ensures NotBlocked(t, t.delegations[d].delegatorId) && NotBlocked(t, t.delegations[d].delegateId)
    {
      assert OpenDelegation(s, d);
    }
  }

  lemma TransitionKeepsConsistent(s: Tables, changes: map<nat, Change>, now: int)
    requires Consistent(s) && Lawful(s, changes, now) && changes.Keys <= s.delegations.Keys
    ensures Consistent(Transition(s, changes, now))
  {
    hide ItemsMatch, OneOpenItemPerApplication, DistinctApplications, NonEmptyDelegations,
         Windows, DelegatorResponsible, PartiesNotBlocked, KeysUnique, Transition, Lawful;
    TransitionKeepsMatch(s, changes, now);
    TransitionKeepsUniqueness(s, changes, now);
    TransitionKeepsNonEmpty(s, changes, now);
    TransitionKeepsRows(s, changes, now);
    TransitionKeepsParties(s, changes, now);
  }

  lemma TransitionKeepsInv(s: Tables, changes: map<nat, Change>, clock: int, now: int)
    requires Inv(s, clock) && clock <= now && Lawful(s, changes, now) && changes.Keys <= s.delegations.Keys
    ensures Inv(Transition(s, changes, now), now)
  {
    hide Consistent;
    TransitionKeepsConsistent(s, changes, now);
  }

  // ---------------------------------------------------------------------
  // The steps
  // ---------------------------------------------------------------------

  lemma TickKeepsInv(s: Tables, clock: int, now: int)
    requires Inv(s, clock) && clock <= now
    ensures Inv(Tick(s, now), now)
  {
    assert Lawful(s, TickChanges(s, now), now) by { hide Acceptable, Consistent; }
    hide Consistent, Lawful, TickChanges, RaisesTick;
    TransitionKeepsInv(s, TickChanges(s, now), clock, now);
  }

  lemma EndOneKeepsInv(s: Tables, id: nat, c: Change, clock: int, now: int)
    requires Inv(s, clock) && clock <= now && c.Close? && !c.status.Open()
    ensures Inv(EndOne(s, id, c, now), now)
  {
    hide Consistent;
    if OpenDelegation(s, id) {
      TransitionKeepsInv(s, map[id := c], clock, now);
    }
  }

  lemma EndForUserKeepsInv(s: Tables, user: int, why: string, actor: Option<int>, clock: int, now: int)
    requires Inv(s, clock) && clock <= now
    ensures Inv(EndForUser(s, user, why, actor, now), now)
  {
    assert Lawful(s, ClosingFor(s, user, why, actor), now);
    hide Consistent, Lawful;
    TransitionKeepsInv(s, ClosingFor(s, user, why, actor), clock, now);
  }

  lemma InsertedItems(s: Tables, r: DelegationRequest, key: Option<string>, apps: seq<int>, id: nat, first: nat,
      now: int)
    requires FreshIds(s, id, first)
    ensures var t := Inserted(s, r, key, apps, id, first, now);
            && (forall i | i in s.items :: i in t.items && t.items[i] == s.items[i])
            && (forall i | i in t.items :: i in s.items
                  || (first <= i < first + |apps|
                      && t.items[i] == NewItem(id, apps[i - first], NewRow(r, key, now).status, now)))
            && (forall i: nat | first <= i < first + |apps| :: i in t.items
                  && t.items[i].applicationId == apps[i - first]
                                                              && t.items[i].delegationId == id)
  {
    forall i: nat | first <= i < first + |apps|
        ensures i in NewItems(id, first, apps, NewRow(r, key, now).status, now) {
      assert Allotted(first, |apps|, i);
    }
  }

  lemma InsertedKeepsItems(
    s: Tables, r: DelegationRequest, key: Option<string>, apps: seq<int>, id: nat, first: nat, now: int)
    requires ItemsMatch(s) && OneOpenItemPerApplication(s) && DistinctApplications(s)
    requires MayCreate(s, r, key, apps, id, first, now)
    ensures ItemsMatch(Inserted(s, r, key, apps, id, first, now))
    ensures OneOpenItemPerApplication(Inserted(s, r, key, apps, id, first, now))
    ensures DistinctApplications(Inserted(s, r, key, apps, id, first, now))
  {
    hide *;
    InsertedKeepsMatch(s, r, key, apps, id, first, now);
    InsertedKeepsOneOpen(s, r, key, apps, id, first, now);
  }

  lemma InsertedKeepsMatch(
    s: Tables, r: DelegationRequest, key: Option<string>, apps: seq<int>, id: nat, first: nat, now: int)
    requires ItemsMatch(s) && DistinctApplications(s) && MayCreate(s, r, key, apps, id, first, now)
    ensures ItemsMatch(Inserted(s, r, key, apps, id, first, now))
    ensures DistinctApplications(Inserted(s, r, key, apps, id, first, now))
  {
    InsertedItems(s, r, key, apps, id, first, now);
    hide NewItems, PartyNotifications, RevokedSessions, KeyTaken, Acceptable;
  }

  lemma InsertedKeepsOneOpen(
    s: Tables, r: DelegationRequest, key: Option<string>, apps: seq<int>, id: nat, first: nat, now: int)
    requires ItemsMatch(s) && OneOpenItemPerApplication(s) && MayCreate(s, r, key, apps, id, first, now)
    ensures OneOpenItemPerApplication(Inserted(s, r, key, apps, id, first, now))
  {
    var t := Inserted(s, r, key, apps, id, first, now);
    InsertedItems(s, r, key, apps, id, first, now);
    hide NewItems, PartyNotifications, RevokedSessions, KeyTaken, Acceptable;
    forall i: nat, j: nat | OpenItem(t, i) && OpenItem(t, j) && t.items[i].applicationId == t.items[j].applicationId
      ensures i == j
    {
      if i in s.items && j !in s.items {
        NoOldConflict(s, r, apps, now, i, j - first);
      } else if i !in s.items && j in s.items {
        NoOldConflict(s, r, apps, now, j, i - first);
      } else if i in s.items {
        assert OpenItem(s, i) && OpenItem(s, j);
      }
    }
  }

  /** An acceptable request names no application that already has an open item. */
  lemma NoOldConflict(s: Tables, r: DelegationRequest, apps: seq<int>, now: int, i: nat, k: nat)
    requires ItemsMatch(s) && Acceptable(s, r, Elements(apps), now, None) && k < |apps|
    ensures !(OpenItem(s, i) && s.items[i].applicationId == apps[k])
  {
    assert AcceptableApplication(s, r, apps[k], None);
    assert i !in ConflictRows(s, apps[k], None);
  }

  lemma InsertedKeepsNonEmpty(
    s: Tables, r: DelegationRequest, key: Option<string>, apps: seq<int>, id: nat, first: nat, now: int)
    requires ItemsMatch(s) && NonEmptyDelegations(s) && MayCreate(s, r, key, apps, id, first, now)
    ensures NonEmptyDelegations(Inserted(s, r, key, apps, id, first, now))
    ensures ApplicationsOf(Inserted(s, r, key, apps, id, first, now), id) == Elements(apps)
  {
    var t := Inserted(s, r, key, apps, id, first, now);
    InsertedItems(s, r, key, apps, id, first, now);
    assert Elements(apps) != {};
    hide NewItems, PartyNotifications, RevokedSessions, KeyTaken, Acceptable;
    forall d | d in s.delegations ensures ApplicationsOf(t, d) != {} {
      var a :| a in ApplicationsOf(s, d);
      var i :| i in s.items && s.items[i].delegationId == d && s.items[i].applicationId == a;
      assert t.items[i] == s.items[i];
      assert a in ApplicationsOf(t, d);
    }
    forall a ensures a in ApplicationsOf(t, id) <==> a in Elements(apps) {
      if a in Elements(apps) {
        var k :| 0 <= k < |apps| && apps[k] == a;
        assert t.items[first + k].applicationId == a;
      }
    }
    var a :| a in Elements(apps);
    assert a in ApplicationsOf(t, id);
  }

  lemma InsertedKeepsRows(
    s: Tables, r: DelegationRequest, key: Option<string>, apps: seq<int>, id: nat, first: nat, now: int)
    requires Windows(s) && KeysUnique(s) && MayCreate(s, r, key, apps, id, first, now)
    ensures Windows(Inserted(s, r, key, apps, id, first, now))
    ensures KeysUnique(Inserted(s, r, key, apps, id, first, now))
  {
    forall d | d in s.delegations && s.delegations[d].createdBy == r.delegatorId
        && s.delegations[d].idempotencyKey == key
      ensures key.None?
    {
      assert d in KeyHolders(s, r.delegatorId, key);
    }
  }

  lemma InsertedKeepsParties(
    s: Tables, r: DelegationRequest, key: Option<string>, apps: seq<int>, id: nat, first: nat, now: int)
    requires ItemsMatch(s) && DelegatorResponsible(s) && PartiesNotBlocked(s)
    requires MayCreate(s, r, key, apps, id, first, now)
    ensures DelegatorResponsible(Inserted(s, r, key, apps, id, first, now))
    ensures PartiesNotBlocked(Inserted(s, r, key, apps, id, first, now))
  {
    var t := Inserted(s, r, key, apps, id, first, now);
    InsertedItems(s, r, key, apps, id, first, now);
    forall i: nat | OpenItem(t, i) && t.items[i].delegationId in t.delegations ensures HeldByDelegator(t, i) {
      if i in s.items {
        assert OpenItem(s, i) && HeldByDelegator(s, i);
      } else {
        assert AcceptableApplication(s, r, apps[i - first], None);
      }
    }
    forall d | OpenDelegation(t, d)
      ensures NotBlocked(t, t.delegations[d].delegatorId) && NotBlocked(t, t.delegations[d].delegateId)
    {
      assert d == id || OpenDelegation(s, d);
    }
  }

  lemma CreateKeepsInv(
    s: Tables, r: DelegationRequest, key: Option<string>, apps: seq<int>, id: nat, first: nat, clock: int, now: int)
    requires Inv(s, clock) && clock <= now && MayCreate(s, r, key, apps, id, first, now)
    ensures Inv(Inserted(s, r, key, apps, id, first, now), now)
  {
    assert StartedBefore(Inserted(s, r, key, apps, id, first, now), now);
    hide ItemsMatch, OneOpenItemPerApplication, DistinctApplications, NonEmptyDelegations,
         Windows, DelegatorResponsible, PartiesNotBlocked, KeysUnique, Inserted, MayCreate, StartedBefore;
    InsertedKeepsItems(s, r, key, apps, id, first, now);
    InsertedKeepsNonEmpty(s, r, key, apps, id, first, now);
    InsertedKeepsRows(s, r, key, apps, id, first, now);
    InsertedKeepsParties(s, r, key, apps, id, first, now);
  }

  /** After the first loop of blocking, no open delegation names the target. */
  lemma EndForUserClosesAll(s: Tables, user: int, why: string, actor: Option<int>, now: int)
    ensures forall d | OpenDelegation(EndForUser(s, user, why, actor, now), d) ::
              OpenDelegation(s, d) && !Names(s.delegations[d], user)
    ensures forall d | d in s.delegations && !(s.delegations[d].status.Open() && Names(s.delegations[d], user)) ::
              EndForUser(s, user, why, actor, now).delegations[d] == s.delegations[d]
    ensures forall d | d in s.delegations && s.delegations[d].status.Open() && Names(s.delegations[d], user) ::
              EndForUser(s, user, why, actor, now).delegations[d].status == Terminated
  {
  }

  /** Everything but the last two clauses of Consistent reads only the delegation and item rows. */
  lemma ConsistentRows(s: Tables, t: Tables)
    requires Consistent(s) && t.delegations == s.delegations && t.items == s.items
    requires DelegatorResponsible(t) && PartiesNotBlocked(t)
    ensures Consistent(t)
  {
    hide DelegatorResponsible, PartiesNotBlocked, OneOpenItemPerApplication;
    assert OneOpenItemPerApplication(t) by { SameOpenItems(s, t); }
    forall d | d in t.delegations ensures ApplicationsOf(t, d) != {} {
      SameApplicationsOf(s, t, d);
    }
  }

  lemma SameOpenItems(s: Tables, t: Tables)
    requires OneOpenItemPerApplication(s) && t.items == s.items
    ensures OneOpenItemPerApplication(t)
  {
    forall i: nat, j: nat | OpenItem(t, i) && OpenItem(t, j) && t.items[i].applicationId == t.items[j].applicationId
      ensures i == j
    {
      assert OpenItem(s, i) && OpenItem(s, j);
    }
  }

  lemma SameApplicationsOf(s: Tables, t: Tables, d: nat)
    requires t.items == s.items
    ensures ApplicationsOf(t, d) == ApplicationsOf(s, d)
  {
  }

  /**
    Termination comes before reassignment, so an item that is still open afterwards has another
    delegator and keeps its responsible user; and no open delegation names the blocked user.
   */
  lemma BlockKeepsInv(s: Tables, actor: int, target: int, action: Reassignment, clock: int, now: int)
    requires Inv(s, clock) && clock <= now
    ensures Inv(Block(s, actor, target, action, now), now)
  {
    if BlockVerdict(s, actor, target, action).Blocked? {
      var why := BlockReason(s, target);
      var t := EndForUser(s, target, why, Some(actor), now);
      var u := BlockedTables(s, actor, target, action, now);
      EndForUserKeepsInv(s, target, why, Some(actor), clock, now);
      EndForUserClosesAll(s, target, why, Some(actor), now);
      assert DelegatorResponsible(u) && PartiesNotBlocked(u) by {
        BlockKeepsParties(s, t, u, actor, target, action, now);
      }
      hide Consistent;
      ConsistentRows(t, u);
    }
  }

  lemma BlockKeepsParties(
    s: Tables, t: Tables, u: Tables, actor: int, target: int, action: Reassignment, now: int)
    requires target in s.users && t == EndForUser(s, target, BlockReason(s, target), Some(actor), now)
    requires u == BlockedTables(s, actor, target, action, now)
    requires ItemsMatch(t) && DelegatorResponsible(t) && PartiesNotBlocked(t)
    ensures DelegatorResponsible(u) && PartiesNotBlocked(u)
  {
    EndForUserClosesAll(s, target, BlockReason(s, target), Some(actor), now);
    forall i: nat | OpenItem(u, i) && u.items[i].delegationId in u.delegations ensures HeldByDelegator(u, i) {
      assert OpenItem(t, i) && HeldByDelegator(t, i);
      var d := t.items[i].delegationId;
      assert OpenDelegation(t, d);
    }
    forall d: nat | OpenDelegation(u, d)
      ensures NotBlocked(u, u.delegations[d].delegatorId) && NotBlocked(u, u.delegations[d].delegateId)
    {
      assert OpenDelegation(t, d);
    }
  }

  lemma OtherKeepsInv(s: Tables, t: Tables, clock: int, now: int)
    requires Inv(s, clock) && clock <= now && OtherTransaction(s, t)
    ensures Inv(t, now)
  {
    forall i: nat | OpenItem(t, i) && t.items[i].delegationId in t.delegations ensures HeldByDelegator(t, i) {
      assert OpenItem(s, i) && HeldByDelegator(s, i);
    }
    forall d: nat | OpenDelegation(t, d)
      ensures NotBlocked(t, t.delegations[d].delegatorId) && NotBlocked(t, t.delegations[d].delegateId)
    {
      assert OpenDelegation(s, d);
    }
    ConsistentRows(s, t);
  }

  lemma ApplyKeepsInv(s: Tables, step: Step, clock: int, now: int)
    requires Inv(s, clock) && clock <= now
    ensures Inv(Apply(s, step, now), now)
  {
    hide Consistent;
    match step
    case CreateStep(r, key, apps, id, first) =>
      if MayCreate(s, r, key, apps, id, first, now) { CreateKeepsInv(s, r, key, apps, id, first, clock, now); }
    case TickStep => if !TickRaises(s, now) { TickKeepsInv(s, clock, now); }
    case CancelStep(id, why, actor) => EndOneKeepsInv(s, id, Close(Cancelled, why, Some(actor)), clock, now);
    case TerminateStep(id, why, actor) => EndOneKeepsInv(s, id, Close(Terminated, why, Some(actor)), clock, now);
    case EndForUserStep(user, why, actor) => EndForUserKeepsInv(s, user, why, actor, clock, now);
    case BlockStep(actor, target, action) => BlockKeepsInv(s, actor, target, action, clock, now);
    case OtherStep(after) => if OtherTransaction(s, after) { OtherKeepsInv(s, after, clock, now); }
  }

  /** Every reachable state is consistent, with no help from database constraints. */
  lemma {:induction false} RunKeepsInv(s: Tables, clock: int, run: seq<TimedStep>)
    requires Inv(s, clock) && InOrder(clock, run)
    ensures Inv(Run(s, run), ClockAfter(clock, run))
    decreases |run|
  {
    if run != [] {
      hide Consistent, Apply;
      ApplyKeepsInv(s, run[0].step, clock, run[0].now);
      RunKeepsInv(Apply(s, run[0].step, run[0].now), run[0].now, run[1..]);
    }
  }

  lemma EmptyTablesInv(s: Tables, clock: int)
    requires s.delegations == map[] && s.items == map[]
    ensures Inv(s, clock)
  {
  }
}
