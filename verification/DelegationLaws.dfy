/**
  What the delegation operations leave in the tables, column by column: who has access, what a new
  delegation looks like, what a tick, a cancellation and a block write, and whom they notify.
 */
module DelegationLaws {
  import opened Options
  import opened Sets
  import opened DelegationTables
  import opened DelegationSteps
  import opened DelegationInvariants
  import opened DelegationTheorems

  // ---------------------------------------------------------------------
  // Access
  // ---------------------------------------------------------------------

  /** Access is the delegate's, while the delegation is active and inside its window. */
  lemma AccessIff(s: Tables, user: int, app: int, now: int)
    requires ItemsMatch(s)
    ensures AccessRows(s, user, app, now) != {} <==>
            exists i | i in s.items ::
              && s.items[i].applicationId == app
              && var row := s.delegations[s.items[i].delegationId];
                 row.delegateId == user && row.status == Active && row.startsAt <= now && now < row.endsAt
  {
    if AccessRows(s, user, app, now) != {} {
      var i :| i in AccessRows(s, user, app, now);
      assert i in s.items && s.items[i].applicationId == app;
    }
    if i :| i in s.items && s.items[i].applicationId == app
            && var row := s.delegations[s.items[i].delegationId];
               row.delegateId == user && row.status == Active && row.startsAt <= now && now < row.endsAt {
      assert i in AccessRows(s, user, app, now);
    }
  }

  /** The delegation a row of the access query leads to, and where that leads. */
  lemma AccessRow(s: Tables, user: int, app: int, now: int, i: nat)
    requires i in AccessRows(s, user, app, now)
    ensures i in s.items && s.items[i].delegationId in s.delegations
    ensures var row := s.delegations[s.items[i].delegationId];
            row.delegateId == user && row.status == Active && row.startsAt <= now && now < row.endsAt
    ensures app in ApplicationsOf(s, s.items[i].delegationId)
  {
  }

  lemma HeldIff(s: Tables, user: int, app: int)
    requires ItemsMatch(s)
    ensures app in HeldApplications(s, user) <==>
            exists i | i in s.items ::
              && s.items[i].applicationId == app
              && s.delegations[s.items[i].delegationId].delegateId == user
              && s.delegations[s.items[i].delegationId].status == Active
  {
    if app in HeldApplications(s, user) {
      var i :| i in s.items && s.items[i].status == Active && s.items[i].delegationId in s.delegations
               && s.delegations[s.items[i].delegationId].status == Active
               && s.delegations[s.items[i].delegationId].delegateId == user && s.items[i].applicationId == app;
      assert s.items[i].applicationId == app;
    }
  }

  /** Right after a committed tick the two agree: a user can reach exactly what active delegations to them hold. */
  lemma AccessAfterTick(s: Tables, clock: int, now: int, user: int, app: int)
    requires Inv(s, clock) && clock <= now
    ensures AccessRows(Tick(s, now), user, app, now) != {} <==> app in HeldApplications(Tick(s, now), user)
  {
    TickKeepsInv(s, clock, now);
    var t := Tick(s, now);
    assert ItemsMatch(t);
    AccessIff(t, user, app, now);
    HeldIff(t, user, app);
    TickWindows(s, clock, now);
    hide Inv, Tick, AccessRows, HeldApplications;
  }

  lemma TickWindows(s: Tables, clock: int, now: int)
    requires Inv(s, clock) && clock <= now
    ensures var t := Tick(s, now);
            t.delegations.Keys == s.delegations.Keys
            && forall d | d in t.delegations && t.delegations[d].status == Active ::
                 t.delegations[d].startsAt <= now < t.delegations[d].endsAt
  {
    forall d | d in s.delegations { TickClock(s, clock, now, d); }
    assert Tick(s, now).delegations.Keys == s.delegations.Keys;
    hide Tick, Inv;
  }

  // ---------------------------------------------------------------------
  // Creation
  // ---------------------------------------------------------------------

  predicate OpenStatus(status: DelegationStatus) { status == Scheduled || status == Active }

  /** Another open delegation than the one ignored has an open item of the application. */
  ghost predicate Elsewhere(s: Tables, app: int, ignore: Option<nat>) {
    exists i | i in s.items ::
      && s.items[i].applicationId == app && OpenStatus(s.items[i].status)
      && s.items[i].delegationId in s.delegations && OpenStatus(s.delegations[s.items[i].delegationId].status)
      && ignore != Some(s.items[i].delegationId)
  }

  lemma ElsewhereIff(s: Tables, app: int, ignore: Option<nat>)
    ensures Elsewhere(s, app, ignore) <==> ConflictRows(s, app, ignore) != {}
  {
    if ConflictRows(s, app, ignore) != {} {
      var i :| i in ConflictRows(s, app, ignore);
      assert i in s.items && s.items[i].applicationId == app;
    }
    if i :| i in s.items && s.items[i].applicationId == app && OpenStatus(s.items[i].status)
            && s.items[i].delegationId in s.delegations && OpenStatus(s.delegations[s.items[i].delegationId].status)
            && ignore != Some(s.items[i].delegationId) {
      assert i in ConflictRows(s, app, ignore);
    }
  }

  function BothRoles(user: int, company: int): set<ActiveRole> {
    {ActiveRole(user, company, ClientExecutor), ActiveRole(user, company, ClientAdmin)}
  }

  /** What a request has to satisfy, in terms of the rows it names; times are in seconds. */
  lemma AcceptableIff(s: Tables, r: DelegationRequest, apps: set<int>, now: int, ignore: Option<nat>)
    ensures Acceptable(s, r, apps, now, ignore) <==>
            && r.delegatorId != r.delegateId
            && r.startsAt >= now - 300 && r.endsAt > r.startsAt && r.endsAt - r.startsAt <= 2592000
            && r.delegatorId in s.users && s.users[r.delegatorId] == User(ActiveUser, Client)
            && r.delegateId in s.users && s.users[r.delegateId] == User(ActiveUser, Client)
            && BothRoles(r.delegatorId, r.companyId) * s.roles != {}
            && BothRoles(r.delegateId, r.companyId) * s.roles != {}
            && apps != {}
            && forall a | a in apps ::
                 && a in s.applications
                 && s.applications[a].companyId == r.companyId && s.applications[a].assignedTo == Some(r.delegatorId)
                 && s.applications[a].status !in {CancelledByClient, PolicyIssued, ClosedStatus, RejectedStatus}
                 && !Elsewhere(s, a, ignore)
  {
    RoleSets(s, r.delegatorId, r.companyId);
    RoleSets(s, r.delegateId, r.companyId);
    forall a ensures Elsewhere(s, a, ignore) <==> ConflictRows(s, a, ignore) != {} { ElsewhereIff(s, a, ignore); }
    hide Elsewhere, ConflictRows, HasDelegationRole;
  }

  lemma RoleSets(s: Tables, user: int, company: int)
    ensures BothRoles(user, company) * s.roles != {} <==> HasDelegationRole(s, user, company)
  {
    var both := BothRoles(user, company);
    assert ActiveRole(user, company, ClientExecutor) in both && ActiveRole(user, company, ClientAdmin) in both;
    if HasDelegationRole(s, user, company) {
      assert ActiveRole(user, company, ClientExecutor) in both * s.roles
             || ActiveRole(user, company, ClientAdmin) in both * s.roles;
    }
  }

  /** The lookup of a role finds two rows exactly for a user who holds both. */
  lemma RoleRaisesIff(s: Tables, user: int, company: int)
    ensures AmbiguousRole(s, user, company) <==> BothRoles(user, company) <= s.roles
  {
  }

  /** In a consistent state the checks raise exactly when one of the parties holds both allowed roles in the company. */
  lemma RaisesIff(s: Tables, r: DelegationRequest, apps: set<int>, ignore: Option<nat>)
    requires Consistent(s)
    ensures ValidationRaises(s, r, apps, ignore) <==>
            exists user | user in {r.delegatorId, r.delegateId} :: BothRoles(user, r.companyId) <= s.roles
  {
    forall a ensures |ConflictRows(s, a, ignore)| <= 1 { SingleRowQueries(s, a, 0, 0, ignore, 0); }
    RoleRaisesIff(s, r.delegatorId, r.companyId);
    RoleRaisesIff(s, r.delegateId, r.companyId);
    hide Consistent, ConflictRows, AmbiguousRole;
    assert r.delegatorId in {r.delegatorId, r.delegateId} && r.delegateId in {r.delegatorId, r.delegateId};
  }

  /** In any state, they also raise when two items of an application are open in other open delegations. */
  lemma RaisesForTwoItems(s: Tables, r: DelegationRequest, apps: set<int>, ignore: Option<nat>, a: int, i: nat, j: nat)
    requires a in apps && a in s.applications && i != j
    requires i in ConflictRows(s, a, ignore) && j in ConflictRows(s, a, ignore)
    ensures ValidationRaises(s, r, apps, ignore)
  {
    hide ConflictRows;
    if |ConflictRows(s, a, ignore)| <= 1 { Singleton(ConflictRows(s, a, ignore), i); }
  }

  /** A creation goes through exactly for an acceptable request whose key, if it has one, the user has not used. */
  lemma CreationIff(
    s: Tables, r: DelegationRequest, key: Option<string>, apps: seq<int>, id: nat, first: nat, now: int)
    requires FreshIds(s, id, first) && forall i, j | 0 <= i < j < |apps| :: apps[i] < apps[j]
    ensures var used := key.Some? && exists d | d in s.delegations ::
                          s.delegations[d].createdBy == r.delegatorId && s.delegations[d].idempotencyKey == key;
            Apply(s, CreateStep(r, key, apps, id, first), now) ==
              if Acceptable(s, r, (set a | a in apps), now, None) && !used
              then Inserted(s, r, key, apps, id, first, now) else s
  {
    assert Elements(apps) == set a | a in apps;
    if d :| d in s.delegations && s.delegations[d].createdBy == r.delegatorId
            && s.delegations[d].idempotencyKey == key {
      assert d in KeyHolders(s, r.delegatorId, key);
    }
    hide Acceptable, Inserted;
  }

  /** A delegation that may have begun starts active, any other scheduled, and it keeps the terms asked for. */
  lemma CreatedDelegation(
    s: Tables, r: DelegationRequest, key: Option<string>, apps: seq<int>, id: nat, first: nat, now: int)
    ensures var t := Inserted(s, r, key, apps, id, first, now);
            t.delegations == s.delegations[id := Delegation(
              r.companyId, r.delegatorId, r.delegateId, r.startsAt, r.endsAt,
              if r.startsAt <= now then Active else Scheduled, r.delegatorId, key, None, None, None, None)]
  {
  }

  /** One item for each application, in order, with the delegation's status and open from now if it is active. */
  lemma CreatedItems(
    s: Tables, r: DelegationRequest, key: Option<string>, apps: seq<int>, id: nat, first: nat, now: int, i: nat)
    requires FreshIds(s, id, first)
    ensures var t := Inserted(s, r, key, apps, id, first, now);
            && (i in s.items ==> i in t.items && t.items[i] == s.items[i])
            && (i in t.items && i !in s.items <==> first <= i < first + |apps|)
            && (first <= i < first + |apps| && r.startsAt <= now ==>
                  t.items[i] == Item(id, apps[i - first], Active, Some(now), None, None))
            && (first <= i < first + |apps| && r.startsAt > now ==>
                  t.items[i] == Item(id, apps[i - first], Scheduled, None, None, None))
  {
    InsertedItems(s, r, key, apps, id, first, now);
    hide PartyNotifications, RevokedSessions;
  }

  /** Both parties hear of the creation, and of the activation if it is active; then the delegate is logged out. */
  lemma CreatedNotices(
    s: Tables, r: DelegationRequest, key: Option<string>, apps: seq<int>, id: nat, first: nat, now: int)
    ensures var t := Inserted(s, r, key, apps, id, first, now);
            && t.applications == s.applications && t.users == s.users && t.roles == s.roles
            && t.notifications == s.notifications
                 + {Notification(id, DelegationCreated, r.delegatorId),
                     Notification(id, DelegationCreated, r.delegateId)}
                 + (if r.startsAt <= now
                    then {Notification(id, DelegationActivated, r.delegatorId),
                          Notification(id, DelegationActivated, r.delegateId)} else {})
            && SessionsEnded(s, t, (if r.startsAt <= now then {r.delegateId} else {}), now)
  {
    hide NewItems;
  }

  /** Exactly the live sessions of these users were ended, at this moment. */
  ghost predicate SessionsEnded(s: Tables, t: Tables, users: set<int>, now: int) {
    && t.sessions.Keys == s.sessions.Keys
    && forall k | k in s.sessions ::
         if s.sessions[k].userId in users && s.sessions[k].revokedAt.None?
         then t.sessions[k] == UserSession(s.sessions[k].userId, Some(now))
         else t.sessions[k] == s.sessions[k]
  }

  // ---------------------------------------------------------------------
  // A tick
  // ---------------------------------------------------------------------

  /** A tick is rolled back exactly when a party of some due delegation holds both allowed roles in its company. */
  lemma TickRaisesIff(s: Tables, now: int)
    ensures TickRaises(s, now) <==>
            exists d, user |
              d in s.delegations && user in {s.delegations[d].delegatorId, s.delegations[d].delegateId} ::
              && s.delegations[d].status == Scheduled && s.delegations[d].startsAt <= now
              && BothRoles(user, s.delegations[d].companyId) <= s.roles
    ensures Apply(s, TickStep, now) == if TickRaises(s, now) then s else Tick(s, now)
  {
    hide Tick;
    if d :| RaisesTick(s, d, now) {
      RoleRaisesIff(s, s.delegations[d].delegatorId, s.delegations[d].companyId);
      RoleRaisesIff(s, s.delegations[d].delegateId, s.delegations[d].companyId);
      var user := if BothRoles(s.delegations[d].delegatorId, s.delegations[d].companyId) <= s.roles
                  then s.delegations[d].delegatorId else s.delegations[d].delegateId;
      assert user in {s.delegations[d].delegatorId, s.delegations[d].delegateId};
    }
    if d, user :| d in s.delegations && user in {s.delegations[d].delegatorId, s.delegations[d].delegateId}
                  && s.delegations[d].status == Scheduled && s.delegations[d].startsAt <= now
                  && BothRoles(user, s.delegations[d].companyId) <= s.roles {
      RoleRaisesIff(s, user, s.delegations[d].companyId);
      assert RaisesTick(s, d, now);
    }
  }

  /** What a tick makes of each delegation. */
  lemma TickDelegations(s: Tables, now: int, d: nat)
    requires d in s.delegations
    ensures var row, row' := s.delegations[d], Tick(s, now).delegations[d];
            && (row.status == Scheduled && row.startsAt <= now ==>
                  if now < row.endsAt && Acceptable(s, RequestOf(row), ApplicationsOf(s, d), now, Some(d))
                  then row' == row.(status := Active, activatedNotifiedAt := Some(now))
                  else row' == row.(status := Failed, completionReason := Some("activation_validation_failed"),
                                    cancelledBy := None, cancelledAt := None))
            && (row.status == Active && row.endsAt <= now ==>
                  row' == row.(status := Expired, completionReason := Some("ends_at_reached"),
                               cancelledBy := None, cancelledAt := None))
            && (!(row.status == Scheduled && row.startsAt <= now) && !(row.status == Active && row.endsAt <= now) ==>
                  row' == row)
  {
    hide Acceptable, ChangedItems, ChangeNotifications, ChangedDelegates, RevokedSessions;
  }

  lemma RequestTerms(row: Delegation)
    ensures RequestOf(row) == DelegationRequest(row.delegatorId, row.delegateId, row.companyId, row.startsAt,
        row.endsAt)
  {
  }

  /** The applications revalidated are those of the delegation's own items. */
  lemma OwnApplications(s: Tables, d: nat, a: int)
    ensures a in ApplicationsOf(s, d)
        <==> exists i | i in s.items :: s.items[i].delegationId == d && s.items[i].applicationId == a
  {
  }

  /** Items follow: access starts with activation, ends with any other change, and the reason is the delegation's. */
  lemma TickItems(s: Tables, now: int, i: nat)
    requires ItemsMatch(s) && i in s.items
    ensures var row, item, t := s.delegations[s.items[i].delegationId], s.items[i], Tick(s, now);
            i in t.items
            && var row' := t.delegations[item.delegationId];
            t.items[i] ==
              if row'.status == row.status then item
              else if row'.status == Active then item.(status := Active, accessStartedAt := Some(now))
              else item.(status := row'.status, accessEndedAt := Some(now), completionReason := row'.completionReason)
  {
    hide Acceptable, ChangeNotifications, ChangedDelegates, RevokedSessions;
  }

  /** What the parties of a delegation are told when it comes to a new status. */
  function NoticeOf(status: DelegationStatus): NotificationEvent {
    match status
    case Active => DelegationActivated
    case Cancelled => DelegationCancelled
    case Expired => DelegationExpired
    case Failed => DelegationActivationFailed
    case _ => DelegationTerminated
  }

  /** A bulk change tells both parties of each delegation what became of it, and logs its delegate out. */
  ghost predicate Announced(s: Tables, t: Tables, changed: set<nat>, now: int) {
    && t.delegations.Keys == s.delegations.Keys && changed <= s.delegations.Keys
    && (forall n :: n in t.notifications <==>
          n in s.notifications
          || (n.delegationId in changed
              && n.event == NoticeOf(t.delegations[n.delegationId].status)
              && (n.recipientId == s.delegations[n.delegationId].delegatorId
                  || n.recipientId == s.delegations[n.delegationId].delegateId)))
    && SessionsEnded(s, t, (set d | d in changed :: s.delegations[d].delegateId), now)
    && t.applications == s.applications && t.users == s.users && t.roles == s.roles
  }

  lemma TransitionAnnounced(s: Tables, changes: map<nat, Change>, now: int)
    requires changes.Keys <= s.delegations.Keys
    requires forall d | d in changes && changes[d].Close? ::
        changes[d].status in {Cancelled, Expired, Terminated, Failed}
    ensures Announced(s, Transition(s, changes, now), changes.Keys, now)
  {
    TransitionNotices(s, changes, now);
    TransitionSessions(s, changes, now);
    hide ChangeNotifications, ChangedItems, ChangedDelegations, ChangedDelegates, RevokedSessions, NoticeOf,
      SessionsEnded;
  }

  lemma TransitionSessions(s: Tables, changes: map<nat, Change>, now: int)
    requires changes.Keys <= s.delegations.Keys
    ensures SessionsEnded(s, Transition(s, changes, now),
        (set d | d in changes.Keys :: s.delegations[d].delegateId), now)
    ensures Transition(s, changes, now).delegations.Keys == s.delegations.Keys
  {
    assert ChangedDelegates(s, changes) == set d | d in changes.Keys :: s.delegations[d].delegateId;
    hide ChangeNotifications, ChangedItems, ChangedDelegates;
  }

  lemma TransitionNotices(s: Tables, changes: map<nat, Change>, now: int)
    requires changes.Keys <= s.delegations.Keys
    requires forall d | d in changes && changes[d].Close? ::
        changes[d].status in {Cancelled, Expired, Terminated, Failed}
    ensures var t := Transition(s, changes, now);
            forall n :: n in t.notifications <==>
              n in s.notifications
              || (n.delegationId in changes
                  && n.event == NoticeOf(t.delegations[n.delegationId].status)
                  && (n.recipientId == s.delegations[n.delegationId].delegatorId
                      || n.recipientId == s.delegations[n.delegationId].delegateId))
  {
    hide ChangedItems, RevokedSessions, ChangedDelegates;
    var t := Transition(s, changes, now);
    forall d | d in changes ensures EventOf(changes[d]) == NoticeOf(t.delegations[d].status) {}
    forall n ensures n in ChangeNotifications(s, changes) <==>
        n.delegationId in changes && n.event == EventOf(changes[n.delegationId])
        && (n.recipientId == s.delegations[n.delegationId].delegatorId
            || n.recipientId == s.delegations[n.delegationId].delegateId)
    {
      if n.delegationId in changes {
        assert n in PartyNotifications(n.delegationId, s.delegations[n.delegationId], EventOf(changes[n.delegationId]))
               <==> n.event == EventOf(changes[n.delegationId])
                    && (n.recipientId == s.delegations[n.delegationId].delegatorId
                        || n.recipientId == s.delegations[n.delegationId].delegateId);
      }
    }
    hide EventOf, NoticeOf, ChangeNotifications, ChangedDelegations;
  }

  ghost function StatusChanged(s: Tables, t: Tables): set<nat> {
    set d | d in s.delegations && d in t.delegations && t.delegations[d].status != s.delegations[d].status
  }

  /** A tick tells the parties of exactly the delegations whose status it changed. */
  lemma TickNotices(s: Tables, now: int)
    ensures Announced(s, Tick(s, now), StatusChanged(s, Tick(s, now)), now)
  {
    TickChangesStatus(s, now);
    TickIs(s, now);
    assert forall d | d in TickChanges(s, now) && TickChanges(s, now)[d].Close? ::
        TickChanges(s, now)[d].status in {Cancelled, Expired, Terminated, Failed} by { hide Acceptable; }
    hide *;
    TransitionAnnounced(s, TickChanges(s, now), now);
  }

  lemma TickChangesStatus(s: Tables, now: int)
    ensures TickChanges(s, now).Keys == StatusChanged(s, Tick(s, now))
  {
    forall d: nat ensures d in TickChanges(s, now).Keys <==> d in StatusChanged(s, Tick(s, now)) {
      hide Activatable, ChangedItems, ChangeNotifications, ChangedDelegates, RevokedSessions;
    }
    hide *;
  }

  lemma TickIs(s: Tables, now: int)
    ensures TickChanges(s, now).Keys <= s.delegations.Keys && Tick(s, now) == Transition(s, TickChanges(s, now), now)
  {
    hide Transition;
  }

  // ---------------------------------------------------------------------
  // Cancelling and terminating
  // ---------------------------------------------------------------------

  /** A cancelled delegation says who cancelled it and when; its items say when access ended. */
  lemma CancelledRows(s: Tables, id: nat, why: string, actor: int, now: int)
    requires ItemsMatch(s) && OpenDelegation(s, id)
    ensures var t := Apply(s, CancelStep(id, why, actor), now);
            && t.delegations == s.delegations[id := s.delegations[id].(
                 status := Cancelled, completionReason := Some(why), cancelledBy := Some(actor),
                     cancelledAt := Some(now))]
            && EndedItems(s, t, {id}, Cancelled, why, now)
            && Announced(s, t, {id}, now)
  {
    CloseOne(s, id, Close(Cancelled, why, Some(actor)), now);
    hide Transition, EndedItems, Announced;
  }

  lemma TerminatedRows(s: Tables, id: nat, why: string, actor: int, now: int)
    requires ItemsMatch(s) && OpenDelegation(s, id)
    ensures var t := Apply(s, TerminateStep(id, why, actor), now);
            && t.delegations == s.delegations[id := s.delegations[id].(
                 status := Terminated, completionReason := Some(why), cancelledBy := None, cancelledAt := None)]
            && EndedItems(s, t, {id}, Terminated, why, now)
            && Announced(s, t, {id}, now)
  {
    CloseOne(s, id, Close(Terminated, why, Some(actor)), now);
    hide Transition, EndedItems, Announced;
  }

  /** Exactly the items of these delegations are closed. */
  ghost predicate EndedItems(s: Tables, t: Tables, ended: set<nat>, status: DelegationStatus, why: string, now: int) {
    && t.items.Keys == s.items.Keys
    && forall i | i in s.items ::
         t.items[i] == if s.items[i].delegationId in ended
                       then s.items[i].(status := status, accessEndedAt := Some(now), completionReason := Some(why))
                       else s.items[i]
  }

  /** The row of a closed delegation; only a cancellation is anybody's. */
  ghost predicate ClosedRow(s: Tables, t: Tables, id: nat, c: Change, now: int)
    requires id in s.delegations && c.Close?
  {
    t.delegations == s.delegations[id := s.delegations[id].(
      status := c.status, completionReason := Some(c.reason),
      cancelledBy := if c.status == Cancelled then c.actor else None,
      cancelledAt := if c.status == Cancelled then Some(now) else None)]
  }

  lemma CloseOne(s: Tables, id: nat, c: Change, now: int)
    requires ItemsMatch(s) && OpenDelegation(s, id) && c.Close? && c.status in {Cancelled, Expired, Terminated, Failed}
    ensures var t := Transition(s, map[id := c], now);
            && ClosedRow(s, t, id, c, now) && EndedItems(s, t, {id}, c.status, c.reason, now)
            && Announced(s, t, {id}, now)
  {
    assert (map[id := c]).Keys == {id};
    TransitionAnnounced(s, map[id := c], now);
    CloseOneRows(s, id, c, now);
    hide *;
  }

  lemma CloseOneRows(s: Tables, id: nat, c: Change, now: int)
    requires ItemsMatch(s) && OpenDelegation(s, id) && c.Close?
    ensures var t := Transition(s, map[id := c], now);
            ClosedRow(s, t, id, c, now) && EndedItems(s, t, {id}, c.status, c.reason, now)
  {
    hide ChangeNotifications, ChangedDelegates, RevokedSessions;
  }

  /** A delegation that is not open is left alone. */
  lemma ClosedIsLeft(s: Tables, id: nat, why: string, actor: int, now: int)
    ensures !(id in s.delegations && OpenStatus(s.delegations[id].status)) ==>
              Apply(s, CancelStep(id, why, actor), now) == s && Apply(s, TerminateStep(id, why, actor), now) == s
  {
    hide Transition;
  }

  /** The open delegations to or from a user. */
  ghost function OpenNaming(s: Tables, user: int): set<nat> {
    set d | d in s.delegations && OpenStatus(s.delegations[d].status)
            && (s.delegations[d].delegatorId == user || s.delegations[d].delegateId == user)
  }

  /** The open delegations to or from a user, and nothing else, are ended together. */
  lemma EndedForUser(s: Tables, user: int, why: string, actor: Option<int>, now: int)
    requires ItemsMatch(s)
    ensures var t := EndForUser(s, user, why, actor, now);
            && EndedDelegations(s, t, OpenNaming(s, user), why)
            && EndedItems(s, t, OpenNaming(s, user), Terminated, why, now)
            && Announced(s, t, OpenNaming(s, user), now)
  {
    var m := ClosingFor(s, user, why, actor);
    assert m.Keys == OpenNaming(s, user);
    assert m.Keys <= s.delegations.Keys;
    assert forall d | d in m :: m[d] == Close(Terminated, why, actor) && OpenStatus(s.delegations[d].status);
    assert EndForUser(s, user, why, actor, now) == Transition(s, m, now) by { hide Transition; }
    hide *;
    TransitionAnnounced(s, m, now);
    TerminationRows(s, m, why, actor, now);
  }

  /** Exactly these delegations are terminated, for this reason. */
  ghost predicate EndedDelegations(s: Tables, t: Tables, ended: set<nat>, why: string) {
    && t.delegations.Keys == s.delegations.Keys
    && forall d | d in s.delegations ::
         t.delegations[d] == if d in ended
                             then s.delegations[d].(status := Terminated, completionReason := Some(why),
                                                    cancelledBy := None, cancelledAt := None)
                             else s.delegations[d]
  }

  lemma TerminationRows(s: Tables, m: map<nat, Change>, why: string, actor: Option<int>, now: int)
    requires ItemsMatch(s) && m.Keys <= s.delegations.Keys
    requires forall d | d in m :: m[d] == Close(Terminated, why, actor) && OpenStatus(s.delegations[d].status)
    ensures EndedDelegations(s, Transition(s, m, now), m.Keys, why)
    ensures EndedItems(s, Transition(s, m, now), m.Keys, Terminated, why, now)
  {
    hide ChangeNotifications, ChangedDelegates, RevokedSessions;
  }

  // ---------------------------------------------------------------------
  // Blocking
  // ---------------------------------------------------------------------

  predicate IsFinal(status: ApplicationStatus) {
    status in {CancelledByClient, PolicyIssued, ClosedStatus, RejectedStatus}
  }

  lemma UnfinishedIff(s: Tables, user: int, a: int)
    ensures a in ActiveApplications(s, user) <==>
            a in s.applications && s.applications[a].assignedTo == Some(user) && !IsFinal(s.applications[a].status)
  {
  }

  /** Each refusal of a block has its own condition; the verdict on the assignee comes last. */
  lemma BlockVerdicts(s: Tables, actor: int, target: int, action: Reassignment)
    ensures var verdict := BlockVerdict(s, actor, target, action);
            var apps := ActiveApplications(s, target);
            && (verdict == UserNotFound <==> target !in s.users)
            && (verdict == CannotBlockSelf <==> target in s.users && target == actor)
            && (verdict == AlreadyBlocked <==>
                  target in s.users && target != actor && s.users[target].status == BlockedUser)
            && (verdict == ReassignmentRequired <==>
                  target in s.users && target != actor && s.users[target].status != BlockedUser && apps != {}
                  && (action == NoAction || action == UnknownAction))
            && (verdict == Blocked(0) <==>
                  target in s.users && target != actor && s.users[target].status != BlockedUser && apps == {})
            && (verdict.Blocked? && action.AssignToUser? && apps != {} ==> action.newId.Some?)
  {
    hide AssigneeAllowed, ActiveApplications;
  }

  /** The checks on a new responsible user fail exactly if some company does not allow the user, in one of two ways. */
  lemma AssigneeFailures(s: Tables, user: int, apps: set<int>)
    requires apps != {} && apps <= s.applications.Keys
    ensures var active := user in s.users && s.users[user].status == ActiveUser;
            && (AssigneeFailure(s, user, apps, AssigneeRejected) <==>
                  !active
                  || exists a | a in apps :: BothRoles(user, s.applications[a].companyId) * s.roles == {})
            && (AssigneeFailure(s, user, apps, AssigneeLookupRaised) <==>
                  active && exists a | a in apps :: BothRoles(user, s.applications[a].companyId) <= s.roles)
            && (AssigneeFailure(s, user, apps, AssigneeRejected)
                || AssigneeFailure(s, user, apps, AssigneeLookupRaised)
                <==> exists a | a in apps :: !AssigneeAllowed(s, user, s.applications[a].companyId))
  {
    var some := Member(apps);
    forall a | a in apps
      ensures BothRoles(user, s.applications[a].companyId) * s.roles != {}
              <==> HasDelegationRole(s, user, s.applications[a].companyId)
      ensures AmbiguousRole(s, user, s.applications[a].companyId)
              <==> BothRoles(user, s.applications[a].companyId) <= s.roles
    {
      RoleSets(s, user, s.applications[a].companyId);
      RoleRaisesIff(s, user, s.applications[a].companyId);
    }
    hide BothRoles, HasDelegationRole, AmbiguousRole;
    assert !(user in s.users && s.users[user].status == ActiveUser) ==>
        !AssigneeAllowed(s, user, s.applications[some].companyId);
  }

  /** A new responsible user is active and holds exactly one allowed role in the company of every application. */
  lemma BlockedAssignee(s: Tables, actor: int, target: int, assignee: int, a: int)
    requires BlockVerdict(s, actor, target, AssignToUser(Some(assignee))).Blocked? && a in ActiveApplications(s, target)
    ensures assignee in s.users && s.users[assignee].status == ActiveUser
    ensures ActiveRole(assignee, s.applications[a].companyId, ClientExecutor) in s.roles
            <==> ActiveRole(assignee, s.applications[a].companyId, ClientAdmin) !in s.roles
  {
    assert AssigneeAllowed(s, assignee, s.applications[a].companyId);
    hide ActiveApplications;
  }

  /** The tables after a block. */
  lemma BlockedTablesAre(s: Tables, actor: int, target: int, action: Reassignment, now: int)
    requires BlockVerdict(s, actor, target, action).Blocked?
    ensures var t := Block(s, actor, target, action, now);
            && t.users == s.users[target := User(BlockedUser, s.users[target].userType)]
            && t.applications.Keys == s.applications.Keys && t.roles == s.roles
            && (forall a | a in s.applications ::
                  t.applications[a] ==
                    if a in ActiveApplications(s, target)
                    then s.applications[a].(
                           assignedTo := if action.AssignToUser? then action.newId else None,
                           reassignedFrom := Some(target))
                    else s.applications[a])
            && var why := if ActiveApplications(s, target) != {} then "delegator_blocked" else "user_blocked";
               var e := EndForUser(s, target, why, Some(actor), now);
            && t.delegations == e.delegations && t.items == e.items && t.notifications == e.notifications
            && (forall k | k in s.sessions && s.sessions[k].userId == target ::
                  k in t.sessions && t.sessions[k].revokedAt.Some?)
  {
    hide EndForUser;
    EndForUserSessions(s, target, BlockReason(s, target), Some(actor), now);
    assert forall a | a in s.applications ::
        a in ActiveApplications(s, target) <==> ActiveApplicationOf(s.applications[a], target);
    hide BlockVerdict, ActiveApplicationOf;
  }

  lemma EndForUserSessions(s: Tables, user: int, why: string, actor: Option<int>, now: int)
    ensures EndForUser(s, user, why, actor, now).sessions.Keys == s.sessions.Keys
    ensures forall k | k in s.sessions ::
        EndForUser(s, user, why, actor, now).sessions[k].userId == s.sessions[k].userId
    ensures EndForUser(s, user, why, actor, now).roles == s.roles
  {
  }
}
