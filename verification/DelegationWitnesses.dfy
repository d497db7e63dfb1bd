/**
  Runs from empty tables that reach the states the delegation code does not handle well: a worker
  stuck on a double role, a user blocked together with their applications, and an empty
  idempotency key used twice.
 */
module DelegationWitnesses {
  import opened Options
  import opened DelegationTables
  import opened DelegationSteps
  import opened DelegationInvariants
  import opened DelegationTheorems
  import opened DelegationService

  const EMPTY_TABLES := Tables(map[], map[], {}, map[], map[], {}, map[])

  const CLIENT := User(ActiveUser, Client)
  const DRAFT := Application(7, Some(10), Draft, None)
  const ROLES := {ActiveRole(10, 7, ClientAdmin), ActiveRole(20, 7, ClientExecutor), ActiveRole(30, 7, ClientExecutor)}

  /** Three clients of company 7, and two applications of the first. */
  const PORTAL := Tables(
    map[], map[], {}, map[100 := DRAFT, 101 := DRAFT], map[10 := CLIENT, 20 := CLIENT, 30 := CLIENT], ROLES, map[])

  const TO_20 := DelegationRequest(10, 20, 7, 0, 900)
  const TO_30 := DelegationRequest(10, 30, 7, 950, 2000)

  ghost function OneDelegation(key: Option<string>): Tables {
    Inserted(PORTAL, TO_20, key, [100], 1, 1, 0)
  }

  lemma FirstAccepted(key: Option<string>)
    ensures MayCreate(PORTAL, TO_20, key, [100], 1, 1, 0)
  {
    assert Elements([100]) == {100} by { assert [100][0] == 100; }
    assert ConflictRows(PORTAL, 100, None) == {};
  }

  lemma SecondAcceptable(key: Option<string>)
    ensures Acceptable(OneDelegation(key), TO_30, Elements([101]), 0, None)
    ensures OneDelegation(key).items.Keys == {1}
  {
    assert Elements([101]) == {101} by { assert [101][0] == 101; }
    assert Allotted(1, 1, 1);
    assert ConflictRows(OneDelegation(key), 101, None) == {};
  }

  ghost function TwoDelegations(): Tables {
    Inserted(OneDelegation(None), TO_30, None, [101], 2, 2, 0)
  }

  lemma SecondAccepted()
    ensures MayCreate(OneDelegation(None), TO_30, None, [101], 2, 2, 0)
  {
    SecondAcceptable(None);
    hide Acceptable;
  }

  ghost function SecondRoleGiven(): Tables {
    TwoDelegations().(roles := ROLES + {ActiveRole(30, 7, ClientAdmin)})
  }

  ghost function StuckRun(): seq<TimedStep> {
    [At(0, OtherStep(PORTAL)), At(0, CreateStep(TO_20, None, [100], 1, 1)), At(0, CreateStep(TO_30, None, [101], 2, 2)),
     At(900, OtherStep(SecondRoleGiven()))]
  }

  /** Taking the next step of a run. */
  lemma NextStep(s: Tables, clock: int, run: seq<TimedStep>, k: nat)
    requires k < |run|
    ensures Run(s, run[k..]) == Run(Apply(s, run[k].step, run[k].now), run[k + 1..])
    ensures InOrder(clock, run[k..]) <==> clock <= run[k].now && InOrder(run[k].now, run[k + 1..])
    ensures ClockAfter(clock, run[k..]) == ClockAfter(run[k].now, run[k + 1..])
  {
    hide Apply;
    assert run[k..][1..] == run[k + 1..];
  }

  lemma OtherApplies(s: Tables, after: Tables, now: int)
    requires OtherTransaction(s, after)
    ensures Apply(s, OtherStep(after), now) == after
  {
    hide OtherTransaction;
  }

  lemma CreateApplies(s: Tables, r: DelegationRequest, key: Option<string>, apps: seq<int>, id: nat, item: nat,
      now: int)
    requires MayCreate(s, r, key, apps, id, item, now)
    ensures Apply(s, CreateStep(r, key, apps, id, item), now) == Inserted(s, r, key, apps, id, item, now)
  {
    hide MayCreate, Inserted;
  }

  lemma SetUp()
    ensures Apply(EMPTY_TABLES, OtherStep(PORTAL), 0) == PORTAL
  {
    OtherApplies(EMPTY_TABLES, PORTAL, 0);
  }

  lemma RoleGiven()
    ensures Apply(TwoDelegations(), OtherStep(SecondRoleGiven()), 900) == SecondRoleGiven()
  {
    hide Inserted;
    KeptPortal();
    hide TwoDelegations;
    OtherApplies(TwoDelegations(), SecondRoleGiven(), 900);
  }

  lemma KeptPortal()
    ensures TwoDelegations().applications == PORTAL.applications && TwoDelegations().users == PORTAL.users
  {
    hide NewItems, PartyNotifications, RevokedSessions;
  }

  lemma StuckRunReaches()
    ensures InOrder(0, StuckRun()) && ClockAfter(0, StuckRun()) == 900
        && Run(EMPTY_TABLES, StuckRun()) == SecondRoleGiven()
  {
    var run := StuckRun();
    assert run[0..] == run && run[4..] == [];
    hide MayCreate, Inserted, Apply, Acceptable;
    FirstAccepted(None);
    SecondAccepted();
    SetUp();
    CreateApplies(PORTAL, TO_20, None, [100], 1, 1, 0);
    CreateApplies(OneDelegation(None), TO_30, None, [101], 2, 2, 0);
    RoleGiven();
    hide OneDelegation, TwoDelegations, SecondRoleGiven;
    NextStep(EMPTY_TABLES, 0, run, 0);
    NextStep(PORTAL, 0, run, 1);
    NextStep(OneDelegation(None), 0, run, 2);
    NextStep(TwoDelegations(), 0, run, 3);
  }

  /**
    Reached from empty tables: the delegation to user 20 is over, user 30 has come to hold both roles
    before the delegation to them was to start, and so every tick from then on leaves the first
    delegation active, although it does not concern user 30.
   */
  lemma StuckWorkerReached(ticks: seq<TimedStep>)
    requires InOrder(1000, ticks) && forall k | 0 <= k < |ticks| :: ticks[k].step == TickStep
    ensures InOrder(0, StuckRun())
    ensures var s := Run(EMPTY_TABLES, StuckRun());
            && Inv(s, 900) && 1 in s.delegations && Expiring(s.delegations[1], 1000) && !Names(s.delegations[1], 30)
            && TickRaises(s, 1000) && Run(s, ticks) == s
  {
    StuckRunReaches();
    EmptyTablesInv(EMPTY_TABLES, 0);
    RunKeepsInv(EMPTY_TABLES, 0, StuckRun());
    StuckState();
    hide *;
    StuckWorker(SecondRoleGiven(), 1000, ticks);
  }

  lemma StuckState()
    ensures var s := SecondRoleGiven();
            1 in s.delegations && Expiring(s.delegations[1], 1000) && !Names(s.delegations[1], 30)
                && TickRaises(s, 1000)
  {
    hide NewItems, PartyNotifications, RevokedSessions;
    assert RaisesTick(SecondRoleGiven(), 2, 1000);
  }

  const BACK_TO_10 := AssignToUser(Some(10))

  lemma BlockAccepted()
    ensures BlockVerdict(PORTAL, 1, 10, BACK_TO_10) == Blocked(2) && ActiveApplications(PORTAL, 10) == {100, 101}
  {
    assert ActiveApplications(PORTAL, 10) == {100, 101};
  }

  /** Reached from empty tables: user 10 is blocked and still responsible for both applications. */
  lemma BlockedKeepsApplications()
    ensures var run := [At(0, OtherStep(PORTAL)), At(0, BlockStep(1, 10, BACK_TO_10))];
            var t := Run(EMPTY_TABLES, run);
            && InOrder(0, run) && BlockVerdict(PORTAL, 1, 10, BACK_TO_10) == Blocked(2)
            && 10 in t.users && t.users[10].status == BlockedUser && ActiveApplications(t, 10) == {100, 101}
  {
    var run := [At(0, OtherStep(PORTAL)), At(0, BlockStep(1, 10, BACK_TO_10))];
    assert run[0..] == run && run[2..] == [];
    SetUp();
    BlockAccepted();
    hide BlockVerdict, OpenDelegation, NoLiveSession;
    BlockSucceeds(PORTAL, 1, 10, BACK_TO_10, 0);
    var t := Block(PORTAL, 1, 10, BACK_TO_10, 0);
    assert Apply(PORTAL, run[1].step, 0) == t;
    BlockedStill(t);
    hide Block, Apply, ActiveApplications;
    NextStep(EMPTY_TABLES, 0, run, 0);
    NextStep(PORTAL, 0, run, 1);
  }

  lemma BlockedStill(t: Tables)
    requires t == Block(PORTAL, 1, 10, BACK_TO_10, 0)
    ensures 10 in t.users && t.users[10].status == BlockedUser && ActiveApplications(t, 10) == {100, 101}
  {
    BlockAccepted();
    hide BlockVerdict, EndForUser;
    assert 100 in ActiveApplications(PORTAL, 10) && 101 in ActiveApplications(PORTAL, 10);
  }

  /** Reached from empty tables: two acceptable requests of one user with an empty key, of which the second raises. */
  lemma EmptyKeyRaises(t: Tables, result: CreateOutcome)
    requires CreationResult(OneDelegation(Some("")), t, TO_30, Some(""), [101], 2, 0, result)
    ensures var run := [At(0, OtherStep(PORTAL)), At(0, CreateStep(TO_20, Some(""), [100], 1, 1))];
            InOrder(0, run) && Run(EMPTY_TABLES, run) == OneDelegation(Some(""))
    ensures Acceptable(OneDelegation(Some("")), TO_30, Elements([101]), 0, None)
    ensures result == CreateRaised
  {
    var run := [At(0, OtherStep(PORTAL)), At(0, CreateStep(TO_20, Some(""), [100], 1, 1))];
    assert run[0..] == run && run[2..] == [];
    hide MayCreate, Acceptable, CreationResult, Inserted, Apply, Inv;
    SetUp();
    FirstAccepted(Some(""));
    SecondAcceptable(Some(""));
    CreateApplies(PORTAL, TO_20, Some(""), [100], 1, 1, 0);
    NextStep(EMPTY_TABLES, 0, run, 0);
    NextStep(PORTAL, 0, run, 1);
    EmptyTablesInv(PORTAL, 0);
    EmptyKeyRaisesEverAfter(PORTAL, 0, TO_20, [100], 1, 1, 0, [], t, TO_30, [101], 2, 0, result);
  }
}
