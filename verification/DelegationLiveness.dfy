/**
  Delegations make progress: with a worker that ticks at least every five minutes, the status
  of a delegation that nobody ends is a function of the time of the last tick alone.
 */
module DelegationLiveness {
  import opened Options
  import opened DelegationTables
  import opened DelegationSteps
  import opened DelegationInvariants
  import opened DelegationTheorems

  /** Scheduled before the window, active inside it, expired after it; never failed. */
  function ExpectedStatus(row: Delegation, lastTick: int): DelegationStatus {
    if lastTick < row.startsAt then Scheduled
    else if lastTick < row.endsAt then Active
    else Expired
  }

  predicate SameWindow(a: Delegation, b: Delegation) {
    a.startsAt == b.startsAt && a.endsAt == b.endsAt
  }

  function LastTick(lastTick: int, run: seq<TimedStep>): int
    decreases |run|
  {
    if run == [] then lastTick
    else LastTick(if run[0].step.TickStep? then run[0].now else lastTick, run[1..])
  }

  /** Consecutive ticks are at most five minutes apart. */
  predicate TicksSpaced(lastTick: int, run: seq<TimedStep>)
    decreases |run|
  {
    run == [] ||
    if run[0].step.TickStep?
    then run[0].now <= lastTick + FIVE_MINUTES && TicksSpaced(run[0].now, run[1..])
    else TicksSpaced(lastTick, run[1..])
  }

  /**
    Ticks commit, the facts about users, roles and applications hold when a tick revalidates a
    scheduled delegation, and no other transaction changes the delegation's status.
   */
  ghost predicate Undisturbed(s: Tables, run: seq<TimedStep>, d: nat)
    requires d in s.delegations
    decreases |run|
  {
    run == []
    || (UndisturbedStep(s, run[0].step, run[0].now, d)
        && d in Apply(s, run[0].step, run[0].now).delegations
        && Undisturbed(Apply(s, run[0].step, run[0].now), run[1..], d))
  }

  ghost predicate UndisturbedStep(s: Tables, step: Step, now: int, d: nat)
    requires d in s.delegations
  {
    if step.TickStep?
    then !TickRaises(s, now) && (s.delegations[d].status == Scheduled ==> FactsHold(s, d))
    else d in Apply(s, step, now).delegations && Apply(s, step, now).delegations[d].status == s.delegations[d].status
  }

  /** What a committed tick makes of a delegation that is due: the exact condition for success. */
  lemma DueOutcome(s: Tables, now: int, d: nat)
    requires Consistent(s) && d in s.delegations && Due(s.delegations[d], now)
    ensures Tick(s, now).delegations[d].status ==
            if now <= s.delegations[d].startsAt + FIVE_MINUTES && now < s.delegations[d].endsAt && FactsHold(s, d)
            then Active else Failed
  {
    hide Consistent, Acceptable, FactsHold;
    ActivatableIff(s, d, now);
  }

  lemma TickFollowsClock(s: Tables, lastTick: int, now: int, d: nat)
    requires Consistent(s) && d in s.delegations
    requires s.delegations[d].startsAt + FIVE_MINUTES <= s.delegations[d].endsAt
    requires lastTick <= now <= lastTick + FIVE_MINUTES
    requires s.delegations[d].status == ExpectedStatus(s.delegations[d], lastTick)
    requires s.delegations[d].status == Scheduled ==> FactsHold(s, d)
    ensures d in Tick(s, now).delegations
    ensures Tick(s, now).delegations[d].status == ExpectedStatus(s.delegations[d], now)
  {
    hide Consistent, FactsHold, Activatable;
    if Due(s.delegations[d], now) {
      DueOutcome(s, now, d);
    }
  }

  lemma StepFollowsClock(s: Tables, step: Step, clock: int, lastTick: int, now: int, d: nat)
    requires Inv(s, clock) && d in s.delegations
    requires s.delegations[d].startsAt + FIVE_MINUTES <= s.delegations[d].endsAt
    requires lastTick <= now && (step.TickStep? ==> now <= lastTick + FIVE_MINUTES)
    requires s.delegations[d].status == ExpectedStatus(s.delegations[d], lastTick)
    requires UndisturbedStep(s, step, now, d)
    ensures d in Apply(s, step, now).delegations
    ensures SameWindow(s.delegations[d], Apply(s, step, now).delegations[d])
    ensures forall t: int ::
      ExpectedStatus(Apply(s, step, now).delegations[d], t) == ExpectedStatus(s.delegations[d], t)
    ensures Apply(s, step, now).delegations[d].status
            == ExpectedStatus(s.delegations[d], if step.TickStep? then now else lastTick)
  {
    hide Consistent, FactsHold, Tick, TickRaises;
    ApplyKeepsRow(s, step, now, d);
    if step.TickStep? {
      TickFollowsClock(s, lastTick, now, d);
    }
  }

  /**
    Activated at the first tick at or after its start, expired at the first tick at or after its
    end, and at no time anything else.
   */
  lemma {:induction false} StatusFollowsClock(s: Tables, clock: int, lastTick: int, run: seq<TimedStep>, d: nat)
    requires Inv(s, clock) && InOrder(clock, run) && lastTick <= clock
    requires d in s.delegations && s.delegations[d].startsAt + FIVE_MINUTES <= s.delegations[d].endsAt
    requires s.delegations[d].status == ExpectedStatus(s.delegations[d], lastTick)
    requires TicksSpaced(lastTick, run) && Undisturbed(s, run, d)
    ensures d in Run(s, run).delegations
    ensures Run(s, run).delegations[d].status == ExpectedStatus(s.delegations[d], LastTick(lastTick, run))
    decreases |run|
  {
    if run != [] {
      hide Inv, Apply, UndisturbedStep, ExpectedStatus;
      var now, step, rest := run[0].now, run[0].step, run[1..];
      var t := Apply(s, step, now);
      var last := if step.TickStep? then now else lastTick;
      assert clock <= now && InOrder(now, rest);
      assert TicksSpaced(last, rest);
      assert UndisturbedStep(s, step, now, d) && Undisturbed(t, rest, d);
      ApplyKeepsInv(s, step, clock, now);
      StepFollowsClock(s, step, clock, lastTick, now, d);
      assert ExpectedStatus(t.delegations[d], last) == ExpectedStatus(s.delegations[d], last);
      StatusFollowsClock(t, now, last, rest, d);
      assert ExpectedStatus(t.delegations[d], LastTick(last, rest))
          == ExpectedStatus(s.delegations[d], LastTick(last, rest));
    }
  }

  /** The same from the moment of creation: a fresh scheduled delegation is in step with the clock. */
  lemma CreatedDelegationFollowsClock(
    s: Tables, r: DelegationRequest, key: Option<string>, apps: seq<int>, id: nat, first: nat,
    clock: int, now: int, lastTick: int, run: seq<TimedStep>)
    requires Inv(s, clock) && clock <= now && lastTick <= now && MayCreate(s, r, key, apps, id, first, now)
    requires now < r.startsAt && r.startsAt + FIVE_MINUTES <= r.endsAt
    requires InOrder(now, run) && TicksSpaced(lastTick, run)
    requires Undisturbed(Inserted(s, r, key, apps, id, first, now), run, id)
    ensures var t := Run(Inserted(s, r, key, apps, id, first, now), run);
            && id in t.delegations
            && t.delegations[id].status == ExpectedStatus(NewRow(r, key, now), LastTick(lastTick, run))
  {
    CreateKeepsInv(s, r, key, apps, id, first, clock, now);
    hide Consistent, Undisturbed;
    StatusFollowsClock(Inserted(s, r, key, apps, id, first, now), now, lastTick, run, id);
  }
}
