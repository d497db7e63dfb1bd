/**
  How often a message is attempted, and how far apart.  The count in its row is bounded whatever the
  number of workers.  It is the number of attempts exactly if no claim was stale, and then attempts
  are spaced out; a single worker makes no stale claim.  With stale claims attempts have neither
  bound nor spacing, which the last lemma shows by runs.
 */
module EmailBackoff {
  import opened Options
  import opened EmailOutbox
  import opened EmailTheorems

  function Max(a: int, b: int): int { if a >= b then a else b }

  // ---------------------------------------------------------------------
  // Any number of workers: the count in the row
  // ---------------------------------------------------------------------

  function Bound(row: Message): int { Max(1, row.maxAttempts) + row.retries }

  predicate RowCounted(row: Message) {
    row.attempts <= Bound(row) && (Open(row.status) ==> row.attempts + 1 <= Bound(row))
  }

  /** What a worker has read of a row, however long ago, leaves room for the count it would write. */
  predicate WorkerCounted(s: Outbox, phase: Phase) {
    && (forall k | 0 <= k < |phase.todo| ::
          && phase.todo[k].id in s.messages
          && phase.todo[k].row.maxAttempts == s.messages[phase.todo[k].id].maxAttempts
          && phase.todo[k].row.attempts + 1 <= Bound(s.messages[phase.todo[k].id]))
    && (!phase.Working? ==>
          && phase.held.id in s.messages
          && phase.held.row.maxAttempts == s.messages[phase.held.id].maxAttempts
          && phase.held.row.attempts + 1 == s.messages[phase.held.id].attempts)
  }

  ghost predicate Counted(s: Outbox) {
    && (forall m | m in s.messages :: RowCounted(s.messages[m]))
    && (forall w | w in s.workers :: WorkerCounted(s, s.workers[w]))
  }

  /** A row may change under the workers that have read it; its holder relies on the count. */
  lemma RowKeepsCounted(s: Outbox, id: nat, row: Message)
    requires Counted(s) && RowCounted(row)
    requires id in s.messages ==>
      row.maxAttempts == s.messages[id].maxAttempts && row.retries >= s.messages[id].retries
    requires id in s.messages && row.attempts != s.messages[id].attempts ==> forall w :: !HeldBy(s, w, id)
    ensures Counted(WithRow(s, id, row))
  {
    hide RowCounted;
    var t := WithRow(s, id, row);
    forall w | w in t.workers ensures WorkerCounted(t, t.workers[w]) {
      assert WorkerCounted(s, s.workers[w]);
      assert HeldBy(s, w, id) || !HeldBy(s, w, id);
    }
  }

  lemma PhaseKeepsCounted(s: Outbox, w: int, phase: Phase)
    requires Counted(s) && WorkerCounted(s, phase)
    ensures Counted(WithPhase(s, w, phase))
  {
    forall v | v in WithPhase(s, w, phase).workers
      ensures WorkerCounted(WithPhase(s, w, phase), WithPhase(s, w, phase).workers[v])
    {
      if v != w { assert WorkerCounted(s, s.workers[v]); }
    }
  }

  lemma PhaseCounted(s: Outbox, w: int)
    requires Counted(s)
    ensures WorkerCounted(s, PhaseOf(s, w))
  {
  }

  lemma ClaimKeepsCounted(s: Outbox, w: int)
    requires Safe(s) && Counted(s) && Enabled(s, Claim(w))
    ensures Counted(Apply(s, Claim(w)))
  {
    PhaseCounted(s, w);
    SafePhase(s, w);
    var todo := PhaseOf(s, w).todo;
    if ClaimWins(s, w) {
      var id, read := todo[0].id, todo[0].row;
      OpenIsUnheld(s, id);
      var row := ClaimedRow(s.messages[id], read, s.clock);
      hide Safe, Counted;
      RowKeepsCounted(s, id, row);
      PhaseKeepsCounted(WithRow(s, id, row), w, Holding(todo[0], todo[1..]));
    } else {
      hide Safe, Counted;
      PhaseKeepsCounted(s, w, Working(todo[1..]));
    }
  }

  predicate HolderStep(step: Step) { step.Deliver? || step.Record? || step.Raise? }

  /** What the holder's step makes of the row it holds, and of what it is doing. */
  function HolderRow(s: Outbox, step: Step): Message
    requires HolderStep(step) && Enabled(s, step)
  {
    var held := PhaseOf(s, step.worker).held;
    var row := s.messages[held.id];
    match step
    case Deliver(_) => row.(sends := row.sends + 1)
    case Raise(_, code) => FailedRow(row, held.row, code, s.clock)
    case _ => row.(status := Sent, error := None)
  }

  function HolderPhase(s: Outbox, step: Step): Phase
    requires HolderStep(step) && Enabled(s, step)
  {
    var phase := PhaseOf(s, step.worker);
    if step.Deliver? then Delivered(phase.held, phase.todo) else Working(phase.todo)
  }

  lemma HolderApplies(s: Outbox, step: Step)
    requires HolderStep(step) && Enabled(s, step)
    ensures Apply(s, step)
            == WithPhase(WithRow(s, PhaseOf(s, step.worker).held.id, HolderRow(s, step)), step.worker,
                HolderPhase(s, step))
  {
    hide FailedRow, PhaseOf;
  }

  /** The count, the limit and the manual retries are not the holder's to change. */
  lemma HolderRowCounted(s: Outbox, step: Step)
    requires Counted(s) && HolderStep(step) && Enabled(s, step)
    ensures var row, row' := s.messages[PhaseOf(s, step.worker).held.id], HolderRow(s, step);
            RowCounted(row') && row'.attempts == row.attempts && row'.maxAttempts == row.maxAttempts
            && row'.retries == row.retries && row'.starts == row.starts
  {
    PhaseCounted(s, step.worker);
    assert RowCounted(s.messages[PhaseOf(s, step.worker).held.id]);
    hide Counted;
  }

  /** The holder sends, or records the outcome. */
  lemma HolderKeepsCounted(s: Outbox, step: Step)
    requires Counted(s) && Enabled(s, step) && HolderStep(step)
    ensures Counted(Apply(s, step))
  {
    var w, id := step.worker, PhaseOf(s, step.worker).held.id;
    var t := WithRow(s, id, HolderRow(s, step));
    HolderRowCounted(s, step);
    HolderApplies(s, step);
    RowKeepsCounted(s, id, HolderRow(s, step));
    PhaseCounted(t, w);
    hide Counted, WorkerCounted, RowCounted, HolderRow, Apply;
    assert PhaseOf(t, w) == PhaseOf(s, w);
    PhaseRestCounted(t, PhaseOf(s, w), HolderPhase(s, step));
    PhaseKeepsCounted(t, w, HolderPhase(s, step));
  }

  lemma PhaseRestCounted(s: Outbox, phase: Phase, rest: Phase)
    requires WorkerCounted(s, phase) && !phase.Working?
    requires rest == Working(phase.todo) || rest == Delivered(phase.held, phase.todo)
    ensures WorkerCounted(s, rest)
  {
  }

  lemma StepKeepsCounted(s: Outbox, step: Step)
    requires Safe(s) && Counted(s) && Enabled(s, step)
    ensures Counted(Apply(s, step))
  {
    match step
    case Pass(seconds) =>
      assert forall w | w in s.workers :: WorkerCounted(s, s.workers[w]);
    case Enqueue(id, key, max) => hide Counted, Safe; RowKeepsCounted(s, id, NewMessage(key, max, s.clock));
    case ManualRetry(id, expired) =>
      if id in s.messages && RetryAllowed(s.messages[id], expired) {
        assert RowCounted(s.messages[id]);
        hide Counted, Safe;
        RowKeepsCounted(s, id, RetriedRow(s.messages[id], s.clock));
      }
    case Fetch(w, ids) =>
      assert forall k | 0 <= k < |ids| :: RowCounted(s.messages[ids[k]]);
      hide Counted, Safe;
      PhaseKeepsCounted(s, w, Working(Snapshots(s, ids)));
    case Claim(w) => ClaimKeepsCounted(s, w);
    case Crash(w) => hide Counted, Safe; PhaseKeepsCounted(s, w, Working([]));
    case _ => HolderKeepsCounted(s, step);
  }

  lemma {:induction false} RunKeepsCounted(s: Outbox, run: seq<Step>)
    requires Safe(s) && Counted(s) && EnabledRun(s, run)
    ensures Counted(Run(s, run))
    decreases |run|
  {
    if run != [] {
      hide Safe, Counted, Apply, Enabled;
      StepKeepsSafe(s, run[0]);
      StepKeepsCounted(s, run[0]);
      RunKeepsCounted(Apply(s, run[0]), run[1..]);
    }
  }

  /** Over every interleaving attempt_count is at most max(1, max_attempts) plus the manual retries. */
  lemma AttemptCountBounded(run: seq<Step>, id: nat)
    requires EnabledRun(EMPTY_OUTBOX, run) && id in Run(EMPTY_OUTBOX, run).messages
    ensures var row := Run(EMPTY_OUTBOX, run).messages[id];
            row.attempts <= Max(1, row.maxAttempts) + row.retries
  {
    RunKeepsCounted(EMPTY_OUTBOX, run);
    hide Run, EnabledRun;
    assert RowCounted(Run(EMPTY_OUTBOX, run).messages[id]);
  }

  // ---------------------------------------------------------------------
  // Stale claims
  // ---------------------------------------------------------------------

  /**
    A claim that wins although another attempt was made since the worker read the row: the status is
    as it was again, and the compare-and-set looks at nothing else.
   */
  predicate StaleClaim(s: Outbox, step: Step, id: nat)
    requires Enabled(s, step)
  {
    step.Claim? && ClaimWins(s, step.worker)
    && var next := PhaseOf(s, step.worker).todo[0];
       next.id == id && next.row.starts != s.messages[id].starts
  }

  predicate NoStaleClaim(s: Outbox, run: seq<Step>, id: nat)
    requires EnabledRun(s, run)
    decreases |run|
  {
    run != [] ==> !StaleClaim(s, run[0], id) && NoStaleClaim(Apply(s, run[0]), run[1..], id)
  }

  /** What a worker has read is what is there, unless another attempt has been made since. */
  predicate ReadGood(s: Outbox, read: Snapshot) {
    && read.id in s.messages
    && DueEmail(read.row, s.clock)
    && read.row.attempts <= |read.row.starts|
    && read.row.starts <= s.messages[read.id].starts
    && (read.row.starts == s.messages[read.id].starts ==> read.row == s.messages[read.id])
  }

  predicate ReadsGood(s: Outbox, phase: Phase) {
    forall k | 0 <= k < |phase.todo| :: ReadGood(s, phase.todo[k])
  }

  ghost predicate Current(s: Outbox) {
    && (forall m | m in s.messages :: s.messages[m].attempts <= |s.messages[m].starts|)
    && (forall w | w in s.workers :: ReadsGood(s, s.workers[w]))
  }

  lemma PhaseCurrent(s: Outbox, w: int)
    requires Current(s)
    ensures ReadsGood(s, PhaseOf(s, w))
  {
  }

  /** A row changes under those that have read it only out of the open statuses, or by an attempt. */
  lemma RowKeepsCurrent(s: Outbox, id: nat, row: Message)
    requires Current(s) && row.attempts <= |row.starts|
    requires id in s.messages ==>
      s.messages[id].starts <= row.starts
      && (Open(s.messages[id].status) ==> |row.starts| > |s.messages[id].starts|)
    ensures Current(WithRow(s, id, row))
  {
    var t := WithRow(s, id, row);
    forall w | w in t.workers ensures ReadsGood(t, t.workers[w]) {
      assert ReadsGood(s, s.workers[w]);
    }
  }

  lemma PhaseKeepsCurrent(s: Outbox, w: int, phase: Phase)
    requires Current(s) && ReadsGood(s, phase)
    ensures Current(WithPhase(s, w, phase))
  {
    var t := WithPhase(s, w, phase);
    forall v | v in t.workers ensures ReadsGood(t, t.workers[v]) {
      if v != w { assert ReadsGood(s, s.workers[v]); }
    }
  }

  lemma ClaimKeepsCurrent(s: Outbox, w: int)
    requires Current(s) && Enabled(s, Claim(w))
    ensures Current(Apply(s, Claim(w)))
  {
    PhaseCurrent(s, w);
    var todo := PhaseOf(s, w).todo;
    if ClaimWins(s, w) {
      var id := todo[0].id;
      assert ReadGood(s, todo[0]);
      var row := ClaimedRow(s.messages[id], todo[0].row, s.clock);
      RowKeepsCurrent(s, id, row);
      var t := WithRow(s, id, row);
      assert ReadsGood(t, PhaseOf(t, w)) by { PhaseCurrent(t, w); }
      hide Current;
      PhaseKeepsCurrent(t, w, Holding(todo[0], todo[1..]));
    } else {
      hide Current;
      PhaseKeepsCurrent(s, w, Working(todo[1..]));
    }
  }

  /** The holder's message is in processing, so nobody's reading of it still holds. */
  lemma HolderKeepsCurrent(s: Outbox, step: Step)
    requires Safe(s) && Current(s) && Enabled(s, step) && HolderStep(step)
    ensures Current(Apply(s, step))
  {
    var w, id := step.worker, PhaseOf(s, step.worker).held.id;
    var t := WithRow(s, id, HolderRow(s, step));
    SafePhase(s, w);
    HolderApplies(s, step);
    RowKeepsCurrent(s, id, HolderRow(s, step));
    PhaseCurrent(t, w);
    hide Safe, Current, ReadsGood, HolderRow, Apply;
    assert PhaseOf(t, w) == PhaseOf(s, w);
    ReadsOfRest(t, PhaseOf(s, w), HolderPhase(s, step));
    PhaseKeepsCurrent(t, w, HolderPhase(s, step));
  }

  lemma ReadsOfRest(s: Outbox, phase: Phase, rest: Phase)
    requires ReadsGood(s, phase) && rest.todo == phase.todo
    ensures ReadsGood(s, rest)
  {
  }

  lemma StepKeepsCurrent(s: Outbox, step: Step)
    requires Safe(s) && Current(s) && Enabled(s, step)
    ensures Current(Apply(s, step))
  {
    match step
    case Pass(seconds) =>
      assert forall w | w in s.workers :: ReadsGood(s, s.workers[w]);
    case Enqueue(id, key, max) => hide Current, Safe; RowKeepsCurrent(s, id, NewMessage(key, max, s.clock));
    case ManualRetry(id, expired) =>
      if id in s.messages && RetryAllowed(s.messages[id], expired) {
        assert s.messages[id].attempts <= |s.messages[id].starts|;
        hide Current, Safe;
        RowKeepsCurrent(s, id, RetriedRow(s.messages[id], s.clock));
      }
    case Fetch(w, ids) =>
      assert forall k | 0 <= k < |ids| :: s.messages[ids[k]].attempts <= |s.messages[ids[k]].starts|;
      hide Current, Safe;
      PhaseKeepsCurrent(s, w, Working(Snapshots(s, ids)));
    case Claim(w) => ClaimKeepsCurrent(s, w);
    case Crash(w) => hide Current, Safe; PhaseKeepsCurrent(s, w, Working([]));
    case _ => HolderKeepsCurrent(s, step);
  }

  /** The count is the number of attempts made. */
  predicate Exact(s: Outbox, id: nat) {
    id in s.messages ==> |s.messages[id].starts| == s.messages[id].attempts
  }

  /** A stale claim is the one step that makes the count fall behind, and nothing makes it catch up. */
  lemma ExactUnlessStale(s: Outbox, step: Step, id: nat)
    requires Current(s) && Enabled(s, step)
    ensures Exact(Apply(s, step), id) <==> Exact(s, id) && !StaleClaim(s, step, id)
  {
    if step.Claim? {
      PhaseCurrent(s, step.worker);
      assert ReadGood(s, PhaseOf(s, step.worker).todo[0]);
    }
    if id in s.messages { assert s.messages[id].attempts <= |s.messages[id].starts|; }
    hide Current, ReadsGood, KeyUsed, Snapshots;
  }

  lemma {:induction false} ExactIff(s: Outbox, run: seq<Step>, id: nat)
    requires Safe(s) && Current(s) && EnabledRun(s, run)
    ensures Exact(Run(s, run), id) <==> Exact(s, id) && NoStaleClaim(s, run, id)
    decreases |run|
  {
    if run != [] {
      hide Safe, Current, Apply, Enabled, Exact, StaleClaim;
      StepKeepsSafe(s, run[0]);
      StepKeepsCurrent(s, run[0]);
      ExactUnlessStale(s, run[0], id);
      ExactIff(Apply(s, run[0]), run[1..], id);
    }
  }

  /**
    Over every interleaving of any number of workers: attempt_count is the number of attempts made
    exactly if no claim on the message was stale.
   */
  lemma AttemptsCountedIff(run: seq<Step>, id: nat)
    requires EnabledRun(EMPTY_OUTBOX, run) && id in Run(EMPTY_OUTBOX, run).messages
    ensures var row := Run(EMPTY_OUTBOX, run).messages[id];
            |row.starts| == row.attempts <==> NoStaleClaim(EMPTY_OUTBOX, run, id)
  {
    ExactIff(EMPTY_OUTBOX, run, id);
  }

  // ---------------------------------------------------------------------
  // Bound and spacing without stale claims
  // ---------------------------------------------------------------------

  /** An automatic attempt comes at least two minutes per earlier attempt after the one before it. */
  predicate SpacedOut(starts: seq<Start>) {
    forall j | 0 <= j < |starts| && starts[j].automatic ::
      j >= 1 && starts[j].at - starts[j - 1].at >= 2 * j * MINUTE
  }

  predicate RowTimely(row: Message, clock: int) {
    var bound := Max(1, row.maxAttempts) + row.retries;
    && |row.starts| == row.attempts <= bound
    && SpacedOut(row.starts)
    && (forall j | 0 <= j < |row.starts| :: row.starts[j].at <= clock)
    && (row.retries == 0 ==> forall j | 1 <= j < |row.starts| :: row.starts[j].automatic)
    && (row.status.Processing? ==> row.attempts >= 1)
    && (row.status.Pending? ==> row.attempts + 1 <= bound && (row.retries == 0 ==> row.attempts == 0))
    && (row.status.RetryScheduled? ==>
          && 1 <= row.attempts < row.maxAttempts
          && row.scheduledAt >= row.starts[row.attempts - 1].at + 2 * row.attempts * MINUTE)
  }

  lemma ClaimedTimely(row: Message, clock: int)
    requires RowTimely(row, clock) && DueEmail(row, clock)
    ensures RowTimely(ClaimedRow(row, row, clock), clock)
  {
  }

  lemma FailedTimely(row: Message, read: Message, code: string, clock: int)
    requires RowTimely(row, clock) && row.status == Processing
    requires row.attempts == read.attempts + 1 && row.maxAttempts == read.maxAttempts
    ensures RowTimely(FailedRow(row, read, code, clock), clock)
  {
  }

  lemma RetriedTimely(row: Message, clock: int)
    requires RowTimely(row, clock) && row.status == Failed
    ensures RowTimely(RetriedRow(row, clock), clock)
  {
  }

  lemma LaterTimely(row: Message, clock: int, later: int)
    requires RowTimely(row, clock) && clock <= later
    ensures RowTimely(row, later)
  {
  }

  lemma NewTimely(key: string, max: int, clock: int)
    ensures RowTimely(NewMessage(key, max, clock), clock)
  {
  }

  lemma {:induction false} Spacing(starts: seq<Start>, i: nat, k: nat)
    requires SpacedOut(starts) && i <= k < |starts| && forall j | i < j <= k :: starts[j].automatic
    ensures starts[k].at - starts[i].at >= (k * (k + 1) - i * (i + 1)) * MINUTE
  {
    if i < k {
      Spacing(starts, i, k - 1);
      assert k * (k + 1) == (k - 1) * k + 2 * k;
    }
  }

  predicate Timely(s: Outbox, id: nat) { id in s.messages ==> RowTimely(s.messages[id], s.clock) }

  /** Every step but a stale claim keeps the message's attempts within bound and spaced out. */
  lemma StepKeepsTimely(s: Outbox, step: Step, id: nat)
    requires Safe(s) && Counted(s) && Current(s) && Enabled(s, step) && Timely(s, id) && !StaleClaim(s, step, id)
    ensures Timely(Apply(s, step), id)
  {
    match step
    case Pass(seconds) => if id in s.messages { LaterTimely(s.messages[id], s.clock, s.clock + seconds); }
    case Enqueue(_, key, max) => NewTimely(key, max, s.clock); hide RowTimely;
    case ManualRetry(i, expired) =>
      if i == id && id in s.messages
          && RetryAllowed(s.messages[id], expired) { RetriedTimely(s.messages[id], s.clock); }
      hide RowTimely;
    case Claim(w) => ClaimKeepsTimely(s, w, id);
    case Deliver(w) => HolderKeepsTimely(s, step, id);
    case Record(w) => HolderKeepsTimely(s, step, id);
    case Raise(w, _) => HolderKeepsTimely(s, step, id);
    case _ => hide RowTimely;
  }

  lemma ClaimKeepsTimely(s: Outbox, w: int, id: nat)
    requires Current(s) && Enabled(s, Claim(w)) && Timely(s, id) && !StaleClaim(s, Claim(w), id)
    ensures Timely(Apply(s, Claim(w)), id)
  {
    PhaseCurrent(s, w);
    var next := PhaseOf(s, w).todo[0];
    assert ReadGood(s, next);
    hide Current, RowTimely, ClaimedRow;
    if ClaimWins(s, w) && next.id == id { ClaimedTimely(next.row, s.clock); }
  }

  lemma HolderKeepsTimely(s: Outbox, step: Step, id: nat)
    requires Safe(s) && Counted(s) && Enabled(s, step) && Timely(s, id)
        && (step.Deliver? || step.Record? || step.Raise?)
    ensures Timely(Apply(s, step), id)
  {
    SafePhase(s, step.worker);
    PhaseCounted(s, step.worker);
    hide Safe, Counted;
    var held := PhaseOf(s, step.worker).held;
    if held.id == id && step.Raise? {
      FailedTimely(s.messages[id], held.row, step.code, s.clock);
      hide RowTimely, FailedRow;
    }
  }

  lemma {:induction false} RunKeepsTimely(s: Outbox, run: seq<Step>, id: nat)
    requires Safe(s) && Counted(s) && Current(s) && Timely(s, id) && EnabledRun(s, run) && NoStaleClaim(s, run, id)
    ensures Timely(Run(s, run), id)
    decreases |run|
  {
    if run != [] {
      hide Safe, Counted, Current, Timely, Apply, Enabled, StaleClaim;
      StepKeepsSafe(s, run[0]);
      StepKeepsCounted(s, run[0]);
      StepKeepsCurrent(s, run[0]);
      StepKeepsTimely(s, run[0], id);
      RunKeepsTimely(Apply(s, run[0]), run[1..], id);
    }
  }

  /**
    Any number of workers, crashes and manual retries included: as long as no claim on it is stale, a
    message is attempted at most max(1, max_attempts) times plus once per manual retry, and between
    the i-th and the k-th attempt, when only the schedule led from one to the other, at least
    k(k-1) - i(i-1) minutes pass.
   */
  lemma AttemptsWithoutStaleClaims(run: seq<Step>, id: nat, i: nat, k: nat)
    requires EnabledRun(EMPTY_OUTBOX, run) && id in Run(EMPTY_OUTBOX, run).messages
    requires NoStaleClaim(EMPTY_OUTBOX, run, id)
    ensures var row := Run(EMPTY_OUTBOX, run).messages[id];
            && |row.starts| == row.attempts <= Max(1, row.maxAttempts) + row.retries
            && (row.retries == 0 ==> forall j | 1 <= j < |row.starts| :: row.starts[j].automatic)
            && (1 <= i <= k <= |row.starts| && (forall j | i <= j < k :: row.starts[j].automatic) ==>
                  row.starts[k - 1].at - row.starts[i - 1].at >= (k * (k - 1) - i * (i - 1)) * MINUTE)
  {
    hide *;
    EmptyTimely(id);
    RunKeepsTimely(EMPTY_OUTBOX, run, id);
    TimelyRow(Run(EMPTY_OUTBOX, run), id, i, k);
  }

  lemma EmptyTimely(id: nat)
    ensures Safe(EMPTY_OUTBOX) && Counted(EMPTY_OUTBOX) && Current(EMPTY_OUTBOX) && Timely(EMPTY_OUTBOX, id)
  {
  }

  lemma TimelyRow(s: Outbox, id: nat, i: nat, k: nat)
    requires id in s.messages && Timely(s, id)
    ensures var row := s.messages[id];
            && |row.starts| == row.attempts <= Max(1, row.maxAttempts) + row.retries
            && (row.retries == 0 ==> forall j | 1 <= j < |row.starts| :: row.starts[j].automatic)
            && (1 <= i <= k <= |row.starts| && (forall j | i <= j < k :: row.starts[j].automatic) ==>
                  row.starts[k - 1].at - row.starts[i - 1].at >= (k * (k - 1) - i * (i - 1)) * MINUTE)
  {
    var row := s.messages[id];
    if 1 <= i <= k <= |row.starts| && forall j | i <= j < k :: row.starts[j].automatic {
      Spacing(row.starts, i - 1, k - 1);
    }
  }

  // ---------------------------------------------------------------------
  // A single worker
  // ---------------------------------------------------------------------

  /** Nobody but w is at work, and what w has read is still so. */
  ghost predicate Solo(s: Outbox, w: int) {
    var phase := PhaseOf(s, w);
    && (forall v | v in s.workers && v != w :: s.workers[v] == Working([]))
    && (forall k | 0 <= k < |phase.todo| ::
          && phase.todo[k].id in s.messages && s.messages[phase.todo[k].id] == phase.todo[k].row
          && Open(phase.todo[k].row.status))
    && (forall j, k | 0 <= j < k < |phase.todo| :: phase.todo[j].id != phase.todo[k].id)
    && (!phase.Working? ==>
          phase.held.id in s.messages && s.messages[phase.held.id].status == Processing)
  }

  predicate SoloStep(step: Step, w: int) { step.ByWorker() ==> step.By(w) }

  /** A single worker makes no stale claim, and keeps what it has read true. */
  lemma StepKeepsSolo(s: Outbox, step: Step, w: int)
    requires Solo(s, w) && Enabled(s, step) && SoloStep(step, w)
    ensures Solo(Apply(s, step), w)
    ensures forall id :: !StaleClaim(s, step, id)
  {
    hide KeyUsed, FailedRow;
    var t := Apply(s, step);
    if step.Claim? {
      assert forall k | 0 <= k < |PhaseOf(t, w).todo| :: PhaseOf(t, w).todo[k] == PhaseOf(s, w).todo[k + 1];
    } else if !step.ByWorker() {
      assert PhaseOf(t, w) == PhaseOf(s, w);
    }
  }

  lemma {:induction false} SoloNotStale(s: Outbox, run: seq<Step>, w: int, id: nat)
    requires Solo(s, w) && EnabledRun(s, run) && forall k | 0 <= k < |run| :: SoloStep(run[k], w)
    ensures NoStaleClaim(s, run, id)
    decreases |run|
  {
    if run != [] {
      assert SoloStep(run[0], w);
      hide Solo, Apply, Enabled, SoloStep, StaleClaim;
      StepKeepsSolo(s, run[0], w);
      SoloNotStale(Apply(s, run[0]), run[1..], w, id);
    }
  }

  /** In particular with one worker at a time. */
  lemma SoloAttempts(run: seq<Step>, w: int, id: nat, i: nat, k: nat)
    requires EnabledRun(EMPTY_OUTBOX, run) && forall j | 0 <= j < |run| :: SoloStep(run[j], w)
    requires id in Run(EMPTY_OUTBOX, run).messages
    ensures var row := Run(EMPTY_OUTBOX, run).messages[id];
            && |row.starts| == row.attempts <= Max(1, row.maxAttempts) + row.retries
            && (row.retries == 0 ==> forall j | 1 <= j < |row.starts| :: row.starts[j].automatic)
            && (1 <= i <= k <= |row.starts| && (forall j | i <= j < k :: row.starts[j].automatic) ==>
                  row.starts[k - 1].at - row.starts[i - 1].at >= (k * (k - 1) - i * (i - 1)) * MINUTE)
  {
    SoloNotStale(EMPTY_OUTBOX, run, w, id);
    hide Run, EnabledRun, NoStaleClaim, SoloStep;
    AttemptsWithoutStaleClaims(run, id, i, k);
  }

  // ---------------------------------------------------------------------
  // Several workers
  // ---------------------------------------------------------------------

  /** Workers from..n-1 have all read the same row, after its first attempt. */
  predicate Readers(s: Outbox, read: Message, from: nat, n: nat) {
    && read.status == RetryScheduled && read.attempts == 1 && read.maxAttempts == 3
    && forall w | from <= w < n :: w in s.workers && s.workers[w] == Working([Snapshot(0, read)])
  }

  /**
    Message 0 waits for a retry, never retried by hand, with the given number of attempts behind it:
    a first one, and then automatic ones all at the present moment.
   */
  predicate Waiting(s: Outbox, attempts: nat) {
    && 0 in s.messages && s.messages[0].status == RetryScheduled && s.messages[0].maxAttempts == 3
    && s.messages[0].retries == 0 && |s.messages[0].starts| == attempts
    && forall j | 1 <= j < attempts :: s.messages[0].starts[j] == Start(s.clock, true)
  }

  lemma ReadAgain(s: Outbox, read: Message, n: nat)
    requires Readers(s, read, 0, n) && Waiting(s, 1) && s.messages[0] == read && DueEmail(read, s.clock)
    requires PhaseOf(s, n) == Working([])
    ensures Enabled(s, Fetch(n, [0]))
    ensures var t := Apply(s, Fetch(n, [0]));
            && Readers(t, read, 0, n + 1) && t == WithPhase(s, n, Working([Snapshot(0, read)]))
  {
    assert Snapshots(s, [0]) == [Snapshot(0, read)];
  }

  lemma {:induction false} ReadAll(s: Outbox, read: Message, from: nat, n: nat) returns (run: seq<Step>)
    requires from <= n && Readers(s, read, 0, from) && Waiting(s, 1) && s.messages[0] == read && DueEmail(read, s.clock)
    requires forall w | from <= w :: PhaseOf(s, w) == Working([])
    ensures EnabledRun(s, run) && Readers(Run(s, run), read, 0, n) && Waiting(Run(s, run), 1)
    decreases n - from
  {
    if from == n {
      run := [];
    } else {
      ReadAgain(s, read, from);
      var t := Apply(s, Fetch(from, [0]));
      assert forall w | from + 1 <= w :: PhaseOf(t, w) == PhaseOf(s, w);
      hide Readers, Apply, Enabled, DueEmail;
      var rest := ReadAll(t, read, from + 1, n);
      run := [Fetch(from, [0])] + rest;
      assert run[1..] == rest;
    }
  }

  /** A worker whose list is out of date, but not its status, makes another attempt and fails it. */
  lemma AttemptAgain(s: Outbox, read: Message, w: nat, n: nat, attempts: nat)
    requires Readers(s, read, w, n) && w < n && Waiting(s, attempts)
    ensures Enabled(s, Claim(w)) && Enabled(Apply(s, Claim(w)), Raise(w, "SMTP_TIMEOUT"))
    ensures var t := Apply(Apply(s, Claim(w)), Raise(w, "SMTP_TIMEOUT"));
            Readers(t, read, w + 1, n) && Waiting(t, attempts + 1)
  {
    assert s.workers[w] == Working([Snapshot(0, read)]);
    var t := Apply(s, Claim(w));
    assert ClaimWins(s, w);
    assert t.messages[0].status == Processing && |t.messages[0].starts| == attempts + 1;
    assert PhaseOf(t, w) == Holding(Snapshot(0, read), []);
    assert Retries(read, "SMTP_TIMEOUT");
  }

  lemma {:induction false} AttemptAll(s: Outbox, read: Message, from: nat, n: nat, attempts: nat)
    returns (run: seq<Step>)
    requires from <= n && Readers(s, read, from, n) && Waiting(s, attempts)
    ensures EnabledRun(s, run) && Waiting(Run(s, run), attempts + n - from)
    decreases n - from
  {
    if from == n {
      run := [];
    } else {
      AttemptAgain(s, read, from, n, attempts);
      hide Readers, Waiting, Apply, Enabled;
      var t := Apply(s, Claim(from));
      var u := Apply(t, Raise(from, "SMTP_TIMEOUT"));
      var rest := AttemptAll(u, read, from + 1, n, attempts + 1);
      run := [Claim(from)] + ([Raise(from, "SMTP_TIMEOUT")] + rest);
      assert run[1..] == [Raise(from, "SMTP_TIMEOUT")] + rest && run[1..][1..] == rest;
    }
  }

  /** A first attempt by worker -1 that fails, and the two minutes after it. */
  lemma FirstAttempt() returns (s: Outbox, run: seq<Step>)
    ensures EnabledRun(EMPTY_OUTBOX, run) && s == Run(EMPTY_OUTBOX, run)
    ensures Waiting(s, 1) && DueEmail(s.messages[0], s.clock)
    ensures s.messages[0].attempts == 1 && forall w: nat :: PhaseOf(s, w) == Working([])
  {
    var row := NewMessage("k", 3, 0);
    var s1 := Apply(EMPTY_OUTBOX, Enqueue(0, "k", 3));
    assert s1 == Outbox(map[0 := row], map[], 0);
    var s2 := Apply(s1, Fetch(-1, [0]));
    assert Snapshots(s1, [0]) == [Snapshot(0, row)];
    var s3 := Apply(s2, Claim(-1));
    assert PhaseOf(s3, -1) == Holding(Snapshot(0, row), []);
    var s4 := Apply(s3, Raise(-1, "SMTP_TIMEOUT"));
    assert Retries(row, "SMTP_TIMEOUT");
    s := Apply(s4, Pass(120));
    assert s.messages[0].starts == [Start(0, false)];
    hide Apply;
    run := [Enqueue(0, "k", 3), Fetch(-1, [0]), Claim(-1), Raise(-1, "SMTP_TIMEOUT"), Pass(120)];
    RunOfFive(EMPTY_OUTBOX, s1, s2, s3, s4, run);
  }

  lemma RunOfFive(s0: Outbox, s1: Outbox, s2: Outbox, s3: Outbox, s4: Outbox, run: seq<Step>)
    requires |run| == 5
    requires Enabled(s0, run[0]) && s1 == Apply(s0, run[0])
    requires Enabled(s1, run[1]) && s2 == Apply(s1, run[1])
    requires Enabled(s2, run[2]) && s3 == Apply(s2, run[2])
    requires Enabled(s3, run[3]) && s4 == Apply(s3, run[3])
    requires Enabled(s4, run[4])
    ensures EnabledRun(s0, run) && Run(s0, run) == Apply(s4, run[4])
  {
    hide Enabled, Apply;
    assert run[1..][1..][1..][1..][1..] == [];
    assert EnabledRun(s4, run[1..][1..][1..][1..]) && Run(s4, run[1..][1..][1..][1..]) == Apply(s4, run[4]);
    assert EnabledRun(s2, run[1..][1..]) && Run(s2, run[1..][1..]) == Apply(s4, run[4]);
  }

  /**
    With several workers attempts have no bound.  Workers that read the row before any of them
    claimed it each find the status they read, write back the count they read and start at once: a
    message allowed three attempts and never retried by hand can be attempted any number of times,
    and all automatic attempts can start at the same moment.
   */
  lemma SeveralWorkersOverrun(n: nat) returns (run: seq<Step>)
    ensures EnabledRun(EMPTY_OUTBOX, run) && 0 in Run(EMPTY_OUTBOX, run).messages
    ensures var row := Run(EMPTY_OUTBOX, run).messages[0];
            && |row.starts| == n + 1 && row.maxAttempts == 3 && row.retries == 0
            && forall i, j | 1 <= i < j <= n :: row.starts[i].automatic && row.starts[j] == row.starts[i]
  {
    hide EnabledRun, Run;
    var s, first := FirstAttempt();
    var read := s.messages[0];
    var reading := ReadAll(s, read, 0, n);
    var t := Run(s, reading);
    var trying := AttemptAll(t, read, 0, n, 1);
    RunSplit(s, reading, trying);
    RunSplit(EMPTY_OUTBOX, first, reading + trying);
    run := first + (reading + trying);
  }
}
