/**
  What the outbox guarantees: over every interleaving a message is sent at most once, and with a
  single worker attempts are bounded and spaced out.
 */
module EmailTheorems {
  import opened Options
  import opened EmailOutbox

  // ---------------------------------------------------------------------
  // Any number of workers: at most one send
  // ---------------------------------------------------------------------

  predicate HeldBy(s: Outbox, w: int, id: nat) {
    !PhaseOf(s, w).Working? && PhaseOf(s, w).held.id == id
  }

  /** A message is sent once, by its holder, and can only then be marked sent. */
  predicate MessageSafe(row: Message) {
    && row.sends <= 1
    && (row.status == Sent ==> row.sends == 1)
    && (Open(row.status) || row.status == Failed ==> row.sends == 0)
  }

  ghost predicate WorkerSafe(s: Outbox, w: int) {
    var phase := PhaseOf(s, w);
    && (forall k | 0 <= k < |phase.todo| :: phase.todo[k].id in s.messages && Open(phase.todo[k].row.status))
    && (!phase.Working? ==>
          && phase.held.id in s.messages
          && s.messages[phase.held.id].status == Processing
          && s.messages[phase.held.id].sends == if phase.Delivered? then 1 else 0)
  }

  ghost predicate Exclusive(s: Outbox) {
    forall v, w, id | HeldBy(s, v, id) && HeldBy(s, w, id) :: v == w
  }

  ghost predicate KeysDistinct(s: Outbox) {
    forall m, n | m in s.messages && n in s.messages && s.messages[m].key == s.messages[n].key :: m == n
  }

  ghost predicate Safe(s: Outbox) {
    && (forall m | m in s.messages :: MessageSafe(s.messages[m]))
    && (forall w | w in s.workers :: WorkerSafe(s, w))
    && Exclusive(s) && KeysDistinct(s)
  }

  lemma SafePhase(s: Outbox, w: int)
    requires Safe(s)
    ensures WorkerSafe(s, w)
  {
  }

  /** A row nobody holds may change as long as it stays safe. */
  lemma RowKeepsSafe(s: Outbox, id: nat, row: Message)
    requires Safe(s) && MessageSafe(row)
    requires forall w :: !HeldBy(s, w, id)
    requires forall m | m in s.messages && s.messages[m].key == row.key :: m == id
    ensures Safe(WithRow(s, id, row))
  {
    var t := WithRow(s, id, row);
    forall w | w in t.workers ensures WorkerSafe(t, w) {
      assert WorkerSafe(s, w) && !HeldBy(s, w, id);
    }
    assert forall v, i | HeldBy(t, v, i) :: HeldBy(s, v, i);
  }

  /** A worker gives up what it holds, or holds nothing and reads a list. */
  lemma ReleaseKeepsSafe(s: Outbox, w: int, todo: seq<Snapshot>)
    requires Safe(s)
    requires forall k | 0 <= k < |todo| :: todo[k].id in s.messages && Open(todo[k].row.status)
    ensures Safe(WithPhase(s, w, Working(todo)))
    ensures forall id | HeldBy(s, w, id) :: forall v :: !HeldBy(WithPhase(s, w, Working(todo)), v, id)
  {
    var t := WithPhase(s, w, Working(todo));
    forall v | v in t.workers ensures WorkerSafe(t, v) {
      if v != w { assert WorkerSafe(s, v); }
    }
    assert forall v, i | HeldBy(t, v, i) :: HeldBy(s, v, i) && v != w;
  }

  lemma OpenIsUnheld(s: Outbox, id: nat)
    requires Safe(s) && id in s.messages && s.messages[id].status != Processing
    ensures forall w :: !HeldBy(s, w, id)
  {
    forall w ensures !HeldBy(s, w, id) { SafePhase(s, w); }
  }

  lemma ClaimKeepsSafe(s: Outbox, w: int)
    requires Safe(s) && Enabled(s, Claim(w))
    ensures Safe(Apply(s, Claim(w)))
  {
    SafePhase(s, w);
    var todo := PhaseOf(s, w).todo;
    if ClaimWins(s, w) {
      var id := todo[0].id;
      assert Open(todo[0].row.status);
      OpenIsUnheld(s, id);
      var row := ClaimedRow(s.messages[id], todo[0].row, s.clock);
      RowKeepsSafe(s, id, row);
      TakeKeepsSafe(WithRow(s, id, row), w, Holding(todo[0], todo[1..]));
    } else {
      ReleaseKeepsSafe(s, w, todo[1..]);
    }
  }

  lemma TakeKeepsSafe(s: Outbox, w: int, phase: Phase)
    requires Safe(s) && !phase.Working? && phase.held.id in s.messages
    requires s.messages[phase.held.id].status == Processing
    requires s.messages[phase.held.id].sends == if phase.Delivered? then 1 else 0
    requires forall k | 0 <= k < |phase.todo| :: phase.todo[k].id in s.messages && Open(phase.todo[k].row.status)
    requires forall v | v != w :: !HeldBy(s, v, phase.held.id)
    ensures Safe(WithPhase(s, w, phase))
  {
    var t := WithPhase(s, w, phase);
    forall v | v in t.workers ensures WorkerSafe(t, v) {
      if v != w { assert WorkerSafe(s, v); }
    }
    assert forall v, i | HeldBy(t, v, i) :: v == w || HeldBy(s, v, i);
    assert forall i | HeldBy(t, w, i) :: i == phase.held.id;
  }

  /** The holder leaves processing: the row it finishes is safe once nobody holds it. */
  lemma FinishKeepsSafe(s: Outbox, w: int, row: Message)
    requires Safe(s) && !PhaseOf(s, w).Working? && MessageSafe(row)
    requires PhaseOf(s, w).held.id in s.messages && row.key == s.messages[PhaseOf(s, w).held.id].key
    ensures Safe(WithPhase(WithRow(s, PhaseOf(s, w).held.id, row), w, Working(PhaseOf(s, w).todo)))
  {
    var id, todo := PhaseOf(s, w).held.id, PhaseOf(s, w).todo;
    SafePhase(s, w);
    assert HeldBy(s, w, id);
    ReleaseKeepsSafe(s, w, todo);
    var t := WithPhase(s, w, Working(todo));
    RowKeepsSafe(t, id, row);
    assert WithRow(t, id, row) == WithPhase(WithRow(s, id, row), w, Working(todo));
  }

  lemma DeliverKeepsSafe(s: Outbox, w: int)
    requires Safe(s) && Enabled(s, Deliver(w))
    ensures Safe(Apply(s, Deliver(w)))
  {
    var phase := PhaseOf(s, w);
    var id := phase.held.id;
    SafePhase(s, w);
    assert HeldBy(s, w, id);
    ReleaseKeepsSafe(s, w, phase.todo);
    var t := WithPhase(s, w, Working(phase.todo));
    var row := s.messages[id].(sends := s.messages[id].sends + 1);
    RowKeepsSafe(t, id, row);
    var u := WithRow(t, id, row);
    assert forall v :: HeldBy(u, v, id) <==> HeldBy(t, v, id);
    TakeKeepsSafe(u, w, Delivered(phase.held, phase.todo));
    assert WithPhase(u, w, Delivered(phase.held, phase.todo)) == Apply(s, Deliver(w));
  }

  lemma StepKeepsSafe(s: Outbox, step: Step)
    requires Safe(s) && Enabled(s, step)
    ensures Safe(Apply(s, step))
  {
    hide Exclusive, WorkerSafe, KeysDistinct;
    match step
    case Pass(seconds) => PassKeepsSafe(s, seconds);
    case Enqueue(id, key, max) => EnqueueKeepsSafe(s, id, key, max);
    case ManualRetry(id, expired) =>
      if id in s.messages && RetryAllowed(s.messages[id], expired) {
        OpenIsUnheld(s, id);
        KeyKeeps(s, id);
        RowKeepsSafe(s, id, RetriedRow(s.messages[id], s.clock));
      }
    case Fetch(w, ids) => ReleaseKeepsSafe(s, w, Snapshots(s, ids));
    case Claim(w) => ClaimKeepsSafe(s, w);
    case Deliver(w) => DeliverKeepsSafe(s, w);
    case Record(w) => RecordKeepsSafe(s, w);
    case Raise(w, code) => RaiseKeepsSafe(s, w, code);
    case Crash(w) => ReleaseKeepsSafe(s, w, []);
  }

  lemma KeyKeeps(s: Outbox, id: nat)
    requires Safe(s) && id in s.messages
    ensures forall m | m in s.messages && s.messages[m].key == s.messages[id].key :: m == id
  {
    hide Exclusive, WorkerSafe;
  }

  lemma RecordKeepsSafe(s: Outbox, w: int)
    requires Safe(s) && Enabled(s, Record(w))
    ensures Safe(Apply(s, Record(w)))
  {
    SafePhase(s, w);
    hide Exclusive, KeysDistinct;
    FinishKeepsSafe(s, w, s.messages[PhaseOf(s, w).held.id].(status := Sent, error := None));
  }

  lemma RaiseKeepsSafe(s: Outbox, w: int, code: string)
    requires Safe(s) && Enabled(s, Raise(w, code))
    ensures Safe(Apply(s, Raise(w, code)))
  {
    SafePhase(s, w);
    hide Exclusive, KeysDistinct;
    var held := PhaseOf(s, w).held;
    FinishKeepsSafe(s, w, FailedRow(s.messages[held.id], held.row, code, s.clock));
  }

  lemma PassKeepsSafe(s: Outbox, seconds: nat)
    requires Safe(s)
    ensures Safe(s.(clock := s.clock + seconds))
  {
    var t := s.(clock := s.clock + seconds);
    forall w | w in t.workers ensures WorkerSafe(t, w) { assert WorkerSafe(s, w); }
    assert forall v, i | HeldBy(t, v, i) :: HeldBy(s, v, i);
  }

  lemma EnqueueKeepsSafe(s: Outbox, id: nat, key: string, max: int)
    requires Safe(s) && id !in s.messages
    ensures Safe(Apply(s, Enqueue(id, key, max)))
  {
    if !KeyUsed(s, key) {
      forall w ensures !HeldBy(s, w, id) { SafePhase(s, w); }
      hide WorkerSafe, Exclusive, KeysDistinct;
      RowKeepsSafe(s, id, NewMessage(key, max, s.clock));
    }
  }

  lemma {:induction false} RunKeepsSafe(s: Outbox, run: seq<Step>)
    requires Safe(s) && EnabledRun(s, run)
    ensures Safe(Run(s, run))
    decreases |run|
  {
    if run != [] {
      hide Safe, Apply, Enabled;
      StepKeepsSafe(s, run[0]);
      RunKeepsSafe(Apply(s, run[0]), run[1..]);
    }
  }

  lemma {:induction false} DeliveriesCounted(s: Outbox, run: seq<Step>, id: nat)
    requires EnabledRun(s, run)
    ensures Deliveries(s, run, id) + (if id in s.messages then s.messages[id].sends else 0)
            == if id in Run(s, run).messages then Run(s, run).messages[id].sends else 0
    decreases |run|
  {
    if run != [] {
      DeliveriesCounted(Apply(s, run[0]), run[1..], id);
    }
  }

  /**
    Whatever workers, administrators and crashes do, and in whatever order, sending a message
    returns normally at most once; and a message marked sent was sent.
   */
  lemma AtMostOneSend(run: seq<Step>, id: nat)
    requires EnabledRun(EMPTY_OUTBOX, run)
    ensures Deliveries(EMPTY_OUTBOX, run, id) <= 1
    ensures id in Run(EMPTY_OUTBOX, run).messages && Run(EMPTY_OUTBOX, run).messages[id].status == Sent ==>
              Deliveries(EMPTY_OUTBOX, run, id) == 1
  {
    RunKeepsSafe(EMPTY_OUTBOX, run);
    DeliveriesCounted(EMPTY_OUTBOX, run, id);
    hide Run, EnabledRun, Deliveries, WorkerSafe, Exclusive, KeysDistinct;
  }

  /** Only the holder takes a message out of processing, and there is only one. */
  lemma OnlyHolderFinishes(s: Outbox, step: Step, id: nat)
    requires Safe(s) && Enabled(s, step) && id in s.messages && s.messages[id].status == Processing
    requires forall w | HeldBy(s, w, id) :: !step.By(w)
    ensures Apply(s, step).messages[id] == s.messages[id]
    ensures forall w :: HeldBy(Apply(s, step), w, id) <==> HeldBy(s, w, id)
  {
    if step.ByWorker() {
      var w := step.worker;
      SafePhase(s, w);
      assert !HeldBy(s, w, id);
      if step.Claim? { assert Open(PhaseOf(s, w).todo[0].row.status); }
    }
    hide Safe, ClaimedRow, FailedRow, RetriedRow, DueEmail;
  }

  predicate Stranded(s: Outbox, id: nat) {
    id in s.messages && s.messages[id].status == Processing && forall w | w in s.workers :: !HeldBy(s, w, id)
  }

  /** The price: a message whose holder died stays in processing for good, and is never sent again. */
  lemma {:induction false} StrandedForever(s: Outbox, run: seq<Step>, id: nat)
    requires Safe(s) && Stranded(s, id) && EnabledRun(s, run)
    ensures Stranded(Run(s, run), id) && Run(s, run).messages[id] == s.messages[id]
    decreases |run|
  {
    if run != [] {
      var t := Apply(s, run[0]);
      StepKeepsSafe(s, run[0]);
      StrandedStep(s, run[0], id);
      hide Safe, Apply, Enabled, Stranded;
      StrandedForever(t, run[1..], id);
    }
  }

  lemma StrandedStep(s: Outbox, step: Step, id: nat)
    requires Safe(s) && Stranded(s, id) && Enabled(s, step)
    ensures Stranded(Apply(s, step), id) && Apply(s, step).messages[id] == s.messages[id]
  {
    assert forall w :: !HeldBy(s, w, id);
    hide Safe, Apply, Enabled;
    OnlyHolderFinishes(s, step, id);
  }

  /** A crash strands exactly the message its worker held. */
  lemma CrashStrands(s: Outbox, w: int, id: nat)
    requires Safe(s) && id in s.messages && !Stranded(s, id)
    ensures Stranded(Apply(s, Crash(w)), id) <==> HeldBy(s, w, id)
  {
    SafePhase(s, w);
    var t := Apply(s, Crash(w));
    assert forall v :: HeldBy(t, v, id) <==> v != w && HeldBy(s, v, id);
    if s.messages[id].status == Processing && !HeldBy(s, w, id) {
      var v :| v in s.workers && HeldBy(s, v, id);
      assert HeldBy(t, v, id);
    }
  }

  /** Enqueueing twice under one key leaves one message, the first. */
  lemma EnqueueOnce(s: Outbox, id: nat, key: string, max: int, later: nat, max': int)
    requires Safe(s) && id !in s.messages
    ensures var t := Apply(s, Enqueue(id, key, max));
            && (exists m :: m in t.messages && t.messages[m].key == key
                            && forall n | n in t.messages && t.messages[n].key == key :: n == m)
            && (later !in t.messages ==> Apply(t, Enqueue(later, key, max')) == t)
  {
    StepKeepsSafe(s, Enqueue(id, key, max));
    hide WorkerSafe, Exclusive;
    var t := Apply(s, Enqueue(id, key, max));
    if KeyUsed(s, key) {
      var m :| m in s.messages && s.messages[m].key == key;
      assert m in t.messages && t.messages[m].key == key;
    } else {
      assert id in t.messages && t.messages[id].key == key;
    }
  }
}
