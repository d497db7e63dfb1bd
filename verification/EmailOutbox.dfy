/**
  The email outbox: messages, and the worker processes that deliver them.

  A worker reads a list of due rows, then takes them one by one: it claims a row by a
  compare-and-set on the status it read, commits, tries to send, and records the outcome.  Other
  workers, administrators and crashes may come between any two of those commits, so the list a
  worker works from may be out of date.
 */
module EmailOutbox {
  import opened Options

  datatype EmailStatus = Pending | Processing | Sent | RetryScheduled | Failed

  /** An attempt, and whether a scheduled retry led to it (rather than enqueueing or a manual retry). */
  datatype Start = Start(at: int, automatic: bool)

  /** starts, retries and sends are history: attempts made, manual retries, and sends that returned normally. */
  datatype Message = Message(
    key: string, status: EmailStatus, attempts: int, maxAttempts: int, scheduledAt: int,
    error: Option<string>, starts: seq<Start>, retries: nat, sends: nat)

  /** A row as a worker read it. */
  datatype Snapshot = Snapshot(id: nat, row: Message)

  /** What a worker is doing; todo is the rest of its list. */
  datatype Phase =
    | Working(todo: seq<Snapshot>)
    | Holding(held: Snapshot, todo: seq<Snapshot>)
    | Delivered(held: Snapshot, todo: seq<Snapshot>)

  datatype Outbox = Outbox(messages: map<nat, Message>, workers: map<int, Phase>, clock: int)

  const EMPTY_OUTBOX := Outbox(map[], map[], 0)

  function PhaseOf(s: Outbox, w: int): Phase {
    if w in s.workers then s.workers[w] else Working([])
  }

  predicate Open(status: EmailStatus) { status.Pending? || status.RetryScheduled? }

  predicate DueEmail(row: Message, now: int) { Open(row.status) && row.scheduledAt <= now }

  const RETRYABLE := {"EMAIL_DELIVERY_FAILED", "SMTP_TEMPORARY_FAILURE", "SMTP_TIMEOUT", "EMAIL_NOT_CONFIGURED"}

  const MINUTE := 60

  // ---------------------------------------------------------------------
  // What happens to a row
  // ---------------------------------------------------------------------

  function NewMessage(key: string, maxAttempts: int, now: int): Message {
    Message(key, Pending, 0, maxAttempts, now, None, [], 0, 0)
  }

  /** The claim writes the count the worker read, plus one. */
  function ClaimedRow(current: Message, read: Message, now: int): Message {
    current.(status := Processing, attempts := read.attempts + 1,
             starts := current.starts + [Start(now, read.status.RetryScheduled?)])
  }

  predicate Retries(read: Message, code: string) {
    code in RETRYABLE && read.attempts + 1 < read.maxAttempts
  }

  function FailedRow(current: Message, read: Message, code: string, now: int): Message {
    if Retries(read, code)
    then current.(status := RetryScheduled, error := Some(code),
                  scheduledAt := now + 2 * (read.attempts + 1) * MINUTE)
    else current.(status := Failed, error := Some(code))
  }

  predicate RetryAllowed(row: Message, tokenExpired: bool) { row.status.Failed? && !tokenExpired }

  function RetriedRow(row: Message, now: int): Message {
    row.(status := Pending, scheduledAt := now, error := None, retries := row.retries + 1)
  }

  // ---------------------------------------------------------------------
  // Steps
  // ---------------------------------------------------------------------

  datatype Step =
    | Pass(seconds: nat)
    | Enqueue(id: nat, key: string, maxAttempts: int)
    | ManualRetry(id: nat, tokenExpired: bool)
    | Fetch(worker: int, ids: seq<nat>)
    | Claim(worker: int)
    | Deliver(worker: int)
    | Record(worker: int)
    | Raise(worker: int, code: string)
    | Crash(worker: int)
  {
    predicate By(w: int) {
      (Fetch? || Claim? || Deliver? || Record? || Raise? || Crash?) && worker == w
    }

    predicate ByWorker() { Fetch? || Claim? || Deliver? || Record? || Raise? || Crash? }
  }

  predicate KeyUsed(s: Outbox, key: string) {
    exists m | m in s.messages :: s.messages[m].key == key
  }

  predicate Enabled(s: Outbox, step: Step) {
    match step
    case Enqueue(id, _, _) => id !in s.messages
    case Fetch(w, ids) =>
      && PhaseOf(s, w) == Working([])
      && (forall k | 0 <= k < |ids| :: ids[k] in s.messages && DueEmail(s.messages[ids[k]], s.clock))
      && (forall j, k | 0 <= j < k < |ids| :: ids[j] != ids[k])
    case Claim(w) =>
      PhaseOf(s, w).Working? && PhaseOf(s, w).todo != [] && PhaseOf(s, w).todo[0].id in s.messages
    case Deliver(w) => PhaseOf(s, w).Holding? && PhaseOf(s, w).held.id in s.messages
    case Raise(w, _) => PhaseOf(s, w).Holding? && PhaseOf(s, w).held.id in s.messages
    case Record(w) => PhaseOf(s, w).Delivered? && PhaseOf(s, w).held.id in s.messages
    case _ => true
  }

  function WithRow(s: Outbox, id: nat, row: Message): Outbox {
    s.(messages := s.messages[id := row])
  }

  function WithPhase(s: Outbox, w: int, phase: Phase): Outbox {
    s.(workers := s.workers[w := phase])
  }

  function Snapshots(s: Outbox, ids: seq<nat>): seq<Snapshot>
    requires forall k | 0 <= k < |ids| :: ids[k] in s.messages
  {
    seq(|ids|, k requires 0 <= k < |ids| && (forall j | 0 <= j < |ids| :: ids[j] in s.messages) =>
      Snapshot(ids[k], s.messages[ids[k]]))
  }

  /** Whether the compare-and-set of a claim finds the status the worker read. */
  predicate ClaimWins(s: Outbox, w: int)
    requires Enabled(s, Claim(w))
  {
    var next := PhaseOf(s, w).todo[0];
    s.messages[next.id].status == next.row.status
  }

  function Apply(s: Outbox, step: Step): Outbox
    requires Enabled(s, step)
  {
    match step
    case Pass(seconds) => s.(clock := s.clock + seconds)
    case Enqueue(id, key, max) => if KeyUsed(s, key) then s else WithRow(s, id, NewMessage(key, max, s.clock))
    case ManualRetry(id, expired) =>
      if id in s.messages && RetryAllowed(s.messages[id], expired)
      then WithRow(s, id, RetriedRow(s.messages[id], s.clock)) else s
    case Fetch(w, ids) => WithPhase(s, w, Working(Snapshots(s, ids)))
    case Claim(w) =>
      var todo := PhaseOf(s, w).todo;
      if ClaimWins(s, w)
      then WithPhase(WithRow(s, todo[0].id, ClaimedRow(s.messages[todo[0].id], todo[0].row, s.clock)),
                     w, Holding(todo[0], todo[1..]))
      else WithPhase(s, w, Working(todo[1..]))
    case Deliver(w) =>
      var phase := PhaseOf(s, w);
      WithPhase(WithRow(s, phase.held.id, s.messages[phase.held.id].(sends := s.messages[phase.held.id].sends + 1)),
                w, Delivered(phase.held, phase.todo))
    case Record(w) =>
      var phase := PhaseOf(s, w);
      WithPhase(WithRow(s, phase.held.id, s.messages[phase.held.id].(status := Sent, error := None)),
                w, Working(phase.todo))
    case Raise(w, code) =>
      var phase := PhaseOf(s, w);
      WithPhase(WithRow(s, phase.held.id, FailedRow(s.messages[phase.held.id], phase.held.row, code, s.clock)),
                w, Working(phase.todo))
    case Crash(w) => WithPhase(s, w, Working([]))
  }

  predicate EnabledRun(s: Outbox, run: seq<Step>)
    decreases |run|
  {
    run == [] || (Enabled(s, run[0]) && EnabledRun(Apply(s, run[0]), run[1..]))
  }

  function Run(s: Outbox, run: seq<Step>): Outbox
    requires EnabledRun(s, run)
    decreases |run|
  {
    if run == [] then s else Run(Apply(s, run[0]), run[1..])
  }

  /** How often send_message returned normally for a message during a run. */
  function Deliveries(s: Outbox, run: seq<Step>, id: nat): nat
    requires EnabledRun(s, run)
    decreases |run|
  {
    if run == [] then 0
    else
      (if run[0].Deliver? && PhaseOf(s, run[0].worker).held.id == id then 1 else 0)
      + Deliveries(Apply(s, run[0]), run[1..], id)
  }

  lemma {:induction false} RunSplit(s: Outbox, first: seq<Step>, then_: seq<Step>)
    requires EnabledRun(s, first) && EnabledRun(Run(s, first), then_)
    ensures EnabledRun(s, first + then_) && Run(s, first + then_) == Run(Run(s, first), then_)
    decreases |first|
  {
    hide Apply, Enabled;
    if first == [] {
      assert first + then_ == then_;
    } else {
      assert (first + then_)[1..] == first[1..] + then_;
      RunSplit(Apply(s, first[0]), first[1..], then_);
    }
  }
}
