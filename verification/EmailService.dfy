/**
  The outbox operations as they run against the message table.  The queue is processed while other
  workers, administrators and new messages get their turn at every commit; whatever they do, the
  whole is a run of the protocol.
 */
module EmailService {
  import opened Options
  import opened Sets
  import opened EmailOutbox
  import opened EmailTheorems

  /** How sending ends: normally, or with an EmailDeliveryError. */
  datatype Verdict = Returns | Raises(code: string)

  datatype RetryOutcome = MessageNotFound | AlreadySent | RetryNotAllowed | TokenExpired | Retried

  /** What a worker makes of the row it holds. */
  function RecordedRow(current: Message, read: Message, verdict: Verdict, now: int): Message {
    match verdict
    case Returns => current.(status := Sent, error := None, sends := current.sends + 1)
    case Raises(code) => FailedRow(current, read, code, now)
  }

  /** The messages after a worker's attempt at the one it holds, with nobody in between. */
  function AfterAttempt(s: Outbox, w: int, verdict: Verdict): map<nat, Message> {
    var phase := PhaseOf(s, w);
    if phase.Working? || phase.held.id !in s.messages then s.messages
    else
      s.messages[phase.held.id := RecordedRow(s.messages[phase.held.id], phase.held.row, verdict, s.clock)]
  }

  /** A row that one worker claimed, tried to send and recorded, with nobody in between. */
  function AttemptedRow(row: Message, verdict: Verdict, now: int): Message {
    RecordedRow(ClaimedRow(row, row, now), row, verdict, now)
  }

  /** What one row's turn does when nobody comes in between. */
  predicate Uninterrupted(
    before: map<nat, Message>, next: Snapshot, verdict: Verdict, now: int, locked: bool, after: map<nat, Message>)
  {
    && next.id in before
    && (locked <==> before[next.id].status == next.row.status)
    && (locked ==> after == before[next.id :=
          RecordedRow(ClaimedRow(before[next.id], next.row, now), next.row, verdict, now)])
  }

  function Attempted(s: Outbox, ids: seq<nat>, verdicts: map<nat, Verdict>): map<nat, Message> {
    map m | m in s.messages ::
      if m in ids && m in verdicts then AttemptedRow(s.messages[m], verdicts[m], s.clock) else s.messages[m]
  }

  /** Undisturbed, the first k rows of the list have each been attempted once. */
  predicate AloneSoFar(
    s: Outbox, ids: seq<nat>, k: nat, verdicts: map<nat, Verdict>, processed: int, clock: int,
    messages: map<nat, Message>)
  {
    k <= |ids| && processed == k && clock == s.clock && messages == Attempted(s, ids[..k], verdicts)
  }

  lemma AloneNext(
    s: Outbox, ids: seq<nat>, k: nat, verdicts: map<nat, Verdict>, processed: int, locked: bool,
    before: map<nat, Message>, after: map<nat, Message>)
    requires AloneSoFar(s, ids, k, verdicts, processed, s.clock, before)
    requires k < |ids| && ids[k] in s.messages && ids[k] in verdicts
    requires forall i, j | 0 <= i < j < |ids| :: ids[i] != ids[j]
    requires Uninterrupted(before, Snapshot(ids[k], s.messages[ids[k]]), verdicts[ids[k]], s.clock, locked, after)
    ensures locked && AloneSoFar(s, ids, k + 1, verdicts, processed + 1, s.clock, after)
  {
    hide Uninterrupted, Attempted;
    AttemptedOneMore(s, ids, k, verdicts, locked, after);
  }

  lemma AloneThroughout(
    s: Outbox, ids: seq<nat>, verdicts: map<nat, Verdict>, processed: int, clock: int, messages: map<nat, Message>)
    requires AloneSoFar(s, ids, |ids|, verdicts, processed, clock, messages)
    ensures processed == |ids| && messages == Attempted(s, ids, verdicts)
  {
    assert ids[..|ids|] == ids;
  }

  /** The i-th turn of the others. */
  function Turn(script: seq<seq<Step>>, i: nat): seq<Step> {
    if i < |script| then script[i] else []
  }

  predicate NotBy(run: seq<Step>, w: int) {
    forall k | 0 <= k < |run| :: !run[k].By(w)
  }

  /** How many messages a worker took to the end of an attempt during a run. */
  function Finished(run: seq<Step>, w: int): nat {
    if run == [] then 0
    else
      var last := run[|run| - 1];
      Finished(run[..|run| - 1], w) + if last.By(w) && (last.Record? || last.Raise?) then 1 else 0
  }

  lemma FinishedStep(run: seq<Step>, step: Step, w: int)
    ensures Finished(run + [step], w) == Finished(run, w) + if step.By(w) && (step.Record? || step.Raise?) then 1 else 0
  {
    assert (run + [step])[..|run|] == run;
  }

  lemma RunStep(s: Outbox, run: seq<Step>, step: Step)
    requires EnabledRun(s, run) && Enabled(Run(s, run), step)
    ensures EnabledRun(s, run + [step]) && Run(s, run + [step]) == Apply(Run(s, run), step)
  {
    hide Apply, Enabled;
    assert [step][1..] == [];
    assert EnabledRun(Run(s, run), [step]) && Run(Run(s, run), [step]) == Apply(Run(s, run), step);
    RunSplit(s, run, [step]);
  }

  /** Steps of others do not change what a worker is doing. */
  lemma OthersKeepPhase(s: Outbox, step: Step, w: int)
    requires Enabled(s, step) && !step.By(w)
    ensures PhaseOf(Apply(s, step), w) == PhaseOf(s, w)
  {
    hide ClaimWins, KeyUsed, Snapshots;
  }

  class OutboxTable {
    var messages: map<nat, Message>
    var workers: map<int, Phase>
    var clock: int

    function View(): Outbox
      reads this
    {
      Outbox(messages, workers, clock)
    }

    constructor ()
      ensures View() == EMPTY_OUTBOX
    {
      messages, workers, clock := map[], map[], 0;
    }

    // -------------------------------------------------------------------
    // Enqueueing and retrying by hand
    // -------------------------------------------------------------------

    /** The insert fails when the key is taken, and the row that took it is returned instead. */
    method EnqueueEmail(newId: nat, key: string, maxAttempts: int) returns (id: nat)
      requires Safe(View()) && newId !in messages
      modifies this`messages
      ensures View() == Apply(old(View()), Enqueue(newId, key, maxAttempts))
      ensures Safe(View())
      ensures id in messages && forall m | m in messages :: messages[m].key == key <==> m == id
    {
      StepKeepsSafe(View(), Enqueue(newId, key, maxAttempts));
      var holders := set m | m in messages && messages[m].key == key;
      if |holders| > 0 {
        id := Pick(holders);
        assert KeyUsed(View(), key);
      } else {
        assert forall m | m in messages && messages[m].key == key :: m in holders;
        id := newId;
        messages := messages[id := NewMessage(key, maxAttempts, clock)];
      }
      assert KeysDistinct(View());
    }

    method ManualRetryEmail(id: nat, tokenExpired: bool) returns (outcome: RetryOutcome)
      modifies this`messages
      ensures View() == Apply(old(View()), ManualRetry(id, tokenExpired))
      ensures outcome == Retried <==> id in old(messages) && RetryAllowed(old(messages)[id], tokenExpired)
      ensures outcome == AlreadySent <==> id in old(messages) && old(messages)[id].status == Sent
      ensures outcome == MessageNotFound <==> id !in old(messages)
      ensures outcome == TokenExpired <==> id in old(messages) && old(messages)[id].status == Failed && tokenExpired
    {
      if id !in messages { return MessageNotFound; }
      if messages[id].status == Sent { return AlreadySent; }
      if messages[id].status != Failed { return RetryNotAllowed; }
      if tokenExpired { return TokenExpired; }
      messages := messages[id := messages[id].(
        status := Pending, scheduledAt := clock, error := None, retries := messages[id].retries + 1)];
      outcome := Retried;
    }

    // -------------------------------------------------------------------
    // The queue
    // -------------------------------------------------------------------

    function DueIds(): (due: set<nat>)
      reads this
      ensures forall m: nat :: m in due <==>
                m in messages && messages[m].status in {Pending, RetryScheduled} && messages[m].scheduledAt <= clock
    {
      set m | m in messages && DueEmail(messages[m], clock)
    }

    method Earliest(rest: set<nat>) returns (id: nat)
      requires rest != {} && rest <= messages.Keys
      ensures id in rest && forall m | m in rest :: messages[id].scheduledAt <= messages[m].scheduledAt
    {
      id := Pick(rest);
      var others := rest - {id};
      while |others| > 0
        invariant others <= rest && id in rest
        invariant forall m | m in rest - others :: messages[id].scheduledAt <= messages[m].scheduledAt
      {
        var m := Pick(others);
        if messages[m].scheduledAt < messages[id].scheduledAt { id := m; }
        others := others - {m};
      }
    }

    /** Due messages in order of their scheduled time, up to the limit. */
    method SelectDue(limit: nat) returns (ids: seq<nat>)
      ensures forall i, j | 0 <= i < j < |ids| ::
        ids[i] != ids[j] && ids[i] in messages && ids[j] in messages
        && messages[ids[i]].scheduledAt <= messages[ids[j]].scheduledAt
      ensures forall i | 0 <= i < |ids| :: ids[i] in DueIds()
      ensures |ids| == if |DueIds()| <= limit then |DueIds()| else limit
      ensures forall i, m | 0 <= i < |ids| && m in DueIds() && m !in ids ::
        ids[i] in messages && messages[ids[i]].scheduledAt <= messages[m].scheduledAt
    {
      ids := [];
      var due := DueIds();
      var rest := due;
      assert due <= messages.Keys;
      hide DueEmail;
      while |ids| < limit && |rest| > 0
        invariant rest <= due && |ids| + |rest| == |due| && |ids| <= limit
        invariant forall i | 0 <= i < |ids| :: ids[i] in due && ids[i] !in rest
        invariant forall m | m in due :: m in rest || m in ids
        invariant forall i, m | 0 <= i < |ids| && m in rest :: messages[ids[i]].scheduledAt <= messages[m].scheduledAt
        invariant forall i, j | 0 <= i < j < |ids| ::
          ids[i] != ids[j] && messages[ids[i]].scheduledAt <= messages[ids[j]].scheduledAt
        decreases |rest|
      {
        var m := Earliest(rest);
        ids := ids + [m];
        rest := rest - {m};
      }
    }

    /** Everybody else's turn: their steps, as far as they are possible. */
    method Others(w: int, script: seq<Step>) returns (ghost run: seq<Step>)
      requires Safe(View())
      modifies this
      ensures Safe(View()) && NotBy(run, w) && PhaseOf(View(), w) == old(PhaseOf(View(), w))
      ensures EnabledRun(old(View()), run) && View() == Run(old(View()), run)
      ensures Finished(run, w) == 0
      ensures script == [] ==> View() == old(View()) && clock == old(clock) && messages == old(messages)
    {
      ghost var s := View();
      run := [];
      assert Finished([], w) == 0;
      hide Safe, Apply, Enabled, PhaseOf, Run, EnabledRun, Finished;
      assert EnabledRun(s, run) && Run(s, run) == s by { EmptyRun(s); }
      for k := 0 to |script|
        invariant Safe(View()) && NotBy(run, w) && PhaseOf(View(), w) == PhaseOf(s, w)
        invariant EnabledRun(s, run) && View() == Run(s, run)
        invariant Finished(run, w) == 0
        invariant k == 0 ==> View() == s
      {
        var step := script[k];
        if !step.By(w) && Enabled(View(), step) {
          StepKeepsSafe(View(), step);
          OthersKeepPhase(View(), step, w);
          RunStep(s, run, step);
          FinishedStep(run, step, w);
          var t := Apply(View(), step);
          messages, workers, clock := t.messages, t.workers, t.clock;
          run := run + [step];
        }
      }
    }

    method Fetch(w: int, limit: nat) returns (ids: seq<nat>)
      requires PhaseOf(View(), w) == Working([])
      modifies this`workers
      ensures Enabled(old(View()), EmailOutbox.Fetch(w, ids)) && View() == Apply(old(View()), EmailOutbox.Fetch(w, ids))
      ensures |ids| == if |old(DueIds())| <= limit then |old(DueIds())| else limit
    {
      ids := SelectDue(limit);
      workers := workers[w := Working(Snapshots(View(), ids))];
    }

    /** The compare-and-set. */
    method TryClaim(w: int) returns (locked: bool)
      requires Enabled(View(), Claim(w))
      modifies this`messages, this`workers
      ensures locked <==> ClaimWins(old(View()), w)
      ensures View() == Apply(old(View()), Claim(w))
    {
      var next, todo := PhaseOf(View(), w).todo[0], PhaseOf(View(), w).todo[1..];
      locked := messages[next.id].status == next.row.status;
      if locked {
        var row := messages[next.id];
        messages := messages[next.id := row.(
          status := Processing, attempts := next.row.attempts + 1,
          starts := row.starts + [Start(clock, next.row.status.RetryScheduled?)])];
        workers := workers[w := Holding(next, todo)];
      } else {
        workers := workers[w := Working(todo)];
      }
    }

    method SendReturns(w: int)
      requires Enabled(View(), Deliver(w))
      modifies this`messages, this`workers
      ensures View() == Apply(old(View()), Deliver(w))
    {
      var phase := PhaseOf(View(), w);
      messages := messages[phase.held.id := messages[phase.held.id].(sends := messages[phase.held.id].sends + 1)];
      workers := workers[w := Delivered(phase.held, phase.todo)];
    }

    method RecordSent(w: int)
      requires Enabled(View(), Record(w))
      modifies this`messages, this`workers
      ensures View() == Apply(old(View()), Record(w))
    {
      var phase := PhaseOf(View(), w);
      messages := messages[phase.held.id := messages[phase.held.id].(status := Sent, error := None)];
      workers := workers[w := Working(phase.todo)];
    }

    method RecordFailure(w: int, code: string)
      requires Enabled(View(), Raise(w, code))
      modifies this`messages, this`workers
      ensures View() == Apply(old(View()), Raise(w, code))
      ensures var held := old(PhaseOf(View(), w)).held;
              var final := code !in {"EMAIL_DELIVERY_FAILED", "SMTP_TEMPORARY_FAILURE", "SMTP_TIMEOUT",
                                     "EMAIL_NOT_CONFIGURED"}
                           || held.row.attempts + 1 >= held.row.maxAttempts;
              && held.id in old(messages) && messages == old(messages)[held.id := old(messages)[held.id].(
                   status := if final then Failed else RetryScheduled, error := Some(code),
                   scheduledAt := if final then old(messages)[held.id].scheduledAt
                                  else clock + 120 * (held.row.attempts + 1))]
    {
      var phase := PhaseOf(View(), w);
      var row, read := messages[phase.held.id], phase.held.row;
      var attempt := read.attempts + 1;
      if code in RETRYABLE && attempt < read.maxAttempts {
        messages := messages[phase.held.id := row.(
          status := RetryScheduled, error := Some(code), scheduledAt := clock + 2 * attempt * MINUTE)];
      } else {
        messages := messages[phase.held.id := row.(status := Failed, error := Some(code))];
      }
      workers := workers[w := Working(phase.todo)];
    }

    /** From the commit of the claim to the commit of the outcome; others may come before each of the two steps. */
    method Attempt(w: int, verdict: Verdict, before: seq<Step>, between: seq<Step>) returns (ghost run: seq<Step>)
      requires Safe(View()) && PhaseOf(View(), w).Holding?
      modifies this
      ensures Safe(View()) && PhaseOf(View(), w) == Working(old(PhaseOf(View(), w)).todo)
      ensures EnabledRun(old(View()), run) && View() == Run(old(View()), run)
      ensures Finished(run, w) == 1
      ensures before == [] && between == [] ==> clock == old(clock) && messages == AfterAttempt(old(View()), w, verdict)
    {
      hide *;
      ghost var s := View();
      ghost var first := Others(w, before);
      ghost var rest;
      match verdict {
        case Returns => rest := AttemptReturns(w, between);
        case Raises(code) => rest := AttemptRaises(w, code);
      }
      RunSplit(s, first, rest);
      FinishedAppend(first, rest, w);
      run := first + rest;
    }

    method AttemptRaises(w: int, code: string) returns (ghost run: seq<Step>)
      requires Safe(View()) && PhaseOf(View(), w).Holding?
      modifies this
      ensures Safe(View()) && PhaseOf(View(), w) == Working(old(PhaseOf(View(), w)).todo)
      ensures EnabledRun(old(View()), run) && View() == Run(old(View()), run) && Finished(run, w) == 1
      ensures clock == old(clock) && messages == AfterAttempt(old(View()), w, Raises(code))
    {
      ghost var t := View();
      SafePhase(t, w);
      assert Enabled(t, Raise(w, code));
      StepKeepsSafe(t, Raise(w, code));
      SingleStep(t, Raise(w, code), w);
      RaiseThen(t, w, code);
      hide Safe, Run, EnabledRun, Finished;
      RecordFailure(w, code);
      run := [Raise(w, code)];
    }

    method AttemptReturns(w: int, between: seq<Step>) returns (ghost run: seq<Step>)
      requires Safe(View()) && PhaseOf(View(), w).Holding?
      modifies this
      ensures Safe(View()) && PhaseOf(View(), w) == Working(old(PhaseOf(View(), w)).todo)
      ensures EnabledRun(old(View()), run) && View() == Run(old(View()), run) && Finished(run, w) == 1
      ensures between == [] ==> clock == old(clock) && messages == AfterAttempt(old(View()), w, Returns)
    {
      ghost var t := View();
      SafePhase(t, w);
      assert Enabled(t, Deliver(w));
      StepKeepsSafe(t, Deliver(w));
      SingleStep(t, Deliver(w), w);
      DeliverThen(t, w);
      hide Safe, Run, EnabledRun, Finished;
      SendReturns(w);
      ghost var rest := RecordPhase(w, between);
      RunSplit(t, [Deliver(w)], rest);
      FinishedAppend([Deliver(w)], rest, w);
      run := [Deliver(w)] + rest;
    }

    method RecordPhase(w: int, between: seq<Step>) returns (ghost run: seq<Step>)
      requires Safe(View()) && PhaseOf(View(), w).Delivered?
      modifies this
      ensures Safe(View()) && PhaseOf(View(), w) == Working(old(PhaseOf(View(), w)).todo)
      ensures EnabledRun(old(View()), run) && View() == Run(old(View()), run) && Finished(run, w) == 1
      ensures between == [] ==>
        && clock == old(clock) && old(PhaseOf(View(), w)).held.id in old(messages)
        && messages == var id := old(PhaseOf(View(), w)).held.id;
                       old(messages)[id := old(messages)[id].(status := Sent, error := None)]
    {
      ghost var s := View();
      run := Others(w, between);
      ghost var u := View();
      SafePhase(u, w);
      assert Enabled(u, Record(w));
      RecordThen(u, w);
      StepKeepsSafe(u, Record(w));
      RunStep(s, run, Record(w));
      FinishedStep(run, Record(w), w);
      hide Safe, Run, EnabledRun, Finished;
      RecordSent(w);
      run := run + [Record(w)];
    }

    /** Others take their turn, and then the next row of the list is claimed, if it is still as it was read. */
    method ClaimNext(w: int, before: seq<Step>) returns (locked: bool, ghost run: seq<Step>)
      requires Safe(View()) && PhaseOf(View(), w).Working? && PhaseOf(View(), w).todo != []
      modifies this
      ensures Safe(View()) && EnabledRun(old(View()), run) && View() == Run(old(View()), run) && Finished(run, w) == 0
      ensures var todo := old(PhaseOf(View(), w)).todo;
              PhaseOf(View(), w) == if locked then Holding(todo[0], todo[1..]) else Working(todo[1..])
      ensures before == [] ==> Enabled(old(View()), Claim(w)) && View() == Apply(old(View()), Claim(w))
      ensures before == [] ==> (locked <==> ClaimWins(old(View()), w))
    {
      ghost var s := View();
      run := Others(w, before);
      ghost var t := View();
      SafePhase(t, w);
      assert Enabled(t, Claim(w));
      ClaimThen(t, w);
      StepKeepsSafe(t, Claim(w));
      RunStep(s, run, Claim(w));
      FinishedStep(run, Claim(w), w);
      hide Safe, Run, EnabledRun, Finished, Apply, Enabled, PhaseOf;
      locked := TryClaim(w);
      run := run + [Claim(w)];
    }

    /** One row of the list, from its claim to the commit of its outcome. */
    method ProcessNext(w: int, verdict: Verdict, before: seq<Step>, after: seq<Step>, between: seq<Step>)
      returns (locked: bool, ghost run: seq<Step>)
      requires Safe(View()) && PhaseOf(View(), w).Working? && PhaseOf(View(), w).todo != []
      modifies this
      ensures Safe(View()) && PhaseOf(View(), w) == Working(old(PhaseOf(View(), w)).todo[1..])
      ensures EnabledRun(old(View()), run) && View() == Run(old(View()), run)
      ensures Finished(run, w) == if locked then 1 else 0
      ensures before == [] && after == [] && between == [] ==>
        clock == old(clock)
        && Uninterrupted(old(messages), old(PhaseOf(View(), w)).todo[0], verdict, old(clock), locked, messages)
    {
      ghost var s := View();
      locked, run := ClaimNext(w, before);
      if before == [] { ClaimEffect(s, w); }
      hide Safe, Run, EnabledRun, Finished, RecordedRow, ClaimedRow, Apply, Enabled, PhaseOf;
      if locked {
        ghost var rest := Attempt(w, verdict, after, between);
        RunSplit(s, run, rest);
        FinishedAppend(run, rest, w);
        run := run + rest;
      }
    }

    /** The loop over the list a worker has read. */
    method ProcessList(
      w: int, ghost s: Outbox, ids: seq<nat>, verdicts: map<nat, Verdict>, script: seq<seq<Step>>)
      returns (processed: nat, ghost run: seq<Step>)
      requires Safe(View()) && clock == s.clock && messages == s.messages
      requires forall k | 0 <= k < |ids| :: ids[k] in s.messages && ids[k] in verdicts
      requires forall i, j | 0 <= i < j < |ids| :: ids[i] != ids[j]
      requires PhaseOf(View(), w) == Working(Snapshots(s, ids))
      modifies this
      ensures Safe(View()) && PhaseOf(View(), w) == Working([])
      ensures EnabledRun(old(View()), run) && View() == Run(old(View()), run)
      ensures processed == Finished(run, w) <= |ids|
      ensures script == [] ==> processed == |ids| && messages == Attempted(s, ids, verdicts)
    {
      run := [];
      processed := 0;
      ghost var t, list := View(), Snapshots(s, ids);
      EmptyRun(t);
      assert list[0..] == list && Finished([], w) == 0 && |list| == |ids|;
      assert AloneSoFar(s, ids, 0, verdicts, 0, clock, messages);
      hide *;
      for k := 0 to |ids|
        invariant Safe(View()) && PhaseOf(View(), w) == Working(list[k..])
        invariant EnabledRun(t, run) && View() == Run(t, run)
        invariant processed == Finished(run, w) <= k
        invariant script == [] ==> AloneSoFar(s, ids, k, verdicts, processed, clock, messages)
      {
        NextOfList(s, ids, k);
        var locked;
        ghost var before, part := messages, [];
        locked, part := ProcessNext(w, verdicts[ids[k]],
                                    Turn(script, 3 * k), Turn(script, 3 * k + 1), Turn(script, 3 * k + 2));
        RunSplit(t, run, part);
        FinishedAppend(run, part, w);
        run := run + part;
        if script == [] { NoTurns(k); AloneNext(s, ids, k, verdicts, processed, locked, before, messages); }
        if locked { processed := processed + 1; }
      }
      assert list[|ids|..] == [];
      if script == [] { AloneThroughout(s, ids, verdicts, processed, clock, messages); }
    }

    /**
      Process the queue.  Whatever the others do in their turns, this is a run of the protocol, the
      count returned is the number of attempts this worker finished, and with no turns taken by
      others every due message up to the limit is attempted once.
     */
    method ProcessEmailQueue(w: int, limit: nat, verdicts: map<nat, Verdict>, script: seq<seq<Step>>)
      returns (processed: nat, ghost ids: seq<nat>, ghost run: seq<Step>)
      requires Safe(View()) && PhaseOf(View(), w) == Working([]) && DueIds() <= verdicts.Keys
      modifies this
      ensures Safe(View()) && PhaseOf(View(), w) == Working([])
      ensures EnabledRun(old(View()), run) && View() == Run(old(View()), run)
      ensures |ids| == if |old(DueIds())| <= limit then |old(DueIds())| else limit
      ensures processed == Finished(run, w) <= |ids|
      ensures script == [] ==> processed == |ids| && messages == Attempted(old(View()), ids, verdicts)
    {
      ghost var s := View();
      var due := Fetch(w, limit);
      ids := due;
      FetchStarts(s, w, due, verdicts);
      ghost var rest;
      hide Safe, Run, EnabledRun, Finished, Attempted, Enabled, Apply, PhaseOf;
      processed, rest := ProcessList(w, s, due, verdicts, script);
      RunSplit(s, [EmailOutbox.Fetch(w, due)], rest);
      FinishedAppend([EmailOutbox.Fetch(w, due)], rest, w);
      run := [EmailOutbox.Fetch(w, due)] + rest;
    }
  }

  lemma NoTurns(k: nat)
    ensures Turn([], 3 * k) == [] && Turn([], 3 * k + 1) == [] && Turn([], 3 * k + 2) == []
  {
  }

  lemma ClaimEffect(s: Outbox, w: int)
    requires Enabled(s, Claim(w))
    ensures var next, t := PhaseOf(s, w).todo[0], Apply(s, Claim(w));
            && next.id in s.messages && t.clock == s.clock
            && (ClaimWins(s, w) ==>
                  t.messages == s.messages[next.id := ClaimedRow(s.messages[next.id], next.row, s.clock)])
            && (ClaimWins(s, w) <==> s.messages[next.id].status == next.row.status)
  {
  }

  lemma FetchStarts(s: Outbox, w: int, ids: seq<nat>, verdicts: map<nat, Verdict>)
    requires Safe(s) && Enabled(s, Fetch(w, ids))
    requires (set m | m in s.messages && DueEmail(s.messages[m], s.clock)) <= verdicts.Keys
    ensures var t := Apply(s, Fetch(w, ids));
            && Safe(t) && PhaseOf(t, w) == Working(Snapshots(s, ids))
            && t.messages == s.messages && t.clock == s.clock
            && EnabledRun(s, [Fetch(w, ids)]) && Run(s, [Fetch(w, ids)]) == t && Finished([Fetch(w, ids)], w) == 0
    ensures forall k | 0 <= k < |ids| :: ids[k] in s.messages && ids[k] in verdicts
    ensures forall i, j | 0 <= i < j < |ids| :: ids[i] != ids[j]
  {
    StepKeepsSafe(s, Fetch(w, ids));
    hide Safe;
    SingleStep(s, Fetch(w, ids), w);
    assert forall k | 0 <= k < |ids| :: ids[k] in verdicts by {
      forall k | 0 <= k < |ids| ensures ids[k] in verdicts {
        assert ids[k] in set m | m in s.messages && DueEmail(s.messages[m], s.clock);
      }
    }
  }

  lemma {:induction false} FinishedAppend(run: seq<Step>, rest: seq<Step>, w: int)
    ensures Finished(run + rest, w) == Finished(run, w) + Finished(rest, w)
  {
    if rest == [] {
      assert run + rest == run;
    } else {
      var front, last := rest[..|rest| - 1], rest[|rest| - 1];
      FinishedAppend(run, front, w);
      FinishedStep(run + front, last, w);
      FinishedStep(front, last, w);
      assert run + rest == (run + front) + [last] && rest == front + [last];
    }
  }

  /** The rows of a list are read at once and taken one by one. */
  lemma NextOfList(s: Outbox, ids: seq<nat>, k: nat)
    requires k < |ids| && forall j | 0 <= j < |ids| :: ids[j] in s.messages
    ensures Snapshots(s, ids)[k..][0] == Snapshot(ids[k], s.messages[ids[k]])
    ensures Snapshots(s, ids)[k..][1..] == Snapshots(s, ids)[k + 1..]
  {
  }

  lemma ClaimThen(s: Outbox, w: int)
    requires Enabled(s, Claim(w))
    ensures var todo := PhaseOf(s, w).todo;
            PhaseOf(Apply(s, Claim(w)), w) == if ClaimWins(s, w) then Holding(todo[0], todo[1..])
                else Working(todo[1..])
  {
  }

  lemma AttemptedOneMore(
    s: Outbox, ids: seq<nat>, k: nat, verdicts: map<nat, Verdict>, locked: bool, after: map<nat, Message>)
    requires k < |ids| && ids[k] in s.messages && ids[k] in verdicts
    requires forall i, j | 0 <= i < j < |ids| :: ids[i] != ids[j]
    requires Uninterrupted(Attempted(s, ids[..k], verdicts), Snapshot(ids[k], s.messages[ids[k]]), verdicts[ids[k]],
                           s.clock, locked, after)
    ensures locked && after == Attempted(s, ids[..k + 1], verdicts)
  {
    hide RecordedRow, ClaimedRow;
    assert ids[..k + 1] == ids[..k] + [ids[k]];
    assert ids[k] !in ids[..k];
  }

  lemma EmptyRun(s: Outbox)
    ensures EnabledRun(s, []) && Run(s, []) == s
  {
  }

  lemma SingleStep(s: Outbox, step: Step, w: int)
    requires Enabled(s, step) && step.By(w)
    ensures EnabledRun(s, [step]) && Run(s, [step]) == Apply(s, step)
    ensures Finished([step], w) == if step.Record? || step.Raise? then 1 else 0
  {
    hide Apply, Enabled;
    EmptyRun(s);
    RunStep(s, [], step);
    FinishedStep([], step, w);
    assert [] + [step] == [step];
  }

  lemma DeliverThen(s: Outbox, w: int)
    requires Enabled(s, Deliver(w))
    ensures PhaseOf(Apply(s, Deliver(w)), w) == Delivered(PhaseOf(s, w).held, PhaseOf(s, w).todo)
  {
  }

  lemma RecordThen(s: Outbox, w: int)
    requires Enabled(s, Record(w))
    ensures PhaseOf(Apply(s, Record(w)), w) == Working(PhaseOf(s, w).todo)
  {
  }

  lemma RaiseThen(s: Outbox, w: int, code: string)
    requires Enabled(s, Raise(w, code))
    ensures PhaseOf(Apply(s, Raise(w, code)), w) == Working(PhaseOf(s, w).todo)
  {
  }
}
