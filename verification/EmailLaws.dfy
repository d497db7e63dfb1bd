/**
  What each step of the email protocol leaves in a message's row, column by column, and when a failed
  attempt is final.
 */
module EmailLaws {
  import opened Options
  import opened EmailOutbox

  lemma DueIff(row: Message, now: int)
    ensures DueEmail(row, now) <==> row.status in {Pending, RetryScheduled} && row.scheduledAt <= now
  {
  }

  /** A key is stored once; its message is due at once and nothing has been tried. */
  lemma EnqueueLeaves(s: Outbox, id: nat, key: string, maxAttempts: int)
    requires id !in s.messages
    ensures Apply(s, Enqueue(id, key, maxAttempts)) ==
            if exists m | m in s.messages :: s.messages[m].key == key then s
            else s.(messages := s.messages[id := Message(key, Pending, 0, maxAttempts, s.clock, None, [], 0, 0)])
  {
  }

  /** A claim succeeds while the status is still the one read, and then counts one attempt on from what was read. */
  lemma ClaimLeaves(s: Outbox, w: int, next: Snapshot, todo: seq<Snapshot>)
    requires w in s.workers && s.workers[w] == Working([next] + todo) && next.id in s.messages
    ensures Enabled(s, Claim(w))
    ensures var row := s.messages[next.id];
            Apply(s, Claim(w)) ==
              if row.status == next.row.status
              then s.(messages := s.messages[next.id := row.(
                        status := Processing, attempts := next.row.attempts + 1,
                        starts := row.starts + [Start(s.clock, next.row.status == RetryScheduled)])],
                      workers := s.workers[w := Holding(next, todo)])
              else s.(workers := s.workers[w := Working(todo)])
  {
    assert ([next] + todo)[1..] == todo;
  }

  /**
    A failed attempt is final exactly for an error that is not one of four, or when it was the last
    attempt allowed; otherwise the message waits two minutes for each attempt made so far.
   */
  lemma FailureFinalIff(s: Outbox, w: int, code: string, held: Snapshot, todo: seq<Snapshot>)
    requires w in s.workers && s.workers[w] == Holding(held, todo) && held.id in s.messages
    ensures Enabled(s, Raise(w, code))
    ensures var t, row := Apply(s, Raise(w, code)), s.messages[held.id];
            var row' := t.messages[held.id];
            var final := code !in {"EMAIL_DELIVERY_FAILED", "SMTP_TEMPORARY_FAILURE", "SMTP_TIMEOUT",
                                   "EMAIL_NOT_CONFIGURED"}
                         || held.row.attempts + 1 >= held.row.maxAttempts;
            && (row'.status == Failed <==> final) && (row'.status == RetryScheduled <==> !final)
            && row'.scheduledAt == (if final then row.scheduledAt else s.clock + 120 * (held.row.attempts + 1))
            && row' == row.(status := row'.status, error := Some(code), scheduledAt := row'.scheduledAt)
            && t == s.(messages := s.messages[held.id := row'], workers := s.workers[w := Working(todo)])
  {
  }

  /** A send that returns is counted when it does; the row says so only after the next commit. */
  lemma SendLeaves(s: Outbox, w: int, held: Snapshot, todo: seq<Snapshot>)
    requires w in s.workers && s.workers[w] == Holding(held, todo) && held.id in s.messages
    ensures Enabled(s, Deliver(w)) && Enabled(Apply(s, Deliver(w)), Record(w))
    ensures var row, u := s.messages[held.id], Apply(s, Deliver(w));
            && u == s.(messages := s.messages[held.id := row.(sends := row.sends + 1)],
                       workers := s.workers[w := Delivered(held, todo)])
            && Apply(u, Record(w)) ==
                 s.(messages := s.messages[held.id := row.(sends := row.sends + 1, status := Sent, error := None)],
                    workers := s.workers[w := Working(todo)])
  {
    var u := Apply(s, Deliver(w));
    var row := s.messages[held.id].(sends := s.messages[held.id].sends + 1);
    assert Apply(u, Record(w)).messages == s.messages[held.id := row.(status := Sent, error := None)];
    assert Apply(u, Record(w)).workers == s.workers[w := Working(todo)];
  }

  /** An administrator may retry a failed message while its token is good; it is due at once. */
  lemma ManualRetryLeaves(s: Outbox, id: nat, tokenExpired: bool)
    ensures Apply(s, ManualRetry(id, tokenExpired)) ==
            if id in s.messages && s.messages[id].status == Failed && !tokenExpired
            then s.(messages := s.messages[id := s.messages[id].(
                      status := Pending, scheduledAt := s.clock, error := None,
                      retries := s.messages[id].retries + 1)])
            else s
  {
  }

  /** A crash and the passing of time leave every row alone. */
  lemma RowsUntouched(s: Outbox, w: int, seconds: nat)
    ensures Apply(s, Crash(w)) == s.(workers := s.workers[w := Working([])])
    ensures Apply(s, Pass(seconds)) == s.(clock := s.clock + seconds)
  {
  }

  /** A worker reads rows that are due, in the state they are in. */
  lemma FetchLeaves(s: Outbox, w: int, ids: seq<nat>)
    requires Enabled(s, Fetch(w, ids))
    ensures var t := Apply(s, Fetch(w, ids));
            && t.messages == s.messages && t.clock == s.clock
            && w in t.workers && t.workers[w].Working? && |t.workers[w].todo| == |ids|
            && (forall k | 0 <= k < |ids| ::
                  ids[k] in s.messages && t.workers[w].todo[k] == Snapshot(ids[k], s.messages[ids[k]])
                  && s.messages[ids[k]].status in {Pending, RetryScheduled}
                  && s.messages[ids[k]].scheduledAt <= s.clock)
            && (forall v | v in s.workers && v != w :: v in t.workers && t.workers[v] == s.workers[v])
  {
  }
}
