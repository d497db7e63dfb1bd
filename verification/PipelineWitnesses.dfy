/**
  Runs from the empty portal that reach the states the pipeline does not handle well: a document
  left out of the queue, a warning lost by a second sync, a file lost by a death, and a second deal.
 */
module PipelineWitnesses {
  import opened Options
  import opened PipelineTables
  import opened PipelineInvariants
  import opened PipelineTheorems
  import opened PipelineDeaths
  import opened SyncTheorems

  const DRAFTED := EMPTY_STORE.(applications := map[1 := NewDraft(None)])

  const CREATES_5 := Replies(LookupResult(None), CreateResult(5), {5})

  ghost function Submitted(documents: seq<Document>, disk: set<string>): Store {
    Store(map[1 := ReceivedRow(NewDraft(None), 5, None, 0)], documents,
          [Attempt(1, 1, Succeeded, Some(5), None, true)], [], disk, map[5 := 1])
  }

  /** An application submitted for the first time, with the documents and files it has by then. */
  lemma FirstSubmission(documents: seq<Document>, disk: set<string>)
    ensures var s := DRAFTED.(documents := documents, disk := disk);
            && Enabled(s, SubmitStep(1, CREATES_5, None))
            && Apply(s, SubmitStep(1, CREATES_5, None), 0) == Submitted(WithDeal(documents, 1, 5), disk)
  {
    var s := DRAFTED.(documents := documents, disk := disk);
    assert DealsFor(s, 1) == {};
    assert WithCreated(map[], {5}, 1) == map[5 := 1];
  }

  lemma NextStep(s: Store, run: seq<TimedStep>, k: nat)
    requires k < |run|
    ensures EnabledRun(s, run[k..])
            <==> Enabled(s, run[k].step) && EnabledRun(Apply(s, run[k].step, run[k].now), run[k + 1..])
    ensures EnabledRun(s, run[k..]) ==>
              Run(s, run[k..]) == Run(Apply(s, run[k].step, run[k].now), run[k + 1..])
  {
    hide Apply, Enabled;
    assert run[k..][1..] == run[k + 1..];
  }

  const DRAFT_RUN := [At(0, DraftStep(1, None))]
  const SUBMIT_RUN := [At(0, DraftStep(1, None)), At(0, SubmitStep(1, CREATES_5, None))]

  lemma SubmitRunReaches()
    ensures EnabledRun(EMPTY_STORE, DRAFT_RUN) && Run(EMPTY_STORE, DRAFT_RUN) == DRAFTED
    ensures EnabledRun(EMPTY_STORE, SUBMIT_RUN) && Run(EMPTY_STORE, SUBMIT_RUN) == Submitted([], {})
  {
    FirstSubmission([], {});
    assert WithDeal([], 1, 5) == [];
    assert DRAFT_RUN[0..] == DRAFT_RUN && DRAFT_RUN[1..] == [];
    assert SUBMIT_RUN[0..] == SUBMIT_RUN && SUBMIT_RUN[2..] == [];
    assert Apply(EMPTY_STORE, DraftStep(1, None), 0) == DRAFTED;
    hide Apply, Submitted;
    NextStep(EMPTY_STORE, DRAFT_RUN, 0);
    NextStep(EMPTY_STORE, SUBMIT_RUN, 0);
    NextStep(DRAFTED, SUBMIT_RUN, 1);
  }

  /** An upload that began on the draft and ended after the submission is not picked up by the queue. */
  lemma DocumentLeftBehind()
    ensures EnabledRun(EMPTY_STORE, DRAFT_RUN) && EnabledRun(EMPTY_STORE, SUBMIT_RUN)
    ensures var s, t := Run(EMPTY_STORE, DRAFT_RUN), Run(EMPTY_STORE, SUBMIT_RUN);
            var u := LateUpload(s, t, 1, "other", "k", 100);
            && MayUpload(s, 1) && FreshKey(t, "k")
            && 1 in u.applications && u.applications[1].dealId == Some(5) && !Eligible(u, 0)
  {
    SubmitRunReaches();
    LateUploadLeftBehindIff(DRAFTED, Submitted([], {}), 1, "other", "k", 100);
    hide Run, EnabledRun;
  }

  const STAGES := map[(0, "WON") := PolicyIssued]
  const COMPLETE := PolicyFields(
    Some("N"), Some("P"), Some("I"), Some(0), Some(1), Some(1.0), Some("GEL"), Some("F"))
  const NOTHING := PolicyFields(None, None, None, None, None, None, None, None)

  const SYNC_RUN := SUBMIT_RUN + [At(0, SyncStep(1, DealResult(Deal("WON", None, COMPLETE)), STAGES))]

  ghost function Issued(): Store {
    Sync(Submitted([], {}), 1, DealResult(Deal("WON", None, COMPLETE)), STAGES, 0)
  }

  lemma IssuedBySync()
    ensures 1 in Issued().applications && Issued().applications[1].status == PolicyIssued
    ensures Issued().applications[1].dealId == Some(5)
    ensures Submitting !in STAGES.Values
    ensures LosesWarning(Issued().applications[1], Deal("", None, NOTHING), STAGES)
  {
    hide SyncPolicy;
  }

  lemma SyncRunReaches()
    ensures EnabledRun(EMPTY_STORE, SYNC_RUN) && Run(EMPTY_STORE, SYNC_RUN) == Issued()
  {
    SubmitRunReaches();
    IssuedBySync();
    var last := At(0, SyncStep(1, DealResult(Deal("WON", None, COMPLETE)), STAGES));
    assert SYNC_RUN == SUBMIT_RUN + [last];
    hide Sync, Submitted, Run, EnabledRun, LosesWarning;
    RunLonger(EMPTY_STORE, SUBMIT_RUN, last);
  }

  /** An issued policy whose deal loses its stage and its data: the second sync takes the warning back. */
  lemma WarningLostReached()
    ensures EnabledRun(EMPTY_STORE, SYNC_RUN)
    ensures var s := Run(EMPTY_STORE, SYNC_RUN);
            var t := Sync(s, 1, DealResult(Deal("", None, NOTHING)), STAGES, 1);
            1 in s.applications && s.applications[1].status == PolicyIssued
            && Timeless(Sync(t, 1, DealResult(Deal("", None, NOTHING)), STAGES, 2)) != Timeless(t)
  {
    SyncRunReaches();
    IssuedBySync();
    EmptyStoreInv();
    hide *;
    RunKeepsInv(EMPTY_STORE, SYNC_RUN);
    SyncTwiceIff(Issued(), 1, Deal("", None, NOTHING), STAGES, 1, 2);
  }

  lemma {:induction false} RunLonger(s: Store, run: seq<TimedStep>, last: TimedStep)
    requires EnabledRun(s, run) && Enabled(Run(s, run), last.step)
    ensures EnabledRun(s, run + [last]) && Run(s, run + [last]) == Apply(Run(s, run), last.step, last.now)
    decreases |run|
  {
    hide Apply, Enabled;
    if run == [] {
      assert (run + [last])[1..] == [];
    } else {
      assert (run + [last])[1..] == run[1..] + [last];
      RunLonger(Apply(s, run[0].step, run[0].now), run[1..], last);
    }
  }

  // ---------------------------------------------------------------------
  // Deaths
  // ---------------------------------------------------------------------

  lemma NextEvent(s: Store, run: seq<Event>, k: nat)
    requires k < |run|
    ensures PossibleRun(s, run[k..]) <==> Possible(s, run[k]) && PossibleRun(Happen(s, run[k]), run[k + 1..])
    ensures PossibleRun(s, run[k..]) ==> After(s, run[k..]) == After(Happen(s, run[k]), run[k + 1..])
  {
    hide Possible, Happen;
    assert run[k..][1..] == run[k + 1..];
  }

  const CREATES_6 := Replies(LookupResult(Some(5)), CreateResult(6), {6})

  /** A first submission dies after the remote has created deal 5; the next one calls create_deal again. */
  lemma SecondDealReached()
    ensures var run := [Commit(0, DraftStep(1, None)), DeadSubmit(1, CREATES_5)];
            PossibleRun(EMPTY_STORE, run)
            && var s := After(EMPTY_STORE, run);
               Truthful(s, 1, CREATES_6) && InvokesCreate(s, 1, CREATES_6) && DealsFor(s, 1) == {5}
  {
    var run := [Commit(0, DraftStep(1, None)), DeadSubmit(1, CREATES_5)];
    assert run[0..] == run && run[2..] == [];
    var s := DiedAfterCreate(DRAFTED, 1, {5});
    assert Happen(EMPTY_STORE, run[0]) == DRAFTED;
    assert DealsFor(DRAFTED, 1) == {};
    assert Possible(DRAFTED, run[1]) && Happen(DRAFTED, run[1]) == s;
    assert DealsFor(s, 1) == {5};
    assert Truthful(s, 1, CREATES_6) && InvokesCreate(s, 1, CREATES_6);
    hide Possible, Happen, Truthful, InvokesCreate, DealsFor, DiedAfterCreate;
    assert Possible(EMPTY_STORE, run[0]) by { FirstEvent(); }
    NextEvent(EMPTY_STORE, run, 0);
    NextEvent(DRAFTED, run, 1);
  }

  lemma FirstEvent()
    ensures Possible(EMPTY_STORE, Commit(0, DraftStep(1, None)))
  {
  }

  const UPLOADED := NewDocument(DRAFTED, 1, "other", "k", 100)
  const DEATH := DeadTransfer(1, map[0 := UploadedAs("f")], 1, false)

  ghost function LossRun(): seq<Event> {
    [Commit(0, DraftStep(1, None)), Commit(0, UploadStep(1, "other", "k", 100)),
     Commit(0, SubmitStep(1, CREATES_5, None)), DEATH]
  }

  lemma UploadReaches()
    ensures Possible(DRAFTED, LossRun()[1])
    ensures Happen(DRAFTED, LossRun()[1]) == DRAFTED.(documents := [UPLOADED], disk := {"k"})
  {
  }

  lemma QueueOfOne(s: Store)
    requires s == Submitted(WithDeal([UPLOADED], 1, 5), {"k"})
    ensures |s.documents| == 1 && Eligible(s, 0) && InBatch(s, 1, 0) && OnDisk(s.disk, s.documents[0])
    ensures s.documents[0].fileId.None? && StorageKeysUnique(s.documents) && EligibleBefore(s, 0) == 0
    ensures Possible(s, DEATH)
  {
    assert EligibleBefore(s, 0) == 0;
  }

  /** A document is uploaded to the remote, the run dies, and the document can never be sent. */
  lemma LossReached()
    ensures PossibleRun(EMPTY_STORE, LossRun())
    ensures Lost(After(EMPTY_STORE, LossRun()), 0) && Eligible(After(EMPTY_STORE, LossRun()), 0)
  {
    var run := LossRun();
    assert run[0..] == run && run[4..] == [];
    FirstEvent();
    UploadReaches();
    FirstSubmission([UPLOADED], {"k"});
    assert Happen(EMPTY_STORE, run[0]) == DRAFTED;
    var a := DRAFTED.(documents := [UPLOADED], disk := {"k"});
    var b := Submitted(WithDeal([UPLOADED], 1, 5), {"k"});
    assert Possible(a, run[2]) && Happen(a, run[2]) == b;
    QueueOfOne(b);
    DeathLosesIff(b, 1, map[0 := UploadedAs("f")], 1, false, 0);
    var c := DiedInTransfer(b, 1, map[0 := UploadedAs("f")], 1, false);
    assert Happen(b, run[3]) == c;
    hide Possible, Happen, Submitted, DiedInTransfer, Lost, Eligible;
    NextEvent(EMPTY_STORE, run, 0);
    NextEvent(DRAFTED, run, 1);
    NextEvent(a, run, 2);
    NextEvent(b, run, 3);
  }
}
