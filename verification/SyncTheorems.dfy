/**
  Reverse sync: when it marks a policy issued, and when repeating it changes nothing.
 */
module SyncTheorems {
  import opened Options
  import opened PipelineTables
  import opened PipelineInvariants

  /** An application is marked issued only with a policy row of its own, backed by a sent policy file. */
  lemma IssuedIsBacked(run: seq<TimedStep>, app: int)
    requires EnabledRun(EMPTY_STORE, run)
    requires var s := Run(EMPTY_STORE, run); app in s.applications && s.applications[app].status == PolicyIssued
    ensures var s := Run(EMPTY_STORE, run);
            exists p | 0 <= p < |s.policies| ::
              && s.policies[p].applicationId == app
              && s.policies[p].dealId == s.applications[app].dealId && s.policies[p].dealId.Some?
              && s.policies[p].documentId < |s.documents|
              && s.documents[s.policies[p].documentId].applicationId == app
              && s.documents[s.policies[p].documentId].status == Sent
              && s.documents[s.policies[p].documentId].isPolicyFile
  {
    EmptyStoreInv();
    RunKeepsInv(EMPTY_STORE, run);
    var s := Run(EMPTY_STORE, run);
    hide StorageGood, HistoryGood, RemoteGood, Run;
    var p :| 0 <= p < |s.policies| && s.policies[p].applicationId == app;
    assert PolicyGood(s.policies[p], s.applications, s.documents);
  }

  /** There is never a second policy row for an application and deal. */
  lemma OnePolicyPerDeal(run: seq<TimedStep>, p: nat, q: nat)
    requires EnabledRun(EMPTY_STORE, run)
    requires var s := Run(EMPTY_STORE, run);
             p < |s.policies| && q < |s.policies| && s.policies[p].applicationId == s.policies[q].applicationId
    ensures p == q
  {
    EmptyStoreInv();
    RunKeepsInv(EMPTY_STORE, run);
    hide StorageGood, HistoryGood, RemoteGood, Run;
  }

  // ---------------------------------------------------------------------
  // Repeating a sync
  // ---------------------------------------------------------------------

  function TimelessRow(row: Application): Application {
    row.(lastSyncedAt := None)
  }

  function TimelessPolicy(row: Policy): Policy {
    row.(lastSyncedAt := 0)
  }

  /** Everything but the time of the last sync. */
  function Timeless(s: Store): Store {
    s.(applications := map a | a in s.applications :: TimelessRow(s.applications[a]),
       policies := seq(|s.policies|, p requires 0 <= p < |s.policies| => TimelessPolicy(s.policies[p])))
  }

  lemma FoundAgain(docs: seq<Document>, app: int, fileId: string, id: nat)
    requires FileIdsUnique(docs) && id < |docs| && docs[id].applicationId == app && docs[id].fileId == Some(fileId)
    ensures FindDocument(docs, app, fileId) == Some(id)
  {
    FindDocumentSpec(docs, app, fileId);
  }

  lemma PolicyFoundAgain(policies: seq<Policy>, app: int, deal: Option<int>, p: nat)
    requires forall i, j | 0 <= i < j < |policies| :: policies[i].applicationId != policies[j].applicationId
    requires p < |policies| && policies[p].applicationId == app && policies[p].dealId == deal
    ensures FindPolicy(policies, app, deal) == Some(p)
  {
    FindPolicySpec(policies, app, deal);
  }

  /** The second upsert of the same policy finds what the first one left. */
  lemma UpsertAgain(s: Store, app: int, fileId: string, now: int, later: int)
    requires Inv(s) && app in s.applications
    ensures var t := UpsertDocument(s, app, fileId, now);
            var f := FindDocument(s.documents, app, fileId);
            && UpsertDocument(t, app, fileId, later) == t
            && FindDocument(t.documents, app, fileId) == Some(if f.Some? then f.value else |s.documents|)
            && StorageGood(t.applications, t.documents, t.disk) && t.policies == s.policies
                  && t.applications == s.applications
  {
    UpsertDocumentKeeps(s, app, fileId, now);
    FindDocumentSpec(s.documents, app, fileId);
    var t := UpsertDocument(s, app, fileId, now);
    var f := FindDocument(s.documents, app, fileId);
    var id := if f.Some? then f.value else |s.documents|;
    FoundAgain(t.documents, app, fileId, id);
    assert t.documents[id].storageKey.None?;
    hide Inv, StorageGood, PoliciesGood, FindDocument;
    assert PolicyRow(t.documents[id], s.applications[app].dealId, later) == t.documents[id];
    assert t.documents[id := t.documents[id]] == t.documents;
    assert t.disk - FileOf(t.documents[id]) == t.disk;
  }

  lemma SyncPolicyAgain(s: Store, app: int, data: PolicyData, now: int, later: int)
    requires Inv(s) && app in s.applications && s.applications[app].dealId.Some?
    ensures var t := SyncPolicy(s, app, data, now);
            && app in t.applications
            && (var u := SyncPolicy(t, app, data, later);
                u.documents == t.documents && u.disk == t.disk && Timeless(u).policies == Timeless(t).policies)
  {
    var d := UpsertDocument(s, app, data.fileId, now);
    var t := SyncPolicy(s, app, data, now);
    UpsertAgain(s, app, data.fileId, now, later);
    SyncPolicyKeeps(s, app, data, now);
    assert PoliciesGood(t.applications, t.documents, t.policies);
    var f := FindDocument(s.documents, app, data.fileId);
    var id := if f.Some? then f.value else |s.documents|;
    assert t == UpsertPolicy(d, app, data, id, now);
    UpsertPolicyRest(d, app, data, id, now);
    UpsertIgnoresPolicies(d, t, app, data.fileId, later);
    hide Inv, StorageGood, PoliciesGood, UpsertDocument, UpsertPolicy, FindDocument, FindPolicy, SyncPolicy;
    var e := UpsertDocument(t, app, data.fileId, later);
    UpsertPolicyAgain(d, e, app, data, id, now, later);
    SamePolicies(UpsertPolicy(e, app, data, id, later), t);
    SecondSync(t, app, data, id, later);
    hide Timeless;
  }

  lemma SamePolicies(u: Store, t: Store)
    requires |u.policies| == |t.policies|
    requires forall p | 0 <= p < |t.policies| :: TimelessPolicy(u.policies[p]) == TimelessPolicy(t.policies[p])
    ensures Timeless(u).policies == Timeless(t).policies
  {
    hide TimelessPolicy, TimelessRow;
  }

  lemma SecondSync(t: Store, app: int, data: PolicyData, id: nat, later: int)
    requires app in t.applications && FindDocument(t.documents, app, data.fileId) == Some(id)
    ensures SyncPolicy(t, app, data, later)
        == UpsertPolicy(UpsertDocument(t, app, data.fileId, later), app, data, id, later)
  {
    hide UpsertPolicy, UpsertDocument, FindDocument;
  }

  lemma UpsertPolicyRest(s: Store, app: int, data: PolicyData, id: nat, now: int)
    requires app in s.applications
    ensures var t := UpsertPolicy(s, app, data, id, now);
            t.applications == s.applications && t.documents == s.documents && t.disk == s.disk
  {
  }

  lemma UpsertPolicyAgain(d: Store, e: Store, app: int, data: PolicyData, id: nat, now: int, later: int)
    requires app in d.applications && e.applications == d.applications
    requires var t := UpsertPolicy(d, app, data, id, now);
             e.policies == t.policies && PoliciesGood(t.applications, t.documents, t.policies)
    ensures var u := UpsertPolicy(e, app, data, id, later);
            && u.documents == e.documents && u.disk == e.disk && u.applications == e.applications
            && |u.policies| == |e.policies|
            && forall p | 0 <= p < |e.policies| :: TimelessPolicy(u.policies[p]) == TimelessPolicy(e.policies[p])
  {
    FindPolicySpec(d.policies, app, d.applications[app].dealId);
    var f := FindPolicy(d.policies, app, d.applications[app].dealId);
    var p := if f.Some? then f.value else |d.policies|;
    PolicyFoundAgain(e.policies, app, d.applications[app].dealId, p);
    hide FindPolicy;
  }

  lemma UpsertIgnoresPolicies(d: Store, t: Store, app: int, fileId: string, later: int)
    requires app in d.applications && d.applications == t.applications && d.documents == t.documents && d.disk == t.disk
    ensures var u, v := UpsertDocument(d, app, fileId, later), UpsertDocument(t, app, fileId, later);
            u.documents == v.documents && u.disk == v.disk && v.applications == t.applications
                && v.policies == t.policies
  {
  }

  /** Syncing once settles what the next sync of the same deal will decide, except in one case. */
  lemma VerdictAgain(row: Application, deal: Deal, stages: StageMap, now: int)
    ensures var row' := SyncedRow(row, deal, stages, now);
            && SyncCategory(row', deal) == SyncCategory(row, deal)
            && PolicyPayload(row', deal.policy) == PolicyPayload(row, deal.policy)
            && (Mapped(row', deal, stages) <==> Mapped(row, deal, stages))
            && (SyncVerdict(row', deal, stages) == SyncVerdict(row, deal, stages)
                <==> !LosesWarning(row, deal, stages))
            && (!LosesWarning(row, deal, stages) ==>
                  (MappedStatus(row', deal, stages) == PolicyIssued && PolicyPayload(row, deal.policy).Some?
                   <==> MappedStatus(row, deal, stages) == PolicyIssued && PolicyPayload(row, deal.policy).Some?))
  {
  }

  /** An issued application whose deal has no mapped stage and no longer has complete policy data. */
  predicate LosesWarning(row: Application, deal: Deal, stages: StageMap) {
    !Mapped(row, deal, stages) && row.status == PolicyIssued && PolicyPayload(row, deal.policy).None?
  }

  /**
    Syncing the same deal twice changes nothing but the time of the last sync, always with a mapped
    stage; without one, exactly unless the first sync took the issued status back.
   */
  lemma SyncTwiceIff(s: Store, app: int, deal: Deal, stages: StageMap, now: int, later: int)
    requires Inv(s) && app in s.applications && s.applications[app].dealId.Some? && Submitting !in stages.Values
    ensures var t := Sync(s, app, DealResult(deal), stages, now);
            Timeless(Sync(t, app, DealResult(deal), stages, later)) == Timeless(t)
            <==> !LosesWarning(s.applications[app], deal, stages)
  {
    var row := s.applications[app];
    var t := Sync(s, app, DealResult(deal), stages, now);
    var u := Sync(t, app, DealResult(deal), stages, later);
    DealIdPresent(s, app);
    if LosesWarning(row, deal, stages) {
      WarningLost(row, deal, stages, now, later);
      hide Inv, SyncPolicy, LosesWarning, SyncedRow, PolicyPayload, MappedStatus;
      assert Timeless(u).applications[app].syncWarning != Timeless(t).applications[app].syncWarning;
    } else {
      SettledAgain(row, deal, stages, now, later);
      assert t == SyncDeal(s, app, deal, stages, now) && u == SyncDeal(t, app, deal, stages, later);
      hide Inv, Sync;
      RestAgain(s, app, deal, stages, now, later);
      hide SyncDeal, SyncedRow, LosesWarning;
      SameButForTime(t, u, app);
    }
  }

  lemma SameButForTime(t: Store, u: Store, app: int)
    requires app in t.applications && app in u.applications
    requires u.applications == t.applications[app := u.applications[app]]
    requires TimelessRow(u.applications[app]) == TimelessRow(t.applications[app])
    requires Timeless(u).policies == Timeless(t).policies && u.documents == t.documents && u.disk == t.disk
    requires u.attempts == t.attempts && u.deals == t.deals
    ensures Timeless(u) == Timeless(t)
  {
    assert Timeless(u).applications == Timeless(t).applications;
  }

  lemma SettledAgain(row: Application, deal: Deal, stages: StageMap, now: int, later: int)
    requires !LosesWarning(row, deal, stages)
    ensures TimelessRow(SyncedRow(SyncedRow(row, deal, stages, now), deal, stages, later))
            == TimelessRow(SyncedRow(row, deal, stages, now))
  {
    VerdictAgain(row, deal, stages, now);
    hide SyncVerdict, SyncCategory, LosesWarning;
  }

  /** Documents, files and policies after the second sync. */
  lemma RestAgain(s: Store, app: int, deal: Deal, stages: StageMap, now: int, later: int)
    requires Inv(s) && app in s.applications && s.applications[app].dealId.Some?
    requires !LosesWarning(s.applications[app], deal, stages)
    ensures var t := SyncDeal(s, app, deal, stages, now);
            var u := SyncDeal(t, app, deal, stages, later);
            && t.applications == s.applications[app := SyncedRow(s.applications[app], deal, stages, now)]
            && u.applications == t.applications[app := SyncedRow(t.applications[app], deal, stages, later)]
            && Timeless(u).policies == Timeless(t).policies && u.documents == t.documents && u.disk == t.disk
            && u.attempts == t.attempts && u.deals == t.deals
  {
    var row := s.applications[app];
    var payload := PolicyPayload(row, deal.policy);
    VerdictAgain(row, deal, stages, now);
    if MappedStatus(row, deal, stages) == PolicyIssued && payload.Some? {
      var p := SyncPolicy(s, app, payload.value, now);
      SyncPolicyAgain(s, app, payload.value, now, later);
      SyncPolicyRest(s, app, payload.value, now);
      SyncPolicyRest(p, app, payload.value, later);
      SyncPolicyReadsDeal(p, app, SyncDeal(s, app, deal, stages, now).applications, payload.value, later);
    }
    hide Inv, SyncPolicy, SyncVerdict, SyncCategory, MappedStatus, PolicyPayload;
  }

  lemma SyncPolicyRest(s: Store, app: int, data: PolicyData, now: int)
    requires app in s.applications
    ensures var t := SyncPolicy(s, app, data, now);
            t.applications == s.applications && t.attempts == s.attempts && t.deals == s.deals
  {
  }

  lemma SyncPolicyReadsDeal(s: Store, app: int, apps: Applications, data: PolicyData, now: int)
    requires app in s.applications && app in apps && apps[app].dealId == s.applications[app].dealId
    ensures SyncPolicy(s.(applications := apps), app, data, now) == SyncPolicy(s, app, data, now).(applications := apps)
  {
  }

  lemma WarningLost(row: Application, deal: Deal, stages: StageMap, now: int, later: int)
    requires LosesWarning(row, deal, stages)
    ensures SyncedRow(row, deal, stages, now).syncWarning == Some(INCOMPLETE)
    ensures SyncedRow(SyncedRow(row, deal, stages, now), deal, stages, later).syncWarning == None
  {
  }

  // ---------------------------------------------------------------------
  // A sync that overlaps other transactions
  // ---------------------------------------------------------------------

  /** What a sync writes into an application, read off the row it started from. */
  datatype SyncValues = SyncValues(
    status: PortalStatus, category: int, stage: Option<string>, warning: Option<string>, policy: Option<PolicyData>)

  function ValuesFrom(row: Application, deal: Deal, stages: StageMap): SyncValues {
    var verdict := SyncVerdict(row, deal, stages);
    SyncValues(verdict.0, SyncCategory(row, deal), if deal.stageId != "" then Some(deal.stageId) else row.stageId,
               verdict.1,
               if MappedStatus(row, deal, stages) == PolicyIssued then PolicyPayload(row, deal.policy) else None)
  }

  /** The row is read in s; the remote is asked; everything is written to t. */
  function LateSync(s: Store, t: Store, app: int, deal: Deal, stages: StageMap, now: int): Store
    requires app in s.applications && app in t.applications
  {
    var v := ValuesFrom(s.applications[app], deal, stages);
    var u := if v.policy.Some? then SyncPolicy(t, app, v.policy.value, now) else t;
    u.(applications := t.applications[app := t.applications[app].(
         status := v.status, categoryId := Some(v.category), stageId := v.stage,
         syncStatus := Synced, syncError := None, syncWarning := v.warning, lastSyncedAt := Some(now))])
  }

  lemma LateSyncPrompt(t: Store, app: int, deal: Deal, stages: StageMap, now: int)
    requires app in t.applications && HasDealId(t.applications[app])
    ensures LateSync(t, t, app, deal, stages, now) == Sync(t, app, DealResult(deal), stages, now)
  {
    hide SyncPolicy, PolicyPayload, SyncCategory, Mapped;
  }

  /**
    When the overlap does not matter: the status, category, stage, warning and policy written are
    those a sync would write that read the row at the end.
   */
  lemma LateSyncAgrees(s: Store, t: Store, app: int, deal: Deal, stages: StageMap, now: int)
    requires app in s.applications && app in t.applications && HasDealId(t.applications[app])
    requires ValuesFrom(s.applications[app], deal, stages) == ValuesFrom(t.applications[app], deal, stages)
    ensures LateSync(s, t, app, deal, stages, now) == Sync(t, app, DealResult(deal), stages, now)
  {
    LateSyncPrompt(t, app, deal, stages, now);
    hide ValuesFrom, SyncPolicy, Sync;
  }

  /** If it writes other values to the row than such a sync, the row ends up different. */
  lemma LateSyncDiffers(s: Store, t: Store, app: int, deal: Deal, stages: StageMap, now: int)
    requires app in s.applications && app in t.applications && HasDealId(t.applications[app])
    ensures var v, w := ValuesFrom(s.applications[app], deal, stages), ValuesFrom(t.applications[app], deal, stages);
            LateSync(s, t, app, deal, stages, now).applications
            == Sync(t, app, DealResult(deal), stages, now).applications
            <==> v.(policy := w.policy) == w
  {
    LateSyncPrompt(t, app, deal, stages, now);
    hide ValuesFrom, SyncPolicy, Sync;
    var a := LateSync(s, t, app, deal, stages, now).applications;
    var b := LateSync(t, t, app, deal, stages, now).applications;
    assert a == b <==> a[app] == b[app] by {
      assert a == t.applications[app := a[app]] && b == t.applications[app := b[app]];
    }
  }

  /** A deal that names its category and a mapped stage leaves nothing to what the row was. */
  lemma LateSyncOfMappedDeal(s: Store, t: Store, app: int, deal: Deal, stages: StageMap, now: int)
    requires app in s.applications && app in t.applications && HasDealId(t.applications[app])
    requires s.applications[app].productType == t.applications[app].productType
    requires deal.stageId != "" && deal.categoryId.Some? && (deal.categoryId.value, deal.stageId) in stages
    ensures LateSync(s, t, app, deal, stages, now) == Sync(t, app, DealResult(deal), stages, now)
  {
    hide Sync, SyncPolicy;
    SamePayload(s.applications[app], t.applications[app], deal.policy);
    hide PolicyPayload;
    LateSyncAgrees(s, t, app, deal, stages, now);
  }

  lemma SamePayload(a: Application, b: Application, f: PolicyFields)
    requires a.productType == b.productType
    ensures PolicyPayload(a, f) == PolicyPayload(b, f)
  {
  }

  /** Even an overlapping sync keeps every invariant of the pipeline. */
  lemma LateSyncKeepsInv(s: Store, t: Store, app: int, deal: Deal, stages: StageMap, now: int)
    requires Inv(s) && Inv(t) && Submitting !in stages.Values
    requires app in s.applications && app in t.applications && t.applications[app].dealId.Some?
    ensures Inv(LateSync(s, t, app, deal, stages, now))
  {
    var v := ValuesFrom(s.applications[app], deal, stages);
    assert s.applications[app].status != Submitting;
    hide Inv, SyncPolicy, PolicyPayload;
    assert v.status != Submitting && (v.status == PolicyIssued ==> v.policy.Some?);
    var row := t.applications[app].(
      status := v.status, categoryId := Some(v.category), stageId := v.stage,
      syncStatus := Synced, syncError := None, syncWarning := v.warning, lastSyncedAt := Some(now));
    hide ValuesFrom;
    if v.policy.Some? {
      SyncPolicyKeeps(t, app, v.policy.value, now);
      RowKeepsInv(SyncPolicy(t, app, v.policy.value, now), app, row);
    } else {
      RowKeepsInv(t, app, row);
    }
  }
}
