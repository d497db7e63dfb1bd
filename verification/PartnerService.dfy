/**
  The handlers as they run against the two tables: each builds its update value by value, and is
  proved to have the effect PartnerClients states for it.
 */
module PartnerService {
  import opened Options
  import opened Sets
  import opened PartnerClients
  import opened PartnerTheorems

  datatype AdminOutcome = AdminRefused(error: AdminError) | AdminUpdated

  class PartnerDatabase {
    var requests: seq<Request>
    var links: seq<Link>

    function View(): Portal
      reads this
    {
      Portal(requests, links)
    }

    constructor ()
      ensures View() == EMPTY_PORTAL
    {
      requests, links := [], [];
    }

    // -------------------------------------------------------------------
    // The partner's side
    // -------------------------------------------------------------------

    /** The row is inserted first and completed with what Bitrix answered. */
    method CreatePartnerClient(partner: int, data: string, reply: CreateReply, now: int) returns (id: nat)
      modifies this`requests
      ensures id == |old(requests)|
      ensures View() == old(View()).(requests := old(requests) + [NewRequest(partner, data, reply, now)])
    {
      id := |requests|;
      requests := requests + [Request(partner, data, Pending, None, Pending, SyncPending, None, None,
                                      None, None, None, None, false, None, None, None, None, None, None)];
      SyncBitrixCheckObject(id, reply, now);
    }

    method SyncBitrixCheckObject(id: nat, reply: CreateReply, now: int)
      requires id < |requests|
      modifies this`requests
      ensures requests == old(requests)[id := match reply
        case CreateFailed(code) => old(requests)[id].(checkStatus := Pending, sync := SyncFailed,
            syncError := Some(code))
        case CompanyCreated(company) =>
          old(requests)[id].(checkEntity := Some(company), checkStatus := Pending, sync := Synced, syncError := None,
                             syncedAt := Some(now))]
    {
      match reply
      case CreateFailed(code) =>
        requests := requests[id := requests[id].(checkStatus := Pending, sync := SyncFailed, syncError := Some(code))];
      case CompanyCreated(company) =>
        requests := requests[id := requests[id].(
          checkEntity := Some(company), checkStatus := Pending, sync := Synced, syncError := None,
              syncedAt := Some(now))];
    }

    /** Only the request's own partner may change it, and only while it is still open to change. */
    method UpdatePartnerClient(partner: int, id: nat, data: string) returns (edited: bool)
      modifies this`requests
      ensures edited <==> MayEdit(old(View()), partner, id)
      ensures View() == Edit(old(View()), partner, id, data)
    {
      if id >= |requests| || requests[id].partner != partner { return false; }
      if !requests[id].status.Editable() { return false; }
      var newStatus := if requests[id].status == ClarificationRequired then Pending else requests[id].status;
      requests := requests[id := requests[id].(data := data, status := newStatus, sync := SyncRetryRequired)];
      edited := true;
    }

    method EnsurePartnerClientLink(partner: int, company: int, createdBy: Option<int>, now: int)
      requires LinksUnique(links)
      modifies this`links
      ensures links == EnsureLink(old(links), partner, company, createdBy, now)
    {
      if company <= 0 { return; }
      var existing := set k: nat | k < |links| && links[k].partner == partner && links[k].company == company;
      FindLinkSpec(links, partner, company);
      assert forall k: nat | k < |links| && links[k].partner == partner && links[k].company == company :: k in existing;
      if |existing| > 0 {
        var k := Pick(existing);
        SameLink(links, partner, company, k);
        hide FindLink, LinksUnique;
        links := links[k := links[k].(
          status := LinkActive, confirmedBy := createdBy, confirmedAt := Some(now), revokedBy := None,
              revokedAt := None)];
      } else {
        links := links + [Link(partner, company, LinkActive, createdBy, createdBy, Some(now), None, None)];
      }
    }

    method RequireConfirmedPartnerClientRequest(partner: int, id: nat, company: int, now: int)
      returns (outcome: UseOutcome)
      requires Inv(View())
      modifies this`links
      ensures outcome == UseVerdict(old(View()), partner, id, company)
      ensures View() == Use(old(View()), partner, id, company, now)
    {
      assert LinksUnique(links);
      hide Inv, EnsureLink, FinalCompany, LinksUnique;
      if id >= |requests| || requests[id].partner != partner { return UseNotFound; }
      var row := requests[id];
      var final := FinalCompany(row);
      var allowedStatus := row.status == Confirmed && row.checkStatus == Confirmed;
      if !allowedStatus || final != Some(company) {
        if row.status == Rejected { return UseRejected; }
        if row.status == DuplicateFound && !Truthy(row.linked) { return UseDuplicateUnresolved; }
        if row.status in {Pending, ClarificationRequired, Rejected, DuplicateFound, Draft} { return UseNotConfirmed; }
        return UseCompanyMismatch;
      }
      EnsurePartnerClientLink(partner, final.value, Some(partner), now);
      outcome := UseAllowed;
    }

    // -------------------------------------------------------------------
    // Decisions
    // -------------------------------------------------------------------

    /** The columns a delivery changes, in the order the handler fills them in. */
    method DeliveredRow(
      row: Request, company: int, d: Decision, linked: Option<int>, reason: Option<string>, user: Option<int>, now: int)
      returns (values: Request)
      requires DeliveryOk(company, d, linked)
      ensures values == WebhookRow(row, company, d, linked, reason, user, now)
    {
      var final := if d == LinkedToExisting then linked else Some(company);
      var stored := if d == LinkedToExisting then Confirmed else d.status;
      values := row.(
        status := stored, checkStatus := stored, sync := Synced, syncError := None, syncedAt := Some(now),
        decision := Some(d), decisionReason := if d == Decided(Rejected) then reason else None,
        decidedAt := if row.decidedAt.Some? then row.decidedAt else Some(now), decidedBy := user);
      if row.original.None? {
        values := values.(original := Some(company));
      }
      if stored == Confirmed {
        values := values.(confirmedCompany := final, confirmedBitrix := final);
      }
      if d == LinkedToExisting {
        values := values.(linkedToExisting := true, linked := linked);
      } else if d != Decided(Rejected) {
        values := values.(linkedToExisting := false, linked := None);
      }
      if d == Decided(Rejected) {
        values := values.(rejectionReason := reason);
      }
    }

    /** A delivery from Bitrix: its parameters are checked, the request found by its check object, and decided. */
    method UpdateCheckStatusFromBitrix(
      companyValue: Option<int>, raw: Option<Decision>, linked: Option<int>,
      reason: Option<string>, user: Option<int>, now: int)
      returns (outcome: WebhookOutcome)
      requires Inv(View()) && raw != Some(Decided(Draft)) && (linked.Some? ==> 0 < linked.value)
      modifies this
      ensures var (company, d, error) := ReadDelivery(companyValue, raw, linked);
              if d.None? then outcome == Refused(error) && View() == old(View())
              else
                && DeliveryOk(company, d.value, linked)
                && View() == Webhook(old(View()), company, d.value, linked, reason, user, now)
                && outcome == var found := FindRequest(old(requests), company);
                              if found.None? then Refused(RequestNotFound)
                              else Updated(found.value, d.value, Repeated(old(View()), company, d.value, linked))
      ensures Inv(View())
    {
      if companyValue.None? || companyValue.value <= 0 { return Refused(InvalidCompany); }
      var company, decision := companyValue.value, raw;
      if raw == Some(Decided(DuplicateFound)) && linked.Some? { decision := Some(LinkedToExisting); }
      if decision.None? { return Refused(StatusInvalid); }
      if decision.value == LinkedToExisting && linked.None? { return Refused(LinkedCompanyRequired); }
      assert DeliveryOk(company, decision.value, linked);
      hide Inv, Webhook, WebhookRow, DeliveryOk, IsRepeat;
      outcome := Decide(company, decision.value, linked, reason, user, now);
    }

    method Decide(company: int, d: Decision, linked: Option<int>, reason: Option<string>, user: Option<int>, now: int)
      returns (outcome: WebhookOutcome)
      requires Inv(View()) && DeliveryOk(company, d, linked)
      modifies this
      ensures View() == Webhook(old(View()), company, d, linked, reason, user, now)
      ensures outcome == var found := FindRequest(old(requests), company);
                         if found.None? then Refused(RequestNotFound)
                         else Updated(found.value, d, Repeated(old(View()), company, d, linked))
      ensures Inv(View())
    {
      WebhookKeepsInv(View(), company, d, linked, reason, user, now);
      FindRequestSpec(requests, company);
      var rows := set i: nat | i < |requests| && requests[i].checkEntity == Some(company);
      if |rows| == 0 {
        assert forall i | 0 <= i < |requests| && requests[i].checkEntity == Some(company) :: i in rows;
        return Refused(RequestNotFound);
      }
      var id := Pick(rows);
      FoundAgain(View(), requests, id, company);
      assert LinksUnique(links);
      hide Inv, WebhookRow, FindRequest, EnsureLink, IsRepeat, LinksUnique;
      var row := requests[id];
      var repeated := IsRepeat(row, company, d, linked);
      var values := DeliveredRow(row, company, d, linked, reason, user, now);
      requests := requests[id := values];
      if d.Stored() == Confirmed {
        EnsurePartnerClientLink(row.partner, if d == LinkedToExisting then linked.value else company, None, now);
      }
      outcome := Updated(id, d, repeated);
    }

    method UpdatePartnerClientStatus(
      id: nat, d: Decision, confirmed: Option<int>, linked: Option<int>,
      rejection: Option<string>, clarification: Option<string>, admin: int, now: int)
      returns (outcome: AdminOutcome)
      requires Inv(View())
      modifies this
      ensures var refusal := AdminRefusal(old(View()), id, d, confirmed, linked);
              outcome == if refusal.Some? then AdminRefused(refusal.value) else AdminUpdated
      ensures View() == AdminDecision(old(View()), id, d, confirmed, linked, rejection, clarification, admin, now)
      ensures Inv(View())
    {
      AdminKeepsInv(View(), id, d, confirmed, linked, rejection, clarification, admin, now);
      assert LinksUnique(links);
      hide Inv, EnsureLink, LinksUnique;
      if d == Decided(Draft) { return AdminRefused(AdminStatusInvalid); }
      if id >= |requests| { return AdminRefused(AdminRequestNotFound); }
      var confirmedId, linkedId := Normalized(confirmed), Normalized(linked);
      if d == LinkedToExisting && linkedId.None? { return AdminRefused(AdminLinkedCompanyRequired); }
      var company := if linkedId.Some? then linkedId else confirmedId;
      var stored := if d == LinkedToExisting then Confirmed else d.status;
      if stored == Confirmed && company.None? { return AdminRefused(AdminCompanyNotFound); }
      var row := requests[id];
      var values := row.(
        status := stored, checkStatus := stored, decision := Some(d),
        decisionReason := if d == Decided(Rejected) then rejection else None, decidedAt := Some(now),
        rejectionReason := rejection, clarification := clarification,
        linkedToExisting := d == LinkedToExisting, linked := linkedId);
      if company.Some? {
        values := values.(confirmedBitrix := company, confirmedCompany := company);
      }
      if row.original.None? && Truthy(row.checkEntity) {
        values := values.(original := row.checkEntity);
      }
      requests := requests[id := values];
      if stored == Confirmed {
        EnsurePartnerClientLink(row.partner, company.value, Some(admin), now);
      }
      outcome := AdminUpdated;
    }
  }

  lemma SameLink(links: seq<Link>, partner: int, company: int, k: nat)
    requires LinksUnique(links) && k < |links| && links[k].partner == partner && links[k].company == company
    ensures FindLink(links, partner, company) == Some(k)
  {
    FindLinkSpec(links, partner, company);
    hide FindLink;
    assert Linked(links, partner, company);
    var f := FindLink(links, partner, company).value;
    assert SamePair(links[f], links[k]) && SamePair(links[k], links[f]);
  }
}
