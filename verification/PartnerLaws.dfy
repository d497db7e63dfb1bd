/**
  What the operations on partner clients leave in the tables, column by column, and which of them are
  refused.
 */
module PartnerLaws {
  import opened Options
  import opened PartnerClients
  import opened PartnerTheorems

  // ---------------------------------------------------------------------
  // Reading a row
  // ---------------------------------------------------------------------

  predicate Given(id: Option<int>) { id.Some? && id != Some(0) }

  /** The company of a request: the linked one, else the one Bitrix confirmed, else the one confirmed here. */
  lemma FinalCompanyIs(row: Request)
    ensures FinalCompany(row) == if Given(row.linked) then row.linked
                                 else if Given(row.confirmedBitrix) then row.confirmedBitrix else row.confirmedCompany
    ensures PublicStatus(row) == LinkedToExisting <==> row.linkedToExisting && row.status == Confirmed
    ensures PublicStatus(row) != LinkedToExisting ==> PublicStatus(row) == Decided(row.status)
  {
  }

  /** What a partner is told when starting an application for a client. */
  lemma UseVerdicts(s: Portal, partner: int, i: nat, company: int)
    ensures var mine := i < |s.requests| && s.requests[i].partner == partner;
            var verdict := UseVerdict(s, partner, i, company);
            && (verdict == UseNotFound <==> !mine)
            && (mine ==>
                  var row := s.requests[i];
                  var ok := row.status == Confirmed && row.checkStatus == Confirmed
                            && FinalCompany(row) == Some(company);
                  && (verdict == UseAllowed <==> ok)
                  && (verdict == UseRejected <==> row.status == Rejected)
                  && (verdict == UseDuplicateUnresolved <==> row.status == DuplicateFound && !Given(row.linked))
                  && (verdict == UseNotConfirmed <==>
                        row.status in {Draft, Pending, ClarificationRequired}
                        || (row.status == DuplicateFound && Given(row.linked)))
                  && (verdict == UseCompanyMismatch <==> row.status == Confirmed && !ok))
  {
    hide FinalCompany;
  }

  // ---------------------------------------------------------------------
  // Links
  // ---------------------------------------------------------------------

  /** The pair's one row is open, confirmed by this user now, and not revoked; a new row says who created it. */
  ghost predicate LinkOpened(
    links: seq<Link>, links': seq<Link>, partner: int, company: int, who: Option<int>, now: int, k: nat)
  {
    && k < |links'| && |links| <= |links'| <= |links| + 1
    && links'[k] == Link(partner, company, LinkActive, if k < |links| then links[k].createdBy else who, who, Some(now),
                         None, None)
    && (k < |links| ==> |links'| == |links| && links[k].partner == partner && links[k].company == company)
    && (k >= |links| ==> forall j | 0 <= j < |links| :: links[j].partner != partner || links[j].company != company)
    && forall j | 0 <= j < |links| && j != k :: links'[j] == links[j]
  }

  lemma EnsureLinkOpens(links: seq<Link>, partner: int, company: int, who: Option<int>, now: int) returns (k: nat)
    ensures company > 0 ==>
              LinkOpened(links, EnsureLink(links, partner, company, who, now), partner, company, who, now, k)
    ensures company <= 0 ==> EnsureLink(links, partner, company, who, now) == links
  {
    FindLinkSpec(links, partner, company);
    var f := FindLink(links, partner, company);
    k := if f.Some? then f.value else |links|;
    hide FindLink;
  }

  /** Using a request opens the link in the partner's own name, and only when the use is allowed. */
  lemma UseLeaves(s: Portal, partner: int, i: nat, company: int, now: int)
    ensures var t := Use(s, partner, i, company, now);
            && t.requests == s.requests
            && (UseVerdict(s, partner, i, company) == UseAllowed && company > 0 ==>
                  exists k: nat :: LinkOpened(s.links, t.links, partner, company, Some(partner), now, k))
            && (UseVerdict(s, partner, i, company) != UseAllowed || company <= 0 ==> t == s)
  {
    var k := EnsureLinkOpens(s.links, partner, company, Some(partner), now);
    hide EnsureLink, UseVerdict, LinkOpened;
  }

  lemma RevokeLeaves(s: Portal, k: nat, admin: int, now: int)
    ensures Revoke(s, k, admin, now) ==
            if k < |s.links| && s.links[k].status in {LinkPending, LinkActive, LinkAnotherPartner, LinkRejected}
            then s.(links := s.links[k := s.links[k].(
                      status := LinkRevoked, revokedBy := Some(admin), revokedAt := Some(now))])
            else s
  {
  }

  lemma AddLinkLeaves(s: Portal, link: Link)
    ensures AddLink(s, link) ==
            if exists j | 0 <= j < |s.links| :: s.links[j].partner == link.partner && s.links[j].company == link.company
            then s else s.(links := s.links + [link])
  {
    FindLinkSpec(s.links, link.partner, link.company);
    if FindLink(s.links, link.partner, link.company).Some? {
      var f := FindLink(s.links, link.partner, link.company).value;
      assert s.links[f].partner == link.partner && s.links[f].company == link.company;
    }
    hide FindLink;
  }

  // ---------------------------------------------------------------------
  // The partner's requests
  // ---------------------------------------------------------------------

  /** A new request is pending; it remembers the check object Bitrix made, or why it made none. */
  lemma CreateLeaves(partner: int, data: string, code: string, company: int, now: int)
    ensures var row := NewRequest(partner, data, CompanyCreated(company), now);
            && row == Request(partner, data, Pending, Some(company), Pending, Synced, None, Some(now), None, None, None,
                              None, false, None, None, None, None, None, None)
            && NewRequest(partner, data, CreateFailed(code), now)
               == row.(checkEntity := None, sync := SyncFailed, syncError := Some(code), syncedAt := None)
  {
  }

  lemma EditLeaves(s: Portal, partner: int, i: nat, data: string)
    ensures Edit(s, partner, i, data) ==
            if i < |s.requests| && s.requests[i].partner == partner
               && s.requests[i].status in {Pending, ClarificationRequired}
            then s.(requests := s.requests[i := s.requests[i].(
                      data := data, status := Pending, sync := SyncRetryRequired)])
            else s
  {
  }

  // ---------------------------------------------------------------------
  // Decisions
  // ---------------------------------------------------------------------

  /** Deliveries are refused for their parameters in this order; a duplicate that names a company is a link. */
  lemma DeliveryVerdicts(company: Option<int>, raw: Option<Decision>, linked: Option<int>)
    ensures var (c, d, error) := ReadDelivery(company, raw, linked);
            && (d.None? && error == InvalidCompany <==> company == None || company.value <= 0)
            && (d.None? && error == StatusInvalid <==> company.Some? && company.value > 0 && raw == None)
            && (d.None? && error == LinkedCompanyRequired <==>
                  company.Some? && company.value > 0 && raw == Some(LinkedToExisting) && linked == None)
            && (d.None? ==> error != RequestNotFound)
            && (d.Some? ==>
                  company == Some(c) && raw.Some?
                  && d == if raw == Some(Decided(DuplicateFound)) && linked.Some? then Some(LinkedToExisting) else raw)
  {
  }

  /** The columns every delivery fills in the same way; the first decision's time is kept. */
  predicate Stamped(
    row: Request, row': Request, company: int, d: Decision, reason: Option<string>, user: Option<int>, now: int)
  {
    && row'.sync == Synced && row'.syncError == None && row'.syncedAt == Some(now)
    && row'.decision == Some(d) && row'.decisionReason == reason && row'.decidedBy == user
    && row'.decidedAt == (if row.decidedAt == None then Some(now) else row.decidedAt)
    && row'.original == (if row.original == None then Some(company) else row.original)
    && row'.partner == row.partner && row'.data == row.data && row'.checkEntity == row.checkEntity
    && row'.clarification == row.clarification
  }

  /** What each decision of a delivery stores: its status in both status columns, and the companies it settles. */
  lemma WebhookLeaves(
    row: Request, company: int, d: Decision, linked: Option<int>, reason: Option<string>, user: Option<int>, now: int)
    requires DeliveryOk(company, d, linked)
    ensures var row' := WebhookRow(row, company, d, linked, reason, user, now);
            match d
            case LinkedToExisting =>
              && Stamped(row, row', company, d, None, user, now)
              && row'.status == Confirmed && row'.checkStatus == Confirmed
              && row'.confirmedCompany == linked && row'.confirmedBitrix == linked
              && row'.linkedToExisting && row'.linked == linked && row'.rejectionReason == row.rejectionReason
            case Decided(Confirmed) =>
              && Stamped(row, row', company, d, None, user, now)
              && row'.status == Confirmed && row'.checkStatus == Confirmed
              && row'.confirmedCompany == Some(company) && row'.confirmedBitrix == Some(company)
              && !row'.linkedToExisting && row'.linked == None && row'.rejectionReason == row.rejectionReason
            case Decided(Rejected) =>
              && Stamped(row, row', company, d, reason, user, now)
              && row'.status == Rejected && row'.checkStatus == Rejected
              && row'.confirmedCompany == row.confirmedCompany && row'.confirmedBitrix == row.confirmedBitrix
              && row'.linkedToExisting == row.linkedToExisting && row'.linked == row.linked
              && row'.rejectionReason == reason
            case Decided(st) =>
              && Stamped(row, row', company, d, None, user, now)
              && row'.status == st && row'.checkStatus == st
              && row'.confirmedCompany == row.confirmedCompany && row'.confirmedBitrix == row.confirmedBitrix
              && !row'.linkedToExisting && row'.linked == None && row'.rejectionReason == row.rejectionReason
  {
  }

  /** A delivery changes the one request it is about, and opens that partner's link exactly when it confirms. */
  lemma WebhookTables(
    s: Portal, company: int, d: Decision, linked: Option<int>, reason: Option<string>, user: Option<int>, now: int,
    i: nat)
    requires Inv(s) && DeliveryOk(company, d, linked) && i < |s.requests| && s.requests[i].checkEntity == Some(company)
    ensures var t := Webhook(s, company, d, linked, reason, user, now);
            && t.requests == s.requests[i := WebhookRow(s.requests[i], company, d, linked, reason, user, now)]
            && (d == Decided(Confirmed) ==>
                  exists k: nat :: LinkOpened(s.links, t.links, s.requests[i].partner, company, None, now, k))
            && (d == LinkedToExisting ==>
                  exists k: nat :: LinkOpened(s.links, t.links, s.requests[i].partner, linked.value, None, now, k))
            && (d != Decided(Confirmed) && d != LinkedToExisting ==> t.links == s.links)
  {
    FoundAgain(s, s.requests, i, company);
    var k := EnsureLinkOpens(s.links, s.requests[i].partner, FinalOf(company, d, linked), None, now);
    hide EnsureLink, LinkOpened, WebhookRow, FindRequest, Inv;
  }

  /** A delivery counts as repeated when both statuses and the two companies are already as it would leave them. */
  lemma RepeatIs(row: Request, company: int, d: Decision, linked: Option<int>)
    requires DeliveryOk(company, d, linked)
    ensures var stored := match d case LinkedToExisting => Confirmed case Decided(st) => st;
            var final := if d == LinkedToExisting then linked
                         else if d == Decided(Confirmed) then Some(company) else None;
            IsRepeat(row, company, d, linked) <==>
              && row.status == stored && row.checkStatus == stored
              && (linked.Some? ==> row.linked == linked) && (linked.None? ==> !Given(row.linked))
              && (final.Some? ==> row.confirmedBitrix == final) && (final.None? ==> !Given(row.confirmedBitrix))
  {
  }

  /** A company named by an administrator counts when it is positive and not the system's own. */
  lemma NormalizedIs(id: Option<int>)
    ensures Normalized(id) == if id == None || id.value <= 0 || id.value == 1817 then None else id
  {
  }

  /** The administrator's refusals, in the order they are looked for. */
  lemma AdminRefusals(s: Portal, i: nat, d: Decision, confirmed: Option<int>, linked: Option<int>)
    ensures var refusal := AdminRefusal(s, i, d, confirmed, linked);
            && (refusal == Some(AdminStatusInvalid) <==> d == Decided(Draft))
            && (refusal == Some(AdminRequestNotFound) <==> d != Decided(Draft) && i >= |s.requests|)
            && (refusal == Some(AdminLinkedCompanyRequired) <==>
                  i < |s.requests| && d == LinkedToExisting && Normalized(linked) == None)
            && (refusal == Some(AdminCompanyNotFound) <==>
                  i < |s.requests| && d == Decided(Confirmed) && Normalized(linked) == None
                  && Normalized(confirmed) == None)
  {
  }

  /** What an administrator's decision stores: its status in both status columns, and the company it names. */
  lemma AdminLeaves(
    s: Portal, i: nat, d: Decision, confirmed: Option<int>, linked: Option<int>, rejection: Option<string>,
    clarification: Option<string>, admin: int, now: int)
    requires AdminRefusal(s, i, d, confirmed, linked).None?
    ensures var t := AdminDecision(s, i, d, confirmed, linked, rejection, clarification, admin, now);
            var row := s.requests[i];
            var stored := match d case LinkedToExisting => Confirmed case Decided(st) => st;
            var company := if Normalized(linked) == None then Normalized(confirmed) else Normalized(linked);
            && t.requests == s.requests[i := row.(
                 status := stored, checkStatus := stored, decision := Some(d), decidedAt := Some(now),
                 decisionReason := if d == Decided(Rejected) then rejection else None,
                 rejectionReason := rejection, clarification := clarification,
                 linkedToExisting := d == LinkedToExisting, linked := Normalized(linked),
                 confirmedBitrix := if company == None then row.confirmedBitrix else company,
                 confirmedCompany := if company == None then row.confirmedCompany else company,
                 original := if row.original == None && Given(row.checkEntity) then row.checkEntity
                             else row.original)]
            && (stored == Confirmed ==>
                  company.Some?
                  && exists k: nat :: LinkOpened(s.links, t.links, row.partner, company.value, Some(admin), now, k))
            && (stored != Confirmed ==> t.links == s.links)
  {
    if d.Stored() == Confirmed {
      var k := EnsureLinkOpens(s.links, s.requests[i].partner, AdminCompany(confirmed, linked).value, Some(admin), now);
    }
    hide EnsureLink, LinkOpened;
  }
}
