/** What the two ways of deciding a request agree on, and what repeating a delivery does. */
module PartnerTheorems {
  import opened Options
  import opened PartnerClients

  // ---------------------------------------------------------------------
  // Every run
  // ---------------------------------------------------------------------

  predicate RequestGood(row: Request) {
    && row.status != Draft
    && row.confirmedCompany == row.confirmedBitrix
    && (row.linked.Some? ==> row.linked == row.confirmedBitrix)
    && (row.linkedToExisting ==> row.linked.Some?)
    && (row.status == Confirmed ==> row.checkStatus == Confirmed && row.confirmedBitrix.Some?)
    && (row.confirmedBitrix.Some? ==> 0 < row.confirmedBitrix.value)
    && (row.checkEntity.Some? ==> 0 < row.checkEntity.value)
  }

  predicate RequestsGood(requests: seq<Request>) {
    && (forall i | 0 <= i < |requests| :: RequestGood(requests[i]))
    && (forall i, j | 0 <= i < j < |requests| && requests[i].checkEntity.Some? ::
          requests[i].checkEntity != requests[j].checkEntity)
  }

  predicate SamePair(a: Link, b: Link) { a.partner == b.partner && a.company == b.company }

  predicate LinksUnique(links: seq<Link>) {
    forall j, k | 0 <= j < k < |links| :: !SamePair(links[j], links[k])
  }

  predicate Linked(links: seq<Link>, partner: int, company: int) {
    exists k | 0 <= k < |links| :: links[k].partner == partner && links[k].company == company
  }

  /** A confirmed request has a link row, though it may have been revoked since. */
  predicate ConfirmedLinked(requests: seq<Request>, links: seq<Link>) {
    forall i | 0 <= i < |requests| && requests[i].status == Confirmed ::
      requests[i].confirmedBitrix.Some? && Linked(links, requests[i].partner, requests[i].confirmedBitrix.value)
  }

  predicate Inv(s: Portal) {
    RequestsGood(s.requests) && LinksUnique(s.links) && ConfirmedLinked(s.requests, s.links)
  }

  lemma {:induction false} FindLinkSpec(links: seq<Link>, partner: int, company: int)
    ensures var f := FindLink(links, partner, company);
            && (f.Some? ==> f.value < |links| && links[f.value].partner == partner && links[f.value].company == company)
            && (f.Some? <==> Linked(links, partner, company))
  {
    if links != [] {
      var front := links[..|links| - 1];
      FindLinkSpec(front, partner, company);
      if Linked(front, partner, company) {
        var k :| 0 <= k < |front| && front[k].partner == partner && front[k].company == company;
        assert links[k].partner == partner;
      }
    }
  }

  lemma {:induction false} FindRequestSpec(requests: seq<Request>, company: int)
    ensures var f := FindRequest(requests, company);
            && (f.Some? ==> f.value < |requests| && requests[f.value].checkEntity == Some(company))
            && (f.None? ==> forall i | 0 <= i < |requests| :: requests[i].checkEntity != Some(company))
  {
    if requests != [] {
      FindRequestSpec(requests[..|requests| - 1], company);
    }
  }

  /** Opening a link keeps one row per pair, loses no pair, and leaves the pair's row active. */
  lemma EnsureLinkSpec(links: seq<Link>, partner: int, company: int, who: Option<int>, now: int)
    requires LinksUnique(links)
    ensures var t := EnsureLink(links, partner, company, who, now);
            && LinksUnique(t) && |links| <= |t|
            && (forall k | 0 <= k < |links| :: SamePair(t[k], links[k]))
            && (0 < company ==> var f := FindLink(t, partner, company);
                                f.Some? && f.value < |t| && t[f.value].status == LinkActive
                                && t[f.value].partner == partner && t[f.value].company == company
                                && forall k | 0 <= k < |links| && k != f.value :: t[k] == links[k])
  {
    var t := EnsureLink(links, partner, company, who, now);
    FindLinkSpec(links, partner, company);
    FindLinkSpec(t, partner, company);
    if 0 < company {
      var f := FindLink(links, partner, company);
      hide FindLink;
      var at := if f.Some? then f.value else |links|;
      assert t[at].partner == partner && t[at].company == company;
      assert Linked(t, partner, company);
      assert LinksUnique(t) by {
        forall j, k | 0 <= j < k < |t| ensures !SamePair(t[j], t[k]) {
          if k < |links| { assert !SamePair(links[j], links[k]); }
        }
      }
    }
  }

  lemma LinksKeptLinked(requests: seq<Request>, links: seq<Link>, links': seq<Link>)
    requires ConfirmedLinked(requests, links) && |links| <= |links'|
    requires forall k | 0 <= k < |links| :: SamePair(links'[k], links[k])
    ensures ConfirmedLinked(requests, links')
  {
    forall i | 0 <= i < |requests| && requests[i].status == Confirmed
      ensures requests[i].confirmedBitrix.Some?
          && Linked(links', requests[i].partner, requests[i].confirmedBitrix.value)
    {
      var k :| 0 <= k < |links| && links[k].partner == requests[i].partner
               && links[k].company == requests[i].confirmedBitrix.value;
      assert SamePair(links'[k], links[k]);
    }
  }

  /** One request changes; if it is now confirmed, its link is there. */
  lemma RequestKeepsInv(s: Portal, i: nat, row: Request, links: seq<Link>)
    requires Inv(s) && i < |s.requests| && RequestGood(row) && row.checkEntity == s.requests[i].checkEntity
    requires LinksUnique(links) && |s.links| <= |links|
    requires forall k | 0 <= k < |s.links| :: SamePair(links[k], s.links[k])
    requires row.status == Confirmed ==>
        row.confirmedBitrix.Some? && Linked(links, row.partner, row.confirmedBitrix.value)
    ensures Inv(Portal(s.requests[i := row], links))
  {
    LinksKeptLinked(s.requests, s.links, links);
    hide Linked, SamePair, LinksUnique;
  }

  lemma DecidedGood(
    row: Request, company: int, d: Decision, linked: Option<int>, reason: Option<string>, user: Option<int>, now: int)
    requires RequestGood(row) && DeliveryOk(company, d, linked)
    ensures RequestGood(WebhookRow(row, company, d, linked, reason, user, now))
  {
  }

  lemma WebhookKeepsInv(
    s: Portal, company: int, d: Decision, linked: Option<int>, reason: Option<string>, user: Option<int>, now: int)
    requires Inv(s) && DeliveryOk(company, d, linked)
    ensures Inv(Webhook(s, company, d, linked, reason, user, now))
  {
    FindRequestSpec(s.requests, company);
    var f := FindRequest(s.requests, company);
    if f.Some? {
      var row := s.requests[f.value];
      DecidedGood(row, company, d, linked, reason, user, now);
      var t := Webhook(s, company, d, linked, reason, user, now);
      EnsureLinkSpec(s.links, row.partner, FinalOf(company, d, linked), None, now);
      FindLinkSpec(t.links, row.partner, FinalOf(company, d, linked));
      assert forall k | 0 <= k < |s.links| :: SamePair(t.links[k], s.links[k]);
      hide EnsureLink, FindLink, RequestGood, LinksUnique, SamePair, FindRequest;
      RequestKeepsInv(s, f.value, WebhookRow(row, company, d, linked, reason, user, now), t.links);
    }
  }

  lemma AdminGood(row: Request, d: Decision, confirmed: Option<int>, linked: Option<int>,
                  rejection: Option<string>, clarification: Option<string>, now: int)
    requires RequestGood(row) && d != Decided(Draft)
    requires d == LinkedToExisting ==> Normalized(linked).Some?
    requires d.Stored() == Confirmed ==> AdminCompany(confirmed, linked).Some?
    ensures RequestGood(AdminRow(row, d, confirmed, linked, rejection, clarification, now))
  {
  }

  lemma AdminKeepsInv(s: Portal, i: nat, d: Decision, confirmed: Option<int>, linked: Option<int>,
                      rejection: Option<string>, clarification: Option<string>, admin: int, now: int)
    requires Inv(s)
    ensures Inv(AdminDecision(s, i, d, confirmed, linked, rejection, clarification, admin, now))
  {
    if AdminRefusal(s, i, d, confirmed, linked).None? {
      var row := s.requests[i];
      AdminGood(row, d, confirmed, linked, rejection, clarification, now);
      var t := AdminDecision(s, i, d, confirmed, linked, rejection, clarification, admin, now);
      if d.Stored() == Confirmed {
        var company := AdminCompany(confirmed, linked).value;
        EnsureLinkSpec(s.links, row.partner, company, Some(admin), now);
        FindLinkSpec(t.links, row.partner, company);
      }
      assert forall k | 0 <= k < |s.links| :: SamePair(t.links[k], s.links[k]);
      hide EnsureLink, FindLink, RequestGood, LinksUnique, SamePair;
      RequestKeepsInv(s, i, AdminRow(row, d, confirmed, linked, rejection, clarification, now), t.links);
    }
  }

  lemma ApplyKeepsInv(s: Portal, step: Step, now: int)
    requires Inv(s) && Enabled(s, step)
    ensures Inv(Apply(s, step, now))
    ensures |s.requests| <= |Apply(s, step, now).requests| && |s.links| <= |Apply(s, step, now).links|
  {
    match step
    case CreateStep(partner, data, reply) =>
      hide LinksUnique, Linked;
      assert RequestGood(NewRequest(partner, data, reply, now));
    case EditStep(partner, i, data) =>
      if MayEdit(s, partner, i) {
        var row := s.requests[i].(data := data, status := Pending, sync := SyncRetryRequired);
        assert RequestGood(s.requests[i]) && RequestGood(row);
        hide RequestGood, LinksUnique;
        RequestKeepsInv(s, i, row, s.links);
      }
    case WebhookStep(company, d, linked, reason, user) =>
      WebhookKeepsInv(s, company, d, linked, reason, user, now);
    case AdminStep(i, d, confirmed, linked, rejection, clarification, admin) =>
      AdminKeepsInv(s, i, d, confirmed, linked, rejection, clarification, admin, now);
    case UseStep(partner, i, company) =>
      EnsureLinkSpec(s.links, partner, company, Some(partner), now);
      hide EnsureLink, UseVerdict, LinksUnique;
      LinksKeptLinked(s.requests, s.links, Apply(s, step, now).links);
    case RevokeStep(k, admin) =>
      LinksKeptLinked(s.requests, s.links, Apply(s, step, now).links);
    case AddLinkStep(link) =>
      FindLinkSpec(s.links, link.partner, link.company);
      hide FindLink;
      LinksKeptLinked(s.requests, s.links, Apply(s, step, now).links);
  }

  /** Every run keeps the invariant and loses no row. */
  lemma {:induction false} RunKeepsInv(s: Portal, run: seq<TimedStep>)
    requires Inv(s) && EnabledRun(s, run)
    ensures Inv(Run(s, run))
    ensures |s.requests| <= |Run(s, run).requests| && |s.links| <= |Run(s, run).links|
    decreases |run|
  {
    if run != [] {
      hide Inv, Apply, Enabled;
      ApplyKeepsInv(s, run[0].step, run[0].now);
      RunKeepsInv(Apply(s, run[0].step, run[0].now), run[1..]);
    }
  }

  /**
    After any run of deliveries, administrators' decisions, partners' edits, uses and revocations:
    a linked company is the confirmed company in both columns, a request marked as linked names a
    company, a confirmed request has passed its check and its final company is the confirmed one,
    and what a partner sees as "linked" has that linked company as its final one.
   */
  lemma DecisionsAgree(run: seq<TimedStep>, i: nat)
    requires EnabledRun(EMPTY_PORTAL, run) && i < |Run(EMPTY_PORTAL, run).requests|
    ensures var row := Run(EMPTY_PORTAL, run).requests[i];
            && (row.linked.Some? ==> row.linked == row.confirmedCompany == row.confirmedBitrix)
            && (row.linkedToExisting ==> row.linked.Some?)
            && (row.status == Confirmed ==>
                  row.checkStatus == Confirmed && row.confirmedBitrix.Some? && FinalCompany(row) == row.confirmedBitrix)
            && (PublicStatus(row) == LinkedToExisting ==> FinalCompany(row) == row.linked)
  {
    RunKeepsInv(EMPTY_PORTAL, run);
    hide Run, EnabledRun, LinksUnique, ConfirmedLinked;
    assert RequestGood(Run(EMPTY_PORTAL, run).requests[i]);
  }

  /** The lookups by company and by partner and company never find two rows. */
  lemma LookupsSingle(run: seq<TimedStep>, company: int, partner: int)
    requires EnabledRun(EMPTY_PORTAL, run)
    ensures var s := Run(EMPTY_PORTAL, run);
            && (forall i, j | 0 <= i < |s.requests| && 0 <= j < |s.requests|
                              && s.requests[i].checkEntity == s.requests[j].checkEntity == Some(company) :: i == j)
            && (forall j, k | 0 <= j < |s.links| && 0 <= k < |s.links|
                              && s.links[j].partner == s.links[k].partner == partner
                              && s.links[j].company == s.links[k].company == company :: j == k)
  {
    RunKeepsInv(EMPTY_PORTAL, run);
    hide Run, EnabledRun, ConfirmedLinked, RequestGood;
    var s := Run(EMPTY_PORTAL, run);
    forall j, k | 0 <= j < |s.links| && 0 <= k < |s.links|
                  && s.links[j].partner == s.links[k].partner == partner
                  && s.links[j].company == s.links[k].company == company
      ensures j == k
    {
      assert SamePair(s.links[j], s.links[k]) && SamePair(s.links[k], s.links[j]);
    }
  }

  // ---------------------------------------------------------------------
  // Repeated deliveries
  // ---------------------------------------------------------------------

  function TimelessRequest(row: Request): Request { row.(syncedAt := None) }

  function TimelessLink(row: Link): Link { row.(confirmedAt := None) }

  function Timeless(s: Portal): Portal {
    Portal(seq(|s.requests|, i requires 0 <= i < |s.requests| => TimelessRequest(s.requests[i])),
           seq(|s.links|, k requires 0 <= k < |s.links| => TimelessLink(s.links[k])))
  }

  lemma EnsureLinkTwice(links: seq<Link>, partner: int, company: int, who: Option<int>, now: int, later: int)
    requires LinksUnique(links)
    ensures var t, u := EnsureLink(links, partner, company, who, now),
                        EnsureLink(EnsureLink(links, partner, company, who, now), partner, company, who, later);
            |t| == |u| && forall k | 0 <= k < |t| :: TimelessLink(t[k]) == TimelessLink(u[k])
  {
    var t := EnsureLink(links, partner, company, who, now);
    EnsureLinkSpec(links, partner, company, who, now);
    FindLinkSpec(links, partner, company);
    FindLinkSpec(t, partner, company);
    if 0 < company {
      var f, g := FindLink(links, partner, company), FindLink(t, partner, company);
      hide FindLink, Linked;
      var at := if f.Some? then f.value else |links|;
      assert SamePair(t[at], t[g.value]);
      assert g.value == at;
    }
  }

  /** Delivering the same decision again changes only when it was last synchronised and the link confirmed. */
  lemma WebhookTwice(
    s: Portal, company: int, d: Decision, linked: Option<int>, reason: Option<string>, user: Option<int>,
    now: int, later: int)
    requires Inv(s) && DeliveryOk(company, d, linked)
    ensures var t := Webhook(s, company, d, linked, reason, user, now);
            Timeless(Webhook(t, company, d, linked, reason, user, later)) == Timeless(t)
  {
    var t := Webhook(s, company, d, linked, reason, user, now);
    var u := Webhook(t, company, d, linked, reason, user, later);
    FindRequestSpec(s.requests, company);
    FindRequestSpec(t.requests, company);
    var f := FindRequest(s.requests, company);
    if f.Some? {
      var i := f.value;
      assert t.requests[i].checkEntity == Some(company);
      FoundAgain(s, t.requests, i, company);
      EnsureLinkTwice(s.links, s.requests[i].partner, FinalOf(company, d, linked), None, now, later);
      hide EnsureLink, FindRequest, Inv, TimelessLink;
      assert TimelessRequest(u.requests[i]) == TimelessRequest(t.requests[i]);
      hide WebhookRow;
      SameButForTime(t, u, i);
    }
  }

  lemma SameButForTime(t: Portal, u: Portal, i: nat)
    requires i < |t.requests| && i < |u.requests| && u.requests == t.requests[i := u.requests[i]]
    requires TimelessRequest(u.requests[i]) == TimelessRequest(t.requests[i])
    requires |u.links| == |t.links| && forall k | 0 <= k < |t.links| ::
        TimelessLink(t.links[k]) == TimelessLink(u.links[k])
    ensures Timeless(u) == Timeless(t)
  {
    hide TimelessRequest, TimelessLink;
    assert Timeless(u).requests == Timeless(t).requests;
    assert Timeless(u).links == Timeless(t).links;
  }

  lemma FoundAgain(s: Portal, requests: seq<Request>, i: nat, company: int)
    requires Inv(s) && |requests| == |s.requests| && i < |requests|
    requires forall j | 0 <= j < |requests| :: requests[j].checkEntity == s.requests[j].checkEntity
    requires requests[i].checkEntity == Some(company)
    ensures FindRequest(requests, company) == Some(i)
  {
    FindRequestSpec(requests, company);
    hide FindRequest, RequestGood, LinksUnique, ConfirmedLinked;
    assert RequestsGood(s.requests);
  }

  /** Whether the handler would report a delivery as a repeat. */
  predicate Repeated(s: Portal, company: int, d: Decision, linked: Option<int>)
    requires d == LinkedToExisting ==> linked.Some?
  {
    var f := FindRequest(s.requests, company);
    f.Some? && f.value < |s.requests| && IsRepeat(s.requests[f.value], company, d, linked)
  }

  /**
    Which second deliveries the handler recognises as repeats: links, and otherwise those that name
    no linked company, for a confirmation or for a request never confirmed before.
   */
  lemma RepeatRecognisedIff(
    s: Portal, i: nat, company: int, d: Decision, linked: Option<int>, reason: Option<string>, user: Option<int>,
        now: int)
    requires Inv(s) && DeliveryOk(company, d, linked) && i < |s.requests| && s.requests[i].checkEntity == Some(company)
    ensures Repeated(Webhook(s, company, d, linked, reason, user, now), company, d, linked)
            <==> d == LinkedToExisting
                 || (linked.None? && (d == Decided(Confirmed) || s.requests[i].confirmedBitrix.None?))
  {
    FoundAgain(s, s.requests, i, company);
    assert RequestGood(s.requests[i]);
    var t := Webhook(s, company, d, linked, reason, user, now);
    FoundAgain(s, t.requests, i, company);
    hide FindRequest, EnsureLink, Inv;
  }

  // ---------------------------------------------------------------------
  // Using a request
  // ---------------------------------------------------------------------

  /**
    A partner may start an application exactly for their own confirmed request and its confirmed
    company; the link is then active, even if an administrator had revoked it, and no other link
    changes.
   */
  lemma UseAllowedIff(s: Portal, partner: int, i: nat, company: int, now: int)
    requires Inv(s)
    ensures UseVerdict(s, partner, i, company) == UseAllowed <==>
              i < |s.requests| && s.requests[i].partner == partner
              && s.requests[i].status == Confirmed && s.requests[i].confirmedBitrix == Some(company)
    ensures UseVerdict(s, partner, i, company) == UseCompanyMismatch <==>
              i < |s.requests| && s.requests[i].partner == partner
              && s.requests[i].status == Confirmed && s.requests[i].confirmedBitrix != Some(company)
    ensures UseVerdict(s, partner, i, company) == UseAllowed ==>
              var t := Use(s, partner, i, company, now);
              exists k | 0 <= k < |t.links| ::
                t.links[k].partner == partner && t.links[k].company == company && t.links[k].status == LinkActive
                && |t.links| == |s.links|
                && forall j | 0 <= j < |s.links| && j != k :: t.links[j] == s.links[j]
  {
    if i < |s.requests| && s.requests[i].partner == partner {
      assert RequestGood(s.requests[i]);
      if UseVerdict(s, partner, i, company) == UseAllowed {
        EnsureLinkSpec(s.links, partner, company, Some(partner), now);
        FindLinkSpec(s.links, partner, company);
        var t := Use(s, partner, i, company, now);
        assert Linked(s.links, partner, company) && 0 < company;
        assert t.links == EnsureLink(s.links, partner, company, Some(partner), now) && |t.links| == |s.links|;
        hide Inv, FindLink, Linked, UseVerdict, EnsureLink;
        var f := FindLink(t.links, partner, company);
        assert t.links[f.value].status == LinkActive;
      }
    }
  }

  /** The partner and company whose link a step opens, if it opens one. */
  function Opens(s: Portal, step: Step): Option<(int, int)>
    requires Enabled(s, step)
  {
    match step
    case UseStep(partner, i, company) =>
      if UseVerdict(s, partner, i, company) == UseAllowed then Some((partner, company)) else None
    case WebhookStep(company, d, linked, _, _) =>
      var found := FindRequest(s.requests, company);
      if d.Stored() == Confirmed && found.Some? && found.value < |s.requests|
      then Some((s.requests[found.value].partner, FinalOf(company, d, linked))) else None
    case AdminStep(i, d, confirmed, linked, _, _, _) =>
      if d.Stored() == Confirmed && AdminRefusal(s, i, d, confirmed, linked).None?
      then Some((s.requests[i].partner, AdminCompany(confirmed, linked).value)) else None
    case _ => None
  }

  function OpenedBy(s: Portal, step: Step): Option<int> {
    match step
    case UseStep(partner, _, _) => Some(partner)
    case AdminStep(_, _, _, _, _, _, admin) => Some(admin)
    case _ => None
  }

  /** Opening a link for a pair makes a revoked row active exactly if it is the row of that pair. */
  lemma EnsureReopensIff(links: seq<Link>, partner: int, company: int, who: Option<int>, now: int, k: nat)
    requires LinksUnique(links) && k < |links| && links[k].status == LinkRevoked && 0 < company
    ensures var t := EnsureLink(links, partner, company, who, now);
            && k < |t| && t[k].status in {LinkActive, LinkRevoked}
            && (t[k].status == LinkActive <==> links[k].partner == partner && links[k].company == company)
  {
    var t := EnsureLink(links, partner, company, who, now);
    EnsureLinkSpec(links, partner, company, who, now);
    hide EnsureLink, FindLink;
    var f := FindLink(t, partner, company).value;
    assert SamePair(t[k], links[k]);
    assert SamePair(t[f], t[k]) <==> links[k].partner == partner && links[k].company == company;
    assert SamePair(t[k], t[f]) <==> links[k].partner == partner && links[k].company == company;
  }

  lemma OpenedPositive(s: Portal, step: Step)
    requires Inv(s) && Enabled(s, step)
    ensures Opens(s, step).Some? ==> 0 < Opens(s, step).value.1
  {
    if step.UseStep? && step.id < |s.requests| { assert RequestGood(s.requests[step.id]); }
    hide Inv, FindRequest;
  }

  lemma OpenedLinks(s: Portal, step: Step, now: int)
    requires Enabled(s, step) && Opens(s, step).Some?
    ensures var (partner, company) := Opens(s, step).value;
            Apply(s, step, now).links == EnsureLink(s.links, partner, company, OpenedBy(s, step), now)
  {
    hide UseVerdict, FindRequest, AdminRefusal, WebhookRow, AdminRow, EnsureLink;
  }

  /** A step that opens no link changes no row but the one it revokes, and may add one. */
  lemma NothingOpened(s: Portal, step: Step, now: int, k: nat)
    requires Enabled(s, step) && Opens(s, step).None? && k < |s.links| && s.links[k].status == LinkRevoked
    ensures k < |Apply(s, step, now).links| && Apply(s, step, now).links[k] == s.links[k]
  {
    hide UseVerdict, FindRequest, FindLink, AdminRefusal, WebhookRow, AdminRow, EnsureLink;
  }

  lemma InvLinks(s: Portal)
    requires Inv(s)
    ensures LinksUnique(s.links)
  {
  }

  /**
    What undoes a revocation: exactly an allowed use of a request for the link's partner and company,
    a delivery confirming a request of that partner with that final company, or an administrator's
    decision confirming one.  Every other step leaves the link revoked.
   */
  lemma ReopenedIff(s: Portal, step: Step, now: int, k: nat)
    requires Inv(s) && Enabled(s, step) && k < |s.links| && s.links[k].status == LinkRevoked
    ensures k < |Apply(s, step, now).links|
    ensures Apply(s, step, now).links[k].status == LinkActive
            <==> Opens(s, step) == Some((s.links[k].partner, s.links[k].company))
    ensures Apply(s, step, now).links[k].status in {LinkActive, LinkRevoked}
  {
    hide *;
    OpenedPositive(s, step);
    if Opens(s, step).Some? {
      var (partner, company) := Opens(s, step).value;
      InvLinks(s);
      EnsureReopensIff(s.links, partner, company, OpenedBy(s, step), now, k);
      OpenedLinks(s, step, now);
    } else {
      NothingOpened(s, step, now, k);
    }
  }

  /** No step of the run opens a link for this pair. */
  predicate NeverOpens(s: Portal, run: seq<TimedStep>, pair: (int, int))
    requires EnabledRun(s, run)
    decreases |run|
  {
    run != [] ==>
      Opens(s, run[0].step) != Some(pair) && NeverOpens(Apply(s, run[0].step, run[0].now), run[1..], pair)
  }

  /** A revoked link stays revoked over every run without such a step. */
  lemma {:induction false} RevokedUntilOpened(s: Portal, run: seq<TimedStep>, k: nat)
    requires Inv(s) && EnabledRun(s, run) && k < |s.links| && s.links[k].status == LinkRevoked
    requires NeverOpens(s, run, (s.links[k].partner, s.links[k].company))
    ensures k < |Run(s, run).links| && Run(s, run).links[k].status == LinkRevoked
    decreases |run|
  {
    if run != [] {
      var step, now := run[0].step, run[0].now;
      var t := Apply(s, step, now);
      ApplyKeepsInv(s, step, now);
      ReopenedIff(s, step, now, k);
      LinkKeepsPair(s, step, now, k);
      hide Inv, Apply, Enabled, Opens;
      RevokedUntilOpened(t, run[1..], k);
    }
  }

  lemma LinkKeepsPair(s: Portal, step: Step, now: int, k: nat)
    requires Inv(s) && Enabled(s, step) && k < |s.links|
    ensures k < |Apply(s, step, now).links| && SamePair(Apply(s, step, now).links[k], s.links[k])
  {
    InvLinks(s);
    if Opens(s, step).Some? {
      var (partner, company) := Opens(s, step).value;
      EnsureLinkSpec(s.links, partner, company, OpenedBy(s, step), now);
      OpenedLinks(s, step, now);
      hide *;
    } else {
      hide UseVerdict, FindRequest, FindLink, AdminRefusal, WebhookRow, AdminRow, EnsureLink;
    }
  }

  /** Revoking a link does not outlast the next application for a confirmed request. */
  lemma RevocationUndone(s: Portal, k: nat, i: nat, admin: int, now: int, later: int)
    requires Inv(s) && k < |s.links| && i < |s.requests|
    requires s.requests[i].status == Confirmed && s.requests[i].partner == s.links[k].partner
    requires s.requests[i].confirmedBitrix == Some(s.links[k].company)
    ensures var t := Use(Revoke(s, k, admin, now), s.links[k].partner, i, s.links[k].company, later);
            |t.links| == |s.links| && t.links[k].status == LinkActive
  {
    var r := Revoke(s, k, admin, now);
    ApplyKeepsInv(s, RevokeStep(k, admin), now);
    UseAllowedIff(r, s.links[k].partner, i, s.links[k].company, later);
    var t := Use(r, s.links[k].partner, i, s.links[k].company, later);
    var j :| 0 <= j < |t.links| && t.links[j].partner == s.links[k].partner && t.links[j].company == s.links[k].company
             && t.links[j].status == LinkActive && |t.links| == |r.links|
             && forall m | 0 <= m < |r.links| && m != j :: t.links[m] == r.links[m];
    ApplyKeepsInv(r, UseStep(s.links[k].partner, i, s.links[k].company), later);
    hide Use, Revoke, RequestsGood, ConfirmedLinked;
    assert SamePair(t.links[j], t.links[k]) && SamePair(t.links[k], t.links[j]);
  }
}
