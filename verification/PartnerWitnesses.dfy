/** Runs from the empty portal to a repeated delivery that is not recognised, and to a reopened link. */
module PartnerWitnesses {
  import opened Options
  import opened PartnerClients
  import opened PartnerTheorems

  const CREATED := CreateStep(9, "", CompanyCreated(5))
  const CONFIRMED := WebhookStep(5, Decided(Confirmed), None, None, None)
  const REJECTED := WebhookStep(5, Decided(Rejected), None, None, None)

  const NEW_REQUEST := NewRequest(9, "", CompanyCreated(5), 0)
  const CONFIRMED_REQUEST := WebhookRow(NEW_REQUEST, 5, Decided(Confirmed), None, None, None, 0)

  function AfterConfirmation(): Portal { Portal([CONFIRMED_REQUEST], [NewLink(9, 5, None, 0)]) }

  lemma ConfirmationReaches()
    ensures Enabled(EMPTY_PORTAL, CREATED) && Apply(EMPTY_PORTAL, CREATED, 0) == Portal([NEW_REQUEST], [])
    ensures Enabled(Portal([NEW_REQUEST], []), CONFIRMED)
    ensures Apply(Portal([NEW_REQUEST], []), CONFIRMED, 0) == AfterConfirmation()
  {
    assert FindRequest([NEW_REQUEST], 5) == Some(0);
    assert FindLink([], 9, 5) == None;
  }

  lemma NextStep(s: Portal, run: seq<TimedStep>, k: nat)
    requires k < |run|
    ensures EnabledRun(s, run[k..])
            <==> Enabled(s, run[k].step) && EnabledRun(Apply(s, run[k].step, run[k].now), run[k + 1..])
    ensures EnabledRun(s, run[k..]) ==>
              Run(s, run[k..]) == Run(Apply(s, run[k].step, run[k].now), run[k + 1..])
  {
    hide Apply, Enabled;
    assert run[k..][1..] == run[k + 1..];
  }

  /** A request confirmed and then rejected: the second rejection is a repeat and not recognised as one. */
  lemma RepeatNotRecognised()
    ensures var run := [At(0, CREATED), At(0, CONFIRMED), At(0, REJECTED)];
            EnabledRun(EMPTY_PORTAL, run)
            && !Repeated(Run(EMPTY_PORTAL, run), 5, Decided(Rejected), None)
            && Timeless(Webhook(Run(EMPTY_PORTAL, run), 5, Decided(Rejected), None, None, None, 1))
               == Timeless(Run(EMPTY_PORTAL, run))
  {
    var run := [At(0, CREATED), At(0, CONFIRMED), At(0, REJECTED)];
    assert run[0..] == run && run[3..] == [];
    ConfirmationReaches();
    var s := AfterConfirmation();
    ConfirmedInv();
    assert Apply(s, REJECTED, 0) == Webhook(s, 5, Decided(Rejected), None, None, None, 0);
    RepeatRecognisedIff(s, 0, 5, Decided(Rejected), None, None, None, 0);
    WebhookTwice(s, 5, Decided(Rejected), None, None, None, 0, 1);
    hide Apply, AfterConfirmation, Webhook, Timeless, Repeated;
    NextStep(EMPTY_PORTAL, run, 0);
    NextStep(Portal([NEW_REQUEST], []), run, 1);
    NextStep(s, run, 2);
  }

  lemma ConfirmedInv()
    ensures Inv(AfterConfirmation())
    ensures AfterConfirmation().requests[0].checkEntity == Some(5)
    ensures AfterConfirmation().requests[0].confirmedBitrix == Some(5)
  {
    assert AfterConfirmation().links[0].partner == 9;
    assert Linked(AfterConfirmation().links, 9, 5);
  }

  /** A link that is revoked and then reopened by the partner's next application. */
  lemma RevokedAndReopened()
    ensures var run := [At(0, CREATED), At(0, CONFIRMED), At(0, RevokeStep(0, 1)), At(0, UseStep(9, 0, 5))];
            EnabledRun(EMPTY_PORTAL, run) && EnabledRun(EMPTY_PORTAL, run[..3])
            && Run(EMPTY_PORTAL, run[..3]).links != [] && Run(EMPTY_PORTAL, run[..3]).links[0].status == LinkRevoked
            && Run(EMPTY_PORTAL, run).links != [] && Run(EMPTY_PORTAL, run).links[0].status == LinkActive
  {
    var run := [At(0, CREATED), At(0, CONFIRMED), At(0, RevokeStep(0, 1)), At(0, UseStep(9, 0, 5))];
    var front := run[..3];
    assert run[0..] == run && run[4..] == [] && front[0..] == front && front[3..] == [];
    ConfirmationReaches();
    ConfirmedInv();
    var s := AfterConfirmation();
    var r := Revoke(s, 0, 1, 0);
    RevocationUndone(s, 0, 0, 1, 0, 0);
    assert Apply(s, RevokeStep(0, 1), 0) == r && Apply(r, UseStep(9, 0, 5), 0) == Use(r, 9, 0, 5, 0);
    assert r.links[0].status == LinkRevoked;
    hide Apply, AfterConfirmation, Revoke, Use;
    NextStep(EMPTY_PORTAL, run, 0);
    NextStep(Portal([NEW_REQUEST], []), run, 1);
    NextStep(s, run, 2);
    NextStep(r, run, 3);
    NextStep(EMPTY_PORTAL, front, 0);
    NextStep(Portal([NEW_REQUEST], []), front, 1);
    NextStep(s, front, 2);
  }
}
