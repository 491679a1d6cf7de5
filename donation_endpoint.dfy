/** The donation endpoints (backend/app/api/v1/endpoints/donation.py): the filtered, newest-first
    listing, and the recording of a Stripe payment once the PaymentIntent has succeeded. The
    intent retrieved from Stripe is a parameter. */
module DonationEndpoint {
  import opened Common
  import opened Models
  import opened DonationModel
  import opened Tables
  import opened Dashboard
  import opened ChapaEndpoint

  // ---------------------------------------------------------------- read_donations

  /** The campaign filter: none for no id (or ""), donations without a campaign for "general",
      an exact match otherwise. */
  function CampaignFilter(campaignId: Option<string>): Donation -> bool
  {
    if !Truthy(campaignId) then (d: Donation) => true
    else if campaignId.value == "general" then (d: Donation) => d.campaignId.None?
    else (d: Donation) => d.campaignId == campaignId
  }

  /** `read_donations`. */
  function ReadDonations(ds: seq<Donation>, skip: nat, limit: nat, campaignId: Option<string>): (r: seq<Donation>)
    ensures |r| <= limit
    ensures forall i :: 0 <= i < |r| ==> r[i] in ds
    ensures forall i :: 0 <= i < |r| ==>
              if !Truthy(campaignId) then true
              else if campaignId.value == "general" then r[i].campaignId.None?
              else r[i].campaignId == campaignId
  {
    NewestFirst(ds, CampaignFilter(campaignId), skip, limit)
  }

  /** One large page lists every selected donation: read back to front it is the table's selection
      in insertion order, so the listing misses nothing and is newest first. */
  lemma ReadDonationsComplete(ds: seq<Donation>, campaignId: Option<string>, limit: nat)
    requires limit >= |ds|
    ensures Reverse(ReadDonations(ds, 0, limit, campaignId)) == Filter(ds, CampaignFilter(campaignId))
    ensures !Truthy(campaignId) ==> Reverse(ReadDonations(ds, 0, limit, campaignId)) == ds
  {
    NewestFirstComplete(ds, CampaignFilter(campaignId), limit);
    if !Truthy(campaignId) {
      FilterAll(ds, CampaignFilter(campaignId));
    }
  }

  // ---------------------------------------------------------------- verify_stripe_donation

  datatype StripeVerifyRequest = StripeVerifyRequest(
    paymentIntentId: string,
    campaignTitle: Option<string>,
    amount: Option<int>,
    donorEmail: Option<string>)

  /** `stripe.PaymentIntent.retrieve`: a StripeError, or the intent (amount in minor units). */
  datatype IntentReply =
    | StripeError
    | Intent(id: string, status: string, amount: int, currency: string, receiptEmail: Option<string>)

  datatype StripeResult = StripeResult(outcome: Outcome<Donation>, ledger: Ledger)

  const InternalVerificationError := HttpException(500, Some("Internal Verification Error"))

  /** The record made for a succeeded intent. `intent.amount / 100.0` dollars is the intent's
      amount in cents, so in minor units the stored amount is the intent's; the request's own
      `amount` is not used. */
  function StripeDonation(req: StripeVerifyRequest, intent: IntentReply, cs: seq<Campaign>): (d: Donation)
    requires intent.Intent?
    ensures d.status == SUCCESS && d.gateway == STRIPE && d.transactionId == intent.id
    ensures d.amount == intent.amount && d.currency == Upper(intent.currency)
    ensures d.donorName == Some("Guest Donor")
    ensures d.donorEmail == if Truthy(req.donorEmail) then req.donorEmail else intent.receiptEmail
    ensures d.campaignId == LinkedCampaign(cs, req.campaignTitle)
  {
    Donation(LinkedCampaign(cs, req.campaignTitle),
             Some("Guest Donor"),
             if Truthy(req.donorEmail) then req.donorEmail else intent.receiptEmail,
             intent.amount, Upper(intent.currency), STRIPE, intent.id, SUCCESS)
  }

  /** The filter of a campaign's USD takings, as recomputed after a Stripe payment. */
  function UsdFor(id: string): Donation -> bool {
    (d: Donation) => d.campaignId == Some(id) && d.currency == "USD" && d.status == SUCCESS
  }

  /** The campaign whose USD total a new Stripe payment recomputes: the one found by title,
      when its id is truthy. */
  function RecomputedCampaign(cs: seq<Campaign>, title: Option<string>): (r: Option<nat>)
    ensures r.Some? ==> r.value < |cs| && Truthy(title) && cs[r.value].title == title.value
                        && LinkedCampaign(cs, title) == Some(cs[r.value].id) && cs[r.value].id != ""
    ensures r.None? ==> LinkedCampaign(cs, title).None? || LinkedCampaign(cs, title) == Some("")
  {
    if !Truthy(title) then None
    else
      match FindFirst(cs, HasTitle(title.value))
      case Some(k) => if cs[k].id != "" then Some(k) else None
      case None => None
  }

  /** `verify_stripe_donation` on the two tables. */
  function StripeVerify(l: Ledger, req: StripeVerifyRequest, intent: IntentReply): (r: StripeResult)
    ensures intent.StripeError? ==> r == StripeResult(Raise(HttpException(400, None)), l)
    ensures intent.Intent? && intent.status != "succeeded" ==> r == StripeResult(Raise(InternalVerificationError), l)
    ensures r.outcome.Ok? ==> r.outcome.value.transactionId == intent.id && r.outcome.value in r.ledger.donations
  {
    if intent.StripeError? then StripeResult(Raise(HttpException(400, None)), l)
    else if intent.status != "succeeded" then StripeResult(Raise(InternalVerificationError), l)
    else
      match FindFirst(l.donations, HasTxId(intent.id))
      case Some(i) => StripeResult(Ok(l.donations[i]), l)
      case None =>
        var d := StripeDonation(req, intent, l.campaigns);
        var ds := l.donations + [d];
        var cs :=
          match RecomputedCampaign(l.campaigns, req.campaignTitle)
          case Some(k) => l.campaigns[k := l.campaigns[k].(raisedUsd := Raised(ds, UsdFor(l.campaigns[k].id)))]
          case None => l.campaigns;
        assert d == ds[|ds| - 1];
        StripeResult(Ok(d), Ledger(ds, cs))
  }

  /** `verify_stripe_donation`. */
  method VerifyStripeDonation(db: Db, req: StripeVerifyRequest, intent: IntentReply) returns (r: Outcome<Donation>)
    requires db.Valid()
    modifies db`donations, db`campaigns
    ensures db.Valid()
    ensures StripeResult(r, Ledger(db.donations, db.campaigns))
            == StripeVerify(old(Ledger(db.donations, db.campaigns)), req, intent)
    ensures UnconfirmedAreChapa(old(db.donations)) ==> UnconfirmedAreChapa(db.donations)
  {
    if UnconfirmedAreChapa(db.donations) {
      StripeVerifyKeepsUnconfirmedChapa(Ledger(db.donations, db.campaigns), req, intent);
    }
    if intent.StripeError? {
      return Raise(HttpException(400, None));
    }
    if intent.status != "succeeded" {
      // the handler's own 400 is caught by its `except Exception`
      return Raise(InternalVerificationError);
    }
    var existing := FindFirst(db.donations, HasTxId(intent.id));
    if existing.Some? {
      return Ok(db.donations[existing.value]);
    }
    var newDonation := StripeDonation(req, intent, db.campaigns);
    db.PutDonations(db.donations + [newDonation]);
    var campaign := RecomputedCampaign(db.campaigns, req.campaignTitle);
    if campaign.Some? {
      var k := campaign.value;
      var totalUsd := Raised(db.donations, UsdFor(db.campaigns[k].id));
      db.PutCampaigns(db.campaigns[k := db.campaigns[k].(raisedUsd := totalUsd)]);
    }
    r := Ok(newDonation);
  }

  // ---------------------------------------------------------------- properties

  /** A Stripe verification only ever adds a SUCCESS record, so the Chapa handlers' invariant
      that every unconfirmed donation is a Chapa ETB one survives it. */
  lemma StripeVerifyKeepsUnconfirmedChapa(l: Ledger, req: StripeVerifyRequest, intent: IntentReply)
    requires UnconfirmedAreChapa(l.donations)
    ensures UnconfirmedAreChapa(StripeVerify(l, req, intent).ledger.donations)
  {
    var ds := StripeVerify(l, req, intent).ledger.donations;
    if ds != l.donations {
      assert ds == l.donations + [StripeDonation(req, intent, l.campaigns)];
      assert ds[|l.donations|].status == SUCCESS;
    }
  }

  /** Recording is idempotent: verifying the same intent again, with any request, returns the
      record made the first time and changes nothing. */
  lemma StripeVerifyIdempotent(l: Ledger, req: StripeVerifyRequest, req2: StripeVerifyRequest, intent: IntentReply)
    requires TxIdsUnique(l.donations)
    requires StripeVerify(l, req, intent).outcome.Ok?
    ensures var first := StripeVerify(l, req, intent);
      StripeVerify(first.ledger, req2, intent) == first
  {
    var first := StripeVerify(l, req, intent);
    match FindFirst(l.donations, HasTxId(intent.id))
    case Some(i) =>
    case None =>
      var ds := first.ledger.donations;
      assert FindFirst(ds, HasTxId(intent.id)) == Some(|l.donations|);
  }

  /** An intent id already recorded returns that record and inserts nothing. */
  lemma StripeVerifyDeduplicates(l: Ledger, req: StripeVerifyRequest, intent: IntentReply, i: nat)
    requires TxIdsUnique(l.donations)
    requires intent.Intent? && intent.status == "succeeded"
    requires i < |l.donations| && l.donations[i].transactionId == intent.id
    ensures StripeVerify(l, req, intent) == StripeResult(Ok(l.donations[i]), l)
  {
    assert FindFirst(l.donations, HasTxId(intent.id)) == Some(i);
  }

  /** Every campaign's `current_raised_usd` equals the sum of its confirmed USD donations. */
  ghost predicate UsdConsistent(l: Ledger) {
    forall k :: 0 <= k < |l.campaigns| ==> l.campaigns[k].raisedUsd == Raised(l.donations, UsdFor(l.campaigns[k].id))
  }

  /** A new payment for a resolved campaign sets its USD total to the recomputed sum, whatever
      it was before; a new payment without a resolved campaign leaves every campaign alone. */
  lemma StripeVerifyRecomputes(l: Ledger, req: StripeVerifyRequest, intent: IntentReply)
    requires intent.Intent? && intent.status == "succeeded"
    requires FindFirst(l.donations, HasTxId(intent.id)).None?
    ensures var r := StripeVerify(l, req, intent);
      && r.ledger.donations == l.donations + [StripeDonation(req, intent, l.campaigns)]
      && |r.ledger.campaigns| == |l.campaigns|
      && forall k :: 0 <= k < |l.campaigns| ==>
           if Some(k) == RecomputedCampaign(l.campaigns, req.campaignTitle)
           then r.ledger.campaigns[k] == l.campaigns[k].(raisedUsd := Raised(r.ledger.donations, UsdFor(l.campaigns[k].id)))
           else r.ledger.campaigns[k] == l.campaigns[k]
    ensures LinkedCampaign(l.campaigns, req.campaignTitle).None? ==> StripeVerify(l, req, intent).ledger.campaigns == l.campaigns
  {
  }

  /** Recording a Stripe payment keeps every campaign's USD total equal to its confirmed USD
      donations. */
  lemma StripeVerifyKeepsUsdConsistent(l: Ledger, req: StripeVerifyRequest, intent: IntentReply)
    requires UsdConsistent(l) && CampaignsUnique(l.campaigns) && CampaignIdsPresent(l.campaigns)
    ensures UsdConsistent(StripeVerify(l, req, intent).ledger)
  {
    var r := StripeVerify(l, req, intent);
    if intent.Intent? && intent.status == "succeeded" && FindFirst(l.donations, HasTxId(intent.id)).None? {
      var d := StripeDonation(req, intent, l.campaigns);
      forall k | 0 <= k < |r.ledger.campaigns|
        ensures r.ledger.campaigns[k].raisedUsd == Raised(r.ledger.donations, UsdFor(r.ledger.campaigns[k].id))
      {
        RaisedAppend(l.donations, [d], UsdFor(l.campaigns[k].id));
        assert Raised([d], UsdFor(l.campaigns[k].id)) == (if UsdFor(l.campaigns[k].id)(d) then d.amount else 0);
        match RecomputedCampaign(l.campaigns, req.campaignTitle)
        case Some(m) =>
          if m != k {
            assert l.campaigns[m].id != l.campaigns[k].id;
          }
        case None =>
      }
    }
  }

  /** A Chapa confirmation never touches the USD totals: the donation it confirms is in ETB. */
  lemma VerifyKeepsUsdConsistent(l: Ledger, txRef: string)
    requires UsdConsistent(l) && UnconfirmedAreChapa(l.donations)
    ensures UsdConsistent(Verify(l, txRef))
  {
    var l' := Verify(l, txRef);
    match ToConfirm(l.donations, txRef)
    case None =>
    case Some(i) =>
      var d' := l.donations[i].(status := SUCCESS);
      assert l'.donations == l.donations[i := d'];
      forall k | 0 <= k < |l'.campaigns|
        ensures l'.campaigns[k].raisedUsd == Raised(l'.donations, UsdFor(l'.campaigns[k].id))
      {
        RaisedUpdate(l.donations, i, d', UsdFor(l.campaigns[k].id));
      }
  }

  /** A Stripe payment charged in any currency but ETB keeps every campaign's ETB total equal to
      its confirmed ETB donations; the endpoint recomputes only the USD total. */
  lemma StripeVerifyKeepsEtbConsistent(l: Ledger, req: StripeVerifyRequest, intent: IntentReply)
    requires EtbConsistent(l)
    requires intent.Intent? ==> Upper(intent.currency) != "ETB"
    ensures EtbConsistent(StripeVerify(l, req, intent).ledger)
  {
    var r := StripeVerify(l, req, intent);
    if intent.Intent? && intent.status == "succeeded" && FindFirst(l.donations, HasTxId(intent.id)).None? {
      var d := StripeDonation(req, intent, l.campaigns);
      forall k | 0 <= k < |r.ledger.campaigns|
        ensures r.ledger.campaigns[k].raisedEtb == Raised(r.ledger.donations, EtbFor(r.ledger.campaigns[k].id))
      {
        RaisedAppend(l.donations, [d], EtbFor(l.campaigns[k].id));
        assert Raised([d], EtbFor(l.campaigns[k].id)) == 0;
      }
    }
  }
}
