/** The Chapa payment endpoints (backend/app/api/v1/endpoints/chapa.py): initialising a payment
    records a PENDING donation, and a confirmed verification moves it to SUCCESS and credits its
    campaign's ETB total once. Gateway replies, the uuid, the configured URLs and the webhook's
    HMAC digest are parameters. */
module ChapaEndpoint {
  import opened Common
  import opened Models
  import opened DonationModel
  import opened Tables
  import opened Dashboard
  import opened UrlEncoding

  datatype ChapaPaymentRequest = ChapaPaymentRequest(
    amount: int,
    email: string,
    firstName: string,
    lastName: string,
    campaignTitle: Option<string>)

  /** What `initialize_transaction` gave back: it raised, or it answered with a JSON body whose
      `status` and `data.checkout_url` may be missing. */
  datatype InitReply = InitRaised | InitAnswer(status: Option<string>, checkoutUrl: Option<string>)

  /** What `verify_transaction` gave back. */
  datatype VerifyReply = VerifyRaised | VerifyAnswer(status: Option<string>)

  datatype ChapaCheckout = ChapaCheckout(checkoutUrl: string, txRef: string)

  datatype WebhookEvent = WebhookEvent(txRef: Option<string>, status: Option<string>)

  const TxRefPrefix := "tx-wkms-"

  /** The transaction reference made from a fresh uuid. */
  function TxRef(uuid: string): (r: string)
    ensures StartsWith(r, TxRefPrefix) && r[|TxRefPrefix|..] == uuid
  {
    TxRefPrefix + uuid
  }

  /** The query parameters of the return URL; `campaign` is "" without a title. */
  function ReturnParams(txRef: string, campaignTitle: Option<string>): (ps: seq<(string, string)>)
    ensures |ps| == 3 && ps[0].0 == "redirect_status" && ps[1].0 == "tx_ref" && ps[2].0 == "campaign"
    ensures ps[0].1 == "succeeded" && ps[1].1 == txRef
    ensures ps[2].1 != "" <==> Truthy(campaignTitle)
    ensures Truthy(campaignTitle) ==> ps[2].1 == campaignTitle.value
  {
    [("redirect_status", "succeeded"), ("tx_ref", txRef),
     ("campaign", if Truthy(campaignTitle) then campaignTitle.value else "")]
  }

  /** Where Chapa sends the donor back: the frontend's /donate page with the encoded parameters. */
  function ReturnUrl(frontendUrl: string, txRef: string, campaignTitle: Option<string>): (u: string)
    ensures StartsWith(u, frontendUrl + "/donate?")
  {
    frontendUrl + "/donate?" + UrlEncode(ReturnParams(txRef, campaignTitle))
  }

  /** The return URL always carries `redirect_status=succeeded`, the reference, and the campaign
      title or "" without one: decoding its query gives exactly these three. */
  lemma ReturnUrlCarriesParams(frontendUrl: string, txRef: string, campaignTitle: Option<string>)
    ensures var u := ReturnUrl(frontendUrl, txRef, campaignTitle);
      ParseQuery(u[|frontendUrl + "/donate?"|..])
      == [("redirect_status", "succeeded"), ("tx_ref", txRef),
          ("campaign", if Truthy(campaignTitle) then campaignTitle.value else "")]
  {
    var ps := ReturnParams(txRef, campaignTitle);
    ParseUrlEncode(ps);
  }

  /** The record `initialize_chapa_payment` adds before calling the gateway. */
  function PendingDonation(req: ChapaPaymentRequest, cs: seq<Campaign>, txRef: string): (d: Donation)
    ensures d.status == PENDING && d.currency == "ETB" && d.gateway == CHAPA
    ensures d.transactionId == txRef && d.amount == req.amount
    ensures d.campaignId.Some? <==> Truthy(req.campaignTitle)
                                    && exists k :: 0 <= k < |cs| && cs[k].title == req.campaignTitle.value
  {
    Donation(LinkedCampaign(cs, req.campaignTitle), Some(req.firstName + " " + req.lastName),
             Some(req.email), req.amount, "ETB", CHAPA, txRef, PENDING)
  }

  predicate TxIdTaken(ds: seq<Donation>, tx: string) {
    FindFirst(ds, HasTxId(tx)).Some?
  }

  /** `initialize_chapa_payment`. A reference already in the table fails the insert; everything
      raised inside the handler, including its own 400 for a refused payment, reaches the caller
      as 500. `sentReturnUrl` is the return URL handed to the gateway, if the call was made. */
  method InitializeChapaPayment(db: Db, req: ChapaPaymentRequest, uuid: string, frontendUrl: string,
                                reply: InitReply)
    returns (r: Outcome<ChapaCheckout>, sentReturnUrl: Option<string>)
    requires db.Valid() && UnconfirmedAreChapa(db.donations)
    modifies db`donations
    ensures db.Valid() && UnconfirmedAreChapa(db.donations)
    ensures var tx := TxRef(uuid);
      TxIdTaken(old(db.donations), tx) ==>
        r == Raise(HttpException(500, None)) && db.donations == old(db.donations) && sentReturnUrl == None
    ensures var tx := TxRef(uuid); var pending := PendingDonation(req, db.campaigns, tx);
      !TxIdTaken(old(db.donations), tx) ==>
        && sentReturnUrl == Some(ReturnUrl(frontendUrl, tx, req.campaignTitle))
        && db.donations == old(db.donations)
             + [if reply.InitAnswer? && reply.status != Some("success") then pending.(status := FAILED) else pending]
    ensures r.Ok? <==> !TxIdTaken(old(db.donations), TxRef(uuid)) && reply.InitAnswer?
                       && reply.status == Some("success") && reply.checkoutUrl.Some?
    ensures r.Ok? ==> r.value == ChapaCheckout(reply.checkoutUrl.value, TxRef(uuid))
    ensures r.Raise? ==> r.error == HttpException(500, None)
    ensures GetDashboardStats(db.donations, db.campaigns) == GetDashboardStats(old(db.donations), db.campaigns)
  {
    var txRef := TxRef(uuid);
    if TxIdTaken(db.donations, txRef) {
      return Raise(HttpException(500, None)), None;
    }
    var table := db.donations;
    var donation := PendingDonation(req, db.campaigns, txRef);
    RecordUnconfirmed(table, db.campaigns, donation);
    RecordUnconfirmed(table, db.campaigns, donation.(status := FAILED));
    db.PutDonations(table + [donation]);
    sentReturnUrl := Some(ReturnUrl(frontendUrl, txRef, req.campaignTitle));
    r := HandleInitReply(db, table, donation, reply);
  }

  /** The gateway's answer to the initialisation: a refusal marks the new record FAILED before
      the handler's own 400 is raised; only a success with a checkout URL is returned. */
  method HandleInitReply(db: Db, table: seq<Donation>, donation: Donation, reply: InitReply)
    returns (r: Outcome<ChapaCheckout>)
    requires db.Valid() && db.donations == table + [donation]
    requires TxIdsUnique(table + [donation.(status := FAILED)])
    modifies db`donations
    ensures db.Valid()
    ensures db.donations
            == table + [if reply.InitAnswer? && reply.status != Some("success") then donation.(status := FAILED) else donation]
    ensures r.Ok? <==> reply.InitAnswer? && reply.status == Some("success") && reply.checkoutUrl.Some?
    ensures r.Ok? ==> r.value == ChapaCheckout(reply.checkoutUrl.value, donation.transactionId)
    ensures r.Raise? ==> r.error == HttpException(500, None)
  {
    r := Raise(HttpException(500, None));
    if reply.InitAnswer? {
      if reply.status != Some("success") {
        db.PutDonations(table + [donation.(status := FAILED)]);
      } else if reply.checkoutUrl.Some? {
        r := Ok(ChapaCheckout(reply.checkoutUrl.value, donation.transactionId));
      }
    }
  }

  /** Recording a fresh unconfirmed Chapa donation keeps the table's invariants and the dashboard. */
  lemma RecordUnconfirmed(ds: seq<Donation>, cs: seq<Campaign>, d: Donation)
    requires TxIdsUnique(ds) && UnconfirmedAreChapa(ds) && !TxIdTaken(ds, d.transactionId)
    requires d.status != SUCCESS && d.currency == "ETB" && d.gateway == CHAPA
    ensures TxIdsUnique(ds + [d]) && UnconfirmedAreChapa(ds + [d])
    ensures GetDashboardStats(ds + [d], cs) == GetDashboardStats(ds, cs)
  {
    UnsuccessfulIgnored(ds, cs, d);
  }

  // ---------------------------------------------------------------- verification

  /** The donation a confirmed verification of `txRef` acts on: the first with that reference,
      provided it is not SUCCESS yet. */
  function ToConfirm(ds: seq<Donation>, txRef: string): (r: Option<nat>)
    ensures r.Some? ==> r.value < |ds| && ds[r.value].transactionId == txRef && ds[r.value].status != SUCCESS
    ensures TxIdsUnique(ds) && r.None? ==>
              forall i :: 0 <= i < |ds| && ds[i].transactionId == txRef ==> ds[i].status == SUCCESS
  {
    match FindFirst(ds, HasTxId(txRef))
    case Some(i) => if ds[i].status != SUCCESS then Some(i) else None
    case None => None
  }

  /** The effect of `process_verification` when the gateway reports success. */
  function Verify(l: Ledger, txRef: string): (r: Ledger)
    ensures |r.donations| == |l.donations| && |r.campaigns| == |l.campaigns|
    ensures forall i :: 0 <= i < |l.donations| ==>
              r.donations[i] == (if Some(i) == ToConfirm(l.donations, txRef)
                                 then l.donations[i].(status := SUCCESS) else l.donations[i])
    ensures forall k :: 0 <= k < |l.campaigns| ==>
              r.campaigns[k] == l.campaigns[k].(raisedEtb := r.campaigns[k].raisedEtb)
  {
    match ToConfirm(l.donations, txRef)
    case None => l
    case Some(i) =>
      var d := l.donations[i];
      var ds := l.donations[i := d.(status := SUCCESS)];
      if !Truthy(d.campaignId) then Ledger(ds, l.campaigns)
      else
        match FindFirst(l.campaigns, HasCampaignId(d.campaignId.value))
        case None => Ledger(ds, l.campaigns)
        case Some(k) =>
          Ledger(ds, l.campaigns[k := l.campaigns[k].(raisedEtb := l.campaigns[k].raisedEtb + d.amount)])
  }

  /** The state after a reply: only a reply whose status is "success" changes anything. */
  function AfterReply(l: Ledger, txRef: string, reply: VerifyReply): Ledger
  {
    if reply.VerifyAnswer? && reply.status == Some("success") then Verify(l, txRef) else l
  }

  /** No double crediting: verifying the same reference again changes nothing. */
  lemma VerifyIdempotent(l: Ledger, txRef: string)
    ensures Verify(Verify(l, txRef), txRef) == Verify(l, txRef)
  {
    var l' := Verify(l, txRef);
    match FindFirst(l.donations, HasTxId(txRef))
    case None =>
      assert FindFirst(l'.donations, HasTxId(txRef)).None?;
    case Some(i) =>
      assert FindFirst(l'.donations, HasTxId(txRef)) == Some(i);
  }

  /** An unknown reference, or one whose donation is already SUCCESS, leaves every record as it was. */
  lemma VerifyUnknownOrConfirmed(l: Ledger, txRef: string)
    requires TxIdsUnique(l.donations)
    requires forall i :: 0 <= i < |l.donations| && l.donations[i].transactionId == txRef
                         ==> l.donations[i].status == SUCCESS
    ensures Verify(l, txRef) == l
  {
  }

  /** The credited amount is exactly the donation's: the ETB totals of all campaigns together grow by
      the amount when the donation is linked to an existing campaign, and by nothing otherwise. */
  function SumRaisedEtb(cs: seq<Campaign>): int
  {
    if cs == [] then 0 else SumRaisedEtb(cs[..|cs| - 1]) + cs[|cs| - 1].raisedEtb
  }

  lemma {:induction false} SumRaisedEtbUpdate(cs: seq<Campaign>, k: nat, c: Campaign)
    requires k < |cs|
    ensures SumRaisedEtb(cs[k := c]) == SumRaisedEtb(cs) - cs[k].raisedEtb + c.raisedEtb
    decreases |cs|
  {
    var cs' := cs[k := c];
    if k == |cs| - 1 {
      assert cs'[..|cs'| - 1] == cs[..|cs| - 1];
    } else {
      assert cs'[..|cs'| - 1] == cs[..|cs| - 1][k := c];
      SumRaisedEtbUpdate(cs[..|cs| - 1], k, c);
    }
  }

  lemma VerifyCreditsAmount(l: Ledger, txRef: string)
    requires CampaignsUnique(l.campaigns)
    ensures var l' := Verify(l, txRef);
      match ToConfirm(l.donations, txRef)
      case None => SumRaisedEtb(l'.campaigns) == SumRaisedEtb(l.campaigns)
      case Some(i) =>
        var d := l.donations[i];
        SumRaisedEtb(l'.campaigns) == SumRaisedEtb(l.campaigns)
          + (if Truthy(d.campaignId) && exists k :: 0 <= k < |l.campaigns| && l.campaigns[k].id == d.campaignId.value
             then d.amount else 0)
  {
    match ToConfirm(l.donations, txRef)
    case None =>
    case Some(i) =>
      var d := l.donations[i];
      if Truthy(d.campaignId) {
        match FindFirst(l.campaigns, HasCampaignId(d.campaignId.value))
        case None =>
          assert Verify(l, txRef).campaigns == l.campaigns;
        case Some(k) =>
          var c := l.campaigns[k].(raisedEtb := l.campaigns[k].raisedEtb + d.amount);
          assert Verify(l, txRef).campaigns == l.campaigns[k := c];
          assert l.campaigns[k].id == d.campaignId.value;
          SumRaisedEtbUpdate(l.campaigns, k, c);
      } else {
        assert Verify(l, txRef).campaigns == l.campaigns;
      }
  }

  /** The filter of a campaign's ETB takings. */
  function EtbFor(id: string): Donation -> bool {
    (d: Donation) => d.status == SUCCESS && d.currency == "ETB" && d.campaignId == Some(id)
  }

  /** Every campaign's `current_raised_etb` equals the sum of its confirmed ETB donations. */
  ghost predicate EtbConsistent(l: Ledger) {
    forall k :: 0 <= k < |l.campaigns| ==> l.campaigns[k].raisedEtb == Raised(l.donations, EtbFor(l.campaigns[k].id))
  }

  /** Crediting keeps each campaign's ETB total equal to its confirmed ETB donations, because only
      Chapa records, all in ETB, are ever confirmed. */
  lemma VerifyKeepsEtbConsistent(l: Ledger, txRef: string)
    requires EtbConsistent(l) && UnconfirmedAreChapa(l.donations)
    requires CampaignsUnique(l.campaigns) && CampaignIdsPresent(l.campaigns)
    ensures EtbConsistent(Verify(l, txRef))
  {
    var l' := Verify(l, txRef);
    match ToConfirm(l.donations, txRef)
    case None =>
    case Some(i) =>
      var d := l.donations[i];
      var d' := d.(status := SUCCESS);
      assert l'.donations == l.donations[i := d'];
      forall k | 0 <= k < |l'.campaigns|
        ensures l'.campaigns[k].raisedEtb == Raised(l'.donations, EtbFor(l'.campaigns[k].id))
      {
        RaisedUpdate(l.donations, i, d', EtbFor(l.campaigns[k].id));
        if Truthy(d.campaignId) {
          match FindFirst(l.campaigns, HasCampaignId(d.campaignId.value))
          case None =>
          case Some(m) =>
            if k != m {
              assert l.campaigns[k].id != l.campaigns[m].id;
            }
        }
      }
  }

  /** On the dashboard, a confirmation adds one to the count and the amount to the ETB total, and
      leaves the USD total alone; a verification that confirms nothing changes no statistic. */
  lemma VerifyOnDashboard(l: Ledger, txRef: string)
    requires UnconfirmedAreChapa(l.donations)
    ensures var before, after := GetDashboardStats(l.donations, l.campaigns),
                                 GetDashboardStats(Verify(l, txRef).donations, Verify(l, txRef).campaigns);
      && after.totalRaisedUsd == before.totalRaisedUsd
      && after.activeCampaigns == before.activeCampaigns
      && match ToConfirm(l.donations, txRef)
         case None => after == before
         case Some(i) =>
           && after.totalRaisedEtb == before.totalRaisedEtb + l.donations[i].amount
           && after.totalDonationsCount == before.totalDonationsCount + 1
  {
    match ToConfirm(l.donations, txRef)
    case None =>
    case Some(i) =>
      var d' := l.donations[i].(status := SUCCESS);
      assert Verify(l, txRef).donations == l.donations[i := d'];
      RaisedUpdate(l.donations, i, d', SuccessIn("USD"));
      RaisedUpdate(l.donations, i, d', SuccessIn("ETB"));
      FilterUpdateLength(l.donations, i, d', IsSuccess);
  }

  /** Verification keeps the unique constraints and the fact that only Chapa records await
      confirmation. */
  lemma VerifyKeepsInvariants(l: Ledger, txRef: string)
    requires TxIdsUnique(l.donations) && CampaignsUnique(l.campaigns) && UnconfirmedAreChapa(l.donations)
    ensures var l' := Verify(l, txRef);
      TxIdsUnique(l'.donations) && CampaignsUnique(l'.campaigns) && UnconfirmedAreChapa(l'.donations)
  {
  }

  /** `process_verification`: ask the gateway, and on "success" confirm and credit. A raising
      gateway call is re-raised before anything changes. Returns the reply's status. */
  method ProcessVerification(db: Db, txRef: string, reply: VerifyReply) returns (r: Outcome<Option<string>>)
    requires db.Valid() && UnconfirmedAreChapa(db.donations)
    modifies db`donations, db`campaigns
    ensures db.Valid() && UnconfirmedAreChapa(db.donations)
    ensures reply.VerifyRaised? ==> r == Raise(OtherException)
    ensures reply.VerifyAnswer? ==> r == Ok(reply.status)
    ensures Ledger(db.donations, db.campaigns) == AfterReply(old(Ledger(db.donations, db.campaigns)), txRef, reply)
  {
    ghost var before := Ledger(db.donations, db.campaigns);
    VerifyKeepsInvariants(before, txRef);
    if reply.VerifyRaised? {
      return Raise(OtherException);
    }
    if reply.status == Some("success") {
      var found := FindFirst(db.donations, HasTxId(txRef));
      if found.Some? && db.donations[found.value].status != SUCCESS {
        var donation := db.donations[found.value];
        db.donations := db.donations[found.value := donation.(status := SUCCESS)];
        if Truthy(donation.campaignId) {
          var campaign := FindFirst(db.campaigns, HasCampaignId(donation.campaignId.value));
          if campaign.Some? {
            var k := campaign.value;
            db.campaigns := db.campaigns[k := db.campaigns[k].(raisedEtb := db.campaigns[k].raisedEtb + donation.amount)];
          }
        }
      }
    }
    r := Ok(reply.status);
  }

  /** `verify_chapa_payment`: the verification endpoint; a raising gateway call becomes 500. */
  method VerifyChapaPayment(db: Db, txRef: string, reply: VerifyReply) returns (r: Outcome<Option<string>>)
    requires db.Valid() && UnconfirmedAreChapa(db.donations)
    modifies db`donations, db`campaigns
    ensures db.Valid() && UnconfirmedAreChapa(db.donations)
    ensures r.Raise? <==> reply.VerifyRaised?
    ensures r.Raise? ==> StatusOf(r.error) == 500
    ensures reply.VerifyAnswer? ==> r == Ok(reply.status)
    ensures Ledger(db.donations, db.campaigns) == AfterReply(old(Ledger(db.donations, db.campaigns)), txRef, reply)
  {
    r := ProcessVerification(db, txRef, reply);
  }

  /** `chapa_webhook`. `expectedSignature` is the HMAC-SHA256 hex digest of the body under the
      secret; `event` is the parsed body, or None when it is not a JSON object. */
  method ChapaWebhook(db: Db, secret: string, signature: Option<string>, expectedSignature: string,
                      event: Option<WebhookEvent>, reply: VerifyReply)
    returns (r: Outcome<string>)
    requires db.Valid() && UnconfirmedAreChapa(db.donations)
    modifies db`donations, db`campaigns
    ensures db.Valid() && UnconfirmedAreChapa(db.donations)
    ensures secret != "" && signature != Some(expectedSignature) ==>
              r == Raise(HttpException(403, Some("Invalid signature"))) && unchanged(db)
    ensures (secret == "" || signature == Some(expectedSignature)) && event.None? ==>
              r == Raise(HttpException(400, Some("Invalid payload"))) && unchanged(db)
    ensures (secret == "" || signature == Some(expectedSignature)) && event.Some? ==>
              if event.value.status == Some("success") && Truthy(event.value.txRef) then
                if reply.VerifyRaised? then r == Raise(HttpException(400, Some("Invalid payload"))) && unchanged(db)
                else r == Ok("ok") && Ledger(db.donations, db.campaigns)
                       == AfterReply(old(Ledger(db.donations, db.campaigns)), event.value.txRef.value, reply)
              else r == Ok("ok") && unchanged(db)
  {
    if secret != "" && signature != Some(expectedSignature) {
      return Raise(HttpException(403, Some("Invalid signature")));
    }
    if event.None? {
      return Raise(HttpException(400, Some("Invalid payload")));
    }
    var e := event.value;
    if e.status == Some("success") && Truthy(e.txRef) {
      var v := ProcessVerification(db, e.txRef.value, reply);
      if v.Raise? {
        return Raise(HttpException(400, Some("Invalid payload")));
      }
    }
    r := Ok("ok");
  }
}
