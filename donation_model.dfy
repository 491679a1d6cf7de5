/** The donation record, its two enumerations and the `campaign_title` property
    (backend/app/models/donation.py). */
module DonationModel {
  import opened Common
  import opened Models

  datatype PaymentGateway = STRIPE | CHAPA

  datatype DonationStatus = PENDING | SUCCESS | FAILED

  /** The string each gateway member stands for (`str` enum values). */
  function GatewayName(g: PaymentGateway): (s: string)
    ensures s == "STRIPE" || s == "CHAPA"
  {
    match g
    case STRIPE => "STRIPE"
    case CHAPA => "CHAPA"
  }

  function StatusName(st: DonationStatus): (s: string)
    ensures s == "PENDING" || s == "SUCCESS" || s == "FAILED"
  {
    match st
    case PENDING => "PENDING"
    case SUCCESS => "SUCCESS"
    case FAILED => "FAILED"
  }

  /** `PaymentGateway(s)`: the member whose value is `s`, if any. */
  function ParseGateway(s: string): (r: Option<PaymentGateway>)
    ensures r.Some? <==> (s == "STRIPE" || s == "CHAPA")
    ensures r.Some? ==> GatewayName(r.value) == s
  {
    if s == "STRIPE" then Some(STRIPE) else if s == "CHAPA" then Some(CHAPA) else None
  }

  /** `DonationStatus(s)`: the member whose value is `s`, if any. */
  function ParseStatus(s: string): (r: Option<DonationStatus>)
    ensures r.Some? <==> (s == "PENDING" || s == "SUCCESS" || s == "FAILED")
    ensures r.Some? ==> StatusName(r.value) == s
  {
    if s == "PENDING" then Some(PENDING)
    else if s == "SUCCESS" then Some(SUCCESS)
    else if s == "FAILED" then Some(FAILED)
    else None
  }

  /** The enumerations are exactly the listed members: every member's name parses back to it. */
  lemma NamesRoundTrip(g: PaymentGateway, st: DonationStatus)
    ensures ParseGateway(GatewayName(g)) == Some(g)
    ensures ParseStatus(StatusName(st)) == Some(st)
  {
  }

  datatype Donation = Donation(
    campaignId: Option<string>,
    donorName: Option<string>,
    donorEmail: Option<string>,
    amount: int,
    currency: string,
    gateway: PaymentGateway,
    transactionId: string,
    status: DonationStatus)

  /** The status a new row gets when none is given: the column default. */
  const DefaultStatus: DonationStatus := PENDING

  /** A donation built the way the model's constructor is called without a status. */
  function NewDonation(campaignId: Option<string>, donorName: Option<string>, donorEmail: Option<string>,
                       amount: int, currency: string, gateway: PaymentGateway, txId: string): (d: Donation)
    ensures d.status == PENDING
    ensures d.transactionId == txId && d.amount == amount && d.currency == currency
    ensures d.campaignId == campaignId && d.gateway == gateway
  {
    Donation(campaignId, donorName, donorEmail, amount, currency, gateway, txId, DefaultStatus)
  }

  /** The `transaction_id` column is declared unique. */
  ghost predicate TxIdsUnique(ds: seq<Donation>) {
    forall i, j :: 0 <= i < j < |ds| ==> ds[i].transactionId != ds[j].transactionId
  }

  const GeneralDonation := "General Donation"

  /** `campaign_title`: the linked campaign's title, or "General Donation" without one. */
  function CampaignTitle(d: Donation, campaigns: seq<Campaign>): (t: string)
    ensures d.campaignId.None? ==> t == GeneralDonation
    ensures d.campaignId.Some? && (exists k :: 0 <= k < |campaigns| && campaigns[k].id == d.campaignId.value)
            ==> exists k :: 0 <= k < |campaigns| && campaigns[k].id == d.campaignId.value && t == campaigns[k].title
    ensures d.campaignId.Some? && (forall k :: 0 <= k < |campaigns| ==> campaigns[k].id != d.campaignId.value)
            ==> t == GeneralDonation
  {
    if d.campaignId.None? then GeneralDonation
    else
      match FindFirst(campaigns, (c: Campaign) => c.id == d.campaignId.value)
      case Some(k) => campaigns[k].title
      case None => GeneralDonation
  }

  /** The `transaction_id == tx` filter. */
  function HasTxId(tx: string): Donation -> bool {
    (d: Donation) => d.transactionId == tx
  }

  /** The campaign lookup both payment endpoints perform before recording a donation: the id
      of the first campaign titled exactly as requested, and only when a title is given. */
  function LinkedCampaign(cs: seq<Campaign>, title: Option<string>): (r: Option<string>)
    ensures r.Some? <==> Truthy(title) && exists k :: 0 <= k < |cs| && cs[k].title == title.value
    ensures r.Some? ==> exists k :: 0 <= k < |cs| && cs[k].title == title.value && cs[k].id == r.value
  {
    if !Truthy(title) then None
    else
      match FindFirst(cs, HasTitle(title.value))
      case Some(k) => Some(cs[k].id)
      case None => None
  }

  /** The two tables the payment flows read and write together. */
  datatype Ledger = Ledger(donations: seq<Donation>, campaigns: seq<Campaign>)

  /** Only the Chapa flow records a donation that is not yet SUCCESS, always in ETB. */
  ghost predicate UnconfirmedAreChapa(ds: seq<Donation>) {
    forall i :: 0 <= i < |ds| && ds[i].status != SUCCESS ==> ds[i].currency == "ETB" && ds[i].gateway == CHAPA
  }

  /** Campaign ids are generated uuids, never the empty string the truthiness checks exclude. */
  ghost predicate CampaignIdsPresent(cs: seq<Campaign>) {
    forall k :: 0 <= k < |cs| ==> cs[k].id != ""
  }
}
