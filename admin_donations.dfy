/** The admin donation history (frontend/app/admin/donations/page.tsx): the campaign filter and
    the request it makes, the two currency totals, and what each row shows and offers. The
    backend's replies are inputs. */
module AdminDonations {
  import opened Common
  import opened Models
  import opened UrlEncoding
  import opened DonationModel
  import ApiClient
  import DonationEndpoint

  /** A donation as the page receives it. Amounts are JSON numbers, read here as exact reals. */
  datatype Row = Row(
    id: string,
    amount: real,
    currency: string,
    donorName: Option<string>,
    donorEmail: Option<string>,
    status: string,
    createdAt: string,
    paymentGateway: string,
    transactionId: Option<string>,
    campaignTitle: Option<string>)

  // ---------------------------------------------------------------- the campaign filter

  /** `selectedCampaign || undefined`: the empty choice ("All Campaigns") asks for no campaign. */
  function CampaignFilter(selected: string): (id: Option<string>)
    ensures id.None? <==> selected == ""
    ensures id.Some? ==> id.value == selected
  {
    if selected == "" then None else Some(selected)
  }

  /** The query of the list request carries `campaign_id` exactly when a campaign (or "general")
      is chosen, and then carries the choice itself. */
  lemma FilterReadsBack(selected: string)
    requires NoDelimiters(selected)
    ensures var items := Split(QueryOf(ApiClient.ListPairs(ApiClient.DefaultSkip, ApiClient.DefaultLimit,
                                                           "campaign_id", CampaignFilter(selected))), '&');
      && (|items| == 3 <==> selected != "") && |items| >= 2
      && (selected != "" ==> Split(items[2], '=') == ["campaign_id", selected])
  {
    CampaignIdKeyPlain();
    ApiClient.ListUrlReadsBack(ApiClient.DefaultSkip, ApiClient.DefaultLimit, "campaign_id", CampaignFilter(selected));
  }

  lemma CampaignIdKeyPlain()
    ensures NoDelimiters("campaign_id")
  {
  }

  // ---------------------------------------------------------------- the totals

  /** The USD total's filter: exactly 'USD' or 'usd'. It counts the upper-cased spelling the
      backend stores for a Stripe dollar payment, and nothing but spellings of "usd". */
  function IsUsd(currency: string): (b: bool)
    ensures currency == Upper("usd") ==> b
    ensures b ==> Lower(currency) == "usd"
  {
    assert Upper("usd") == "USD" by { UpperUsd(); }
    assert Lower("USD") == "usd" by {
      assert LowerChar('U') == 'u' && LowerChar('S') == 's' && LowerChar('D') == 'd';
    }
    assert Lower("usd") == "usd" by {
      assert LowerChar('u') == 'u' && LowerChar('s') == 's' && LowerChar('d') == 'd';
    }
    currency == "USD" || currency == "usd"
  }

  /** The ETB total's filter: exactly 'ETB' or 'etb'; no currency is counted in both totals. */
  function IsEtb(currency: string): (b: bool)
    ensures b ==> Lower(currency) == "etb" && !IsUsd(currency)
  {
    assert Lower("ETB") == "etb" by {
      assert LowerChar('E') == 'e' && LowerChar('T') == 't' && LowerChar('B') == 'b';
    }
    assert Lower("etb") == "etb" by {
      assert LowerChar('e') == 'e' && LowerChar('t') == 't' && LowerChar('b') == 'b';
    }
    assert "ETB"[0] != "USD"[0] && "ETB"[0] != "usd"[0] && "etb"[0] != "USD"[0] && "etb"[0] != "usd"[0];
    currency == "ETB" || currency == "etb"
  }

  /** `reduce((acc, curr) => acc + curr.amount, 0)`, folding from the left. */
  function SumAmounts(rows: seq<Row>): real {
    if rows == [] then 0.0 else SumAmounts(rows[..|rows| - 1]) + rows[|rows| - 1].amount
  }

  /** `totalUsd`: the amounts of the USD rows; a list with no USD row totals 0. */
  function UsdTotal(rows: seq<Row>): (t: real)
    ensures (forall i :: 0 <= i < |rows| ==> !IsUsd(rows[i].currency)) ==> t == 0.0
  {
    var f := Filter(rows, (r: Row) => IsUsd(r.currency));
    assert (forall i :: 0 <= i < |rows| ==> !IsUsd(rows[i].currency)) ==> f == [] by {
      if f != [] {
        assert f[0] in rows && IsUsd(f[0].currency);
      }
    }
    SumAmounts(f)
  }

  /** `totalEtb`: the amounts of the ETB rows; a list with no ETB row totals 0. */
  function EtbTotal(rows: seq<Row>): (t: real)
    ensures (forall i :: 0 <= i < |rows| ==> !IsEtb(rows[i].currency)) ==> t == 0.0
  {
    var f := Filter(rows, (r: Row) => IsEtb(r.currency));
    assert (forall i :: 0 <= i < |rows| ==> !IsEtb(rows[i].currency)) ==> f == [] by {
      if f != [] {
        assert f[0] in rows && IsEtb(f[0].currency);
      }
    }
    SumAmounts(f)
  }

  /** What neither total counts: every other spelling of a currency. */
  function UncountedTotal(rows: seq<Row>): real {
    SumAmounts(Filter(rows, (r: Row) => !IsUsd(r.currency) && !IsEtb(r.currency)))
  }

  /** One more row adds its amount to the total of its currency, to no other, and to neither
      when it is spelled otherwise. */
  lemma TotalsAppend(rows: seq<Row>, r: Row)
    ensures !(IsUsd(r.currency) && IsEtb(r.currency))
    ensures UsdTotal(rows + [r]) == UsdTotal(rows) + (if IsUsd(r.currency) then r.amount else 0.0)
    ensures EtbTotal(rows + [r]) == EtbTotal(rows) + (if IsEtb(r.currency) then r.amount else 0.0)
    ensures UncountedTotal(rows + [r]) ==
      UncountedTotal(rows) + (if !IsUsd(r.currency) && !IsEtb(r.currency) then r.amount else 0.0)
  {
    var usd := (x: Row) => IsUsd(x.currency);
    var etb := (x: Row) => IsEtb(x.currency);
    var other := (x: Row) => !IsUsd(x.currency) && !IsEtb(x.currency);
    FilterAppend(rows, [r], usd);
    FilterAppend(rows, [r], etb);
    FilterAppend(rows, [r], other);
    SumAppendOne(Filter(rows, usd), r);
    SumAppendOne(Filter(rows, etb), r);
    SumAppendOne(Filter(rows, other), r);
  }

  lemma SumAppendOne(rows: seq<Row>, r: Row)
    ensures SumAmounts(rows + [r]) == SumAmounts(rows) + r.amount
  {
    assert (rows + [r])[..|rows|] == rows;
  }

  /** The two totals and the uncounted rest split the sum of all amounts: no donation is counted
      twice. */
  lemma {:induction false} TotalsPartition(rows: seq<Row>)
    ensures UsdTotal(rows) + EtbTotal(rows) + UncountedTotal(rows) == SumAmounts(rows)
    decreases |rows|
  {
    if rows != [] {
      var init, last := rows[..|rows| - 1], rows[|rows| - 1];
      assert init + [last] == rows;
      TotalsPartition(init);
      TotalsAppend(init, last);
      assert SumAmounts(rows) == SumAmounts(init) + last.amount;
    }
  }

  // ---------------------------------------------------------------- the amount cell

  /** The prefix of the amount as the page writes it: '$' only for a currency spelled exactly
      'usd', 'ETB ' for everything else. */
  function AmountPrefixAsWritten(currency: string): (p: string)
    ensures p == "$" <==> currency == "usd"
    ensures p != "$" ==> p == "ETB "
  {
    if currency == "usd" then "$" else "ETB "
  }

  /** The backend records a Stripe payment with the intent's currency upper-cased, so a dollar
      payment is stored as 'USD': the page counts it in the USD total but prints it as ETB. */
  lemma StripeDollarsShownAsEtb(req: DonationEndpoint.StripeVerifyRequest, intent: DonationEndpoint.IntentReply,
                                cs: seq<Campaign>)
    requires intent.Intent? && intent.currency == "usd"
    ensures var d := DonationEndpoint.StripeDonation(req, intent, cs);
      IsUsd(d.currency) && AmountPrefixAsWritten(d.currency) == "ETB "
  {
    UpperUsd();
  }

  lemma UpperUsd()
    ensures Upper("usd") == "USD"
  {
    assert UpperChar('u') == 'U' && UpperChar('s') == 'S' && UpperChar('d') == 'D';
  }

  /** The prefix the page evidently means: '$' for exactly the rows its USD total counts. */
  function AmountPrefix(currency: string): (p: string)
    ensures p == "$" <==> IsUsd(currency)
    ensures p != "$" ==> p == "ETB "
  {
    if IsUsd(currency) then "$" else "ETB "
  }

  /** With the corrected prefix, every payment the backend records shows in its own currency:
      Stripe dollars (stored 'USD') with '$', Chapa birr (stored 'ETB') with 'ETB '; and a row
      shows '$' exactly when the USD total counts it. */
  lemma StoredCurrenciesShownRight(req: DonationEndpoint.StripeVerifyRequest, intent: DonationEndpoint.IntentReply,
                                   cs: seq<Campaign>, rows: seq<Row>, i: nat)
    requires intent.Intent? && intent.currency == "usd"
    requires i < |rows|
    ensures AmountPrefix(DonationEndpoint.StripeDonation(req, intent, cs).currency) == "$"
    ensures AmountPrefix("ETB") == "ETB "
    ensures AmountPrefix(rows[i].currency) == "$" <==> rows[i] in Filter(rows, (r: Row) => IsUsd(r.currency))
  {
    UpperUsd();
  }

  // ---------------------------------------------------------------- the other cells

  /** `campaign_title || "General Donation"`. */
  function CampaignLabel(title: Option<string>): (l: string)
    ensures Truthy(title) ==> l == title.value
    ensures !Truthy(title) ==> l == GeneralDonation
  {
    if Truthy(title) then title.value else GeneralDonation
  }

  /** The label is highlighted when a title is present and is not "General Donation": exactly
      when the label shown names something other than the general fund. */
  function Highlighted(title: Option<string>): (b: bool)
    ensures b <==> CampaignLabel(title) != GeneralDonation
  {
    Truthy(title) && title.value != GeneralDonation
  }

  /** A label is highlighted exactly when it names something other than the general fund, and a
      donation the backend links to no campaign is never highlighted. */
  lemma HighlightedIffNamed(title: Option<string>, d: Donation, cs: seq<Campaign>)
    ensures Highlighted(title) <==> CampaignLabel(title) != GeneralDonation
    ensures d.campaignId.None? ==> !Highlighted(Some(CampaignTitle(d, cs)))
  {
  }

  /** `donor_name || "Anonymous Donor"`. */
  function DonorLabel(name: Option<string>): (l: string)
    ensures Truthy(name) ==> l == name.value
    ensures !Truthy(name) ==> l == "Anonymous Donor"
  {
    if Truthy(name) then name.value else "Anonymous Donor"
  }

  /** `donor_email || "-"`. */
  function EmailLabel(email: Option<string>): (l: string)
    ensures Truthy(email) ==> l == email.value
    ensures !Truthy(email) ==> l == "-"
  {
    if Truthy(email) then email.value else "-"
  }

  // ---------------------------------------------------------------- the status cell

  datatype Badge = SuccessBadge | PendingBadge | FailedBadge

  /** The badge for a status: one of the three statuses, spelled exactly, or none. */
  function BadgeOf(status: string): (b: Option<Badge>)
    ensures b == Some(SuccessBadge) <==> status == "SUCCESS"
    ensures b == Some(PendingBadge) <==> status == "PENDING"
    ensures b == Some(FailedBadge) <==> status == "FAILED"
  {
    if status == "SUCCESS" then Some(SuccessBadge)
    else if status == "PENDING" then Some(PendingBadge)
    else if status == "FAILED" then Some(FailedBadge)
    else None
  }

  /** "Check Status" is offered beside a pending badge, for Chapa payments only. */
  function OffersCheckStatus(r: Row): (b: bool)
    ensures b ==> BadgeOf(r.status) == Some(PendingBadge)
  {
    r.status == "PENDING" && r.paymentGateway == "CHAPA"
  }

  /** Every status the backend can store gets its badge, and the button is offered for exactly
      the pending Chapa donations. */
  lemma BadgesCoverStatuses(d: Donation, r: Row)
    requires r.status == StatusName(d.status) && r.paymentGateway == GatewayName(d.gateway)
    ensures BadgeOf(r.status).Some?
    ensures OffersCheckStatus(r) <==> d.status == PENDING && d.gateway == CHAPA
    ensures OffersCheckStatus(r) ==> BadgeOf(r.status) == Some(PendingBadge)
  {
  }

  /** The answer to the verification request: its `status`, or the failure with the server's
      `detail` (if any) and the error's message. */
  datatype CheckReply = Answered(status: string) | Failed(detail: Option<string>, message: string)

  /** What a click does: the request sent (its path), the alert shown, whether the page reloads. */
  datatype CheckStep = CheckStep(request: Option<string>, alert: string, reload: bool)

  const VerifyPath := "/donate/chapa/verify/"

  /** The "Check Status" click. Without a transaction id nothing is requested; a reply of
      'success' reloads the page; any other status, or a failure, only alerts. */
  function CheckStatus(txRef: Option<string>, reply: CheckReply): (s: CheckStep)
    ensures s.request.Some? <==> Truthy(txRef)
    ensures s.request.Some? ==>
      StartsWith(s.request.value, VerifyPath) && s.request.value[|VerifyPath|..] == txRef.value
    ensures s.reload <==> Truthy(txRef) && reply == Answered("success")
    ensures !Truthy(txRef) ==> s.alert == "No transaction ID found"
    ensures Truthy(txRef) && reply.Answered? && reply.status != "success" ==>
      s.alert == "Verification checked but status is still: " + reply.status
    ensures Truthy(txRef) && reply.Failed? ==>
      s.alert == "Verification failed: " + (if Truthy(reply.detail) then reply.detail.value else reply.message)
  {
    if !Truthy(txRef) then CheckStep(None, "No transaction ID found", false)
    else
      var path := VerifyPath + txRef.value;
      assert path[..|VerifyPath|] == VerifyPath;
      match reply
      case Answered(status) =>
        if status == "success" then CheckStep(Some(path), "Verified Successfully! updating...", true)
        else CheckStep(Some(path), "Verification checked but status is still: " + status, false)
      case Failed(detail, message) =>
        CheckStep(Some(path), "Verification failed: " + (if Truthy(detail) then detail.value else message), false)
  }

  // ---------------------------------------------------------------- the page state

  /** The page's state. */
  class DonationsAdmin {
    var donations: seq<Row>
    var campaigns: seq<Campaign>
    var loading: bool
    var selectedCampaign: string

    constructor ()
      ensures donations == [] && campaigns == [] && loading && selectedCampaign == ""
    {
      donations := [];
      campaigns := [];
      loading := true;
      selectedCampaign := "";
    }

    /** `fetchData`: the donation list for the current choice and the campaign list, requested
        together; when either fails nothing but the spinner changes. The answer is the URL of
        the donation request. */
    method FetchData(result: Outcome<(seq<Row>, seq<Campaign>)>) returns (url: string)
      modifies this`donations, this`campaigns, this`loading
      ensures url == "/donate/?" + QueryOf(ApiClient.ListPairs(ApiClient.DefaultSkip, ApiClient.DefaultLimit,
                                                               "campaign_id", CampaignFilter(selectedCampaign)))
      ensures result.Ok? ==> donations == result.value.0 && campaigns == result.value.1
      ensures result.Raise? ==> donations == old(donations) && campaigns == old(campaigns)
      ensures !loading
    {
      loading := true;
      url := ApiClient.GetDonationsUrl(0, 100, if selectedCampaign != "" then Some(selectedCampaign) else None);
      if result.Ok? {
        donations := result.value.0;
        campaigns := result.value.1;
      }
      loading := false;
    }

    /** Choosing in the drop-down: the choice is stored and the lists are fetched again. */
    method SelectCampaign(value: string, result: Outcome<(seq<Row>, seq<Campaign>)>) returns (url: string)
      modifies this
      ensures selectedCampaign == value
      ensures url == "/donate/?" + QueryOf(ApiClient.ListPairs(ApiClient.DefaultSkip, ApiClient.DefaultLimit,
                                                               "campaign_id", CampaignFilter(value)))
      ensures result.Ok? ==> donations == result.value.0 && campaigns == result.value.1
      ensures result.Raise? ==> donations == old(donations) && campaigns == old(campaigns)
      ensures !loading
    {
      selectedCampaign := value;
      url := FetchData(result);
    }
  }
}
