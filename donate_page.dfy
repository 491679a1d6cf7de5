/** The public donation page (frontend/app/donate/page.tsx): the listener that verifies a
    Chapa payment the browser was sent back from, the dialog it opens, and the campaign
    progress bars. The backend's replies are inputs. */
module DonatePage {
  import opened Common
  import opened Models
  import opened UrlEncoding
  import ChapaEndpoint
  import DonationModal

  // ---------------------------------------------------------------- the listener

  /** `searchParams.get(name)`: the value of the first pair with that name. */
  function Get(params: seq<(string, string)>, name: string): (v: Option<string>)
    ensures v.Some? ==> exists k :: 0 <= k < |params| && params[k] == (name, v.value)
    ensures v.None? <==> forall k :: 0 <= k < |params| ==> params[k].0 != name
  {
    if params == [] then None
    else if params[0].0 == name then Some(params[0].1)
    else Get(params[1..], name)
  }

  /** What the listener does on a page load: nothing, or verify `txRef` and then report success
      for `campaign`. */
  datatype ListenerAction = Ignore | VerifyThenSucceed(txRef: string, campaign: Option<string>)

  /** `searchParams.get("campaign") || undefined`: an empty title counts as none. */
  function CampaignParam(params: seq<(string, string)>): (c: Option<string>)
    ensures c.Some? ==> c.value != "" && Get(params, "campaign") == c
    ensures c.None? <==> !Truthy(Get(params, "campaign"))
  {
    var c := Get(params, "campaign");
    if Truthy(c) then c else None
  }

  /** The listener acts exactly when `redirect_status` is "succeeded" and `tx_ref` is present
      and not empty. */
  function Decide(params: seq<(string, string)>): (a: ListenerAction)
    ensures a.VerifyThenSucceed? <==>
      Get(params, "redirect_status") == Some("succeeded") && Truthy(Get(params, "tx_ref"))
    ensures a.VerifyThenSucceed? ==>
      a.txRef == Get(params, "tx_ref").value && a.campaign == CampaignParam(params)
  {
    var status := Get(params, "redirect_status");
    var txRef := Get(params, "tx_ref");
    if status == Some("succeeded") && Truthy(txRef) then VerifyThenSucceed(txRef.value, CampaignParam(params))
    else Ignore
  }

  /** The return URL the backend gives Chapa brings the browser back to a listener that
      verifies that very reference and reports success for that very campaign (none when the
      payment had no title). */
  lemma ChapaReturnIsVerified(frontendUrl: string, txRef: string, campaignTitle: Option<string>)
    requires txRef != ""
    ensures var u := ChapaEndpoint.ReturnUrl(frontendUrl, txRef, campaignTitle);
      Decide(ParseQuery(u[|frontendUrl + "/donate?"|..]))
      == VerifyThenSucceed(txRef, if Truthy(campaignTitle) then campaignTitle else None)
  {
    ChapaEndpoint.ReturnUrlCarriesParams(frontendUrl, txRef, campaignTitle);
    DecideReturnParams(txRef, if Truthy(campaignTitle) then campaignTitle.value else "");
  }

  /** The three parameters of a return URL trigger verification of the reference, with the
      title when it is not empty. */
  lemma DecideReturnParams(txRef: string, title: string)
    requires txRef != ""
    ensures Decide([("redirect_status", "succeeded"), ("tx_ref", txRef), ("campaign", title)])
      == VerifyThenSucceed(txRef, if title != "" then Some(title) else None)
  {
    var ps := [("redirect_status", "succeeded"), ("tx_ref", txRef), ("campaign", title)];
    assert ps[1..][1..] == [("campaign", title)];
    assert "redirect_status"[0] != "tx_ref"[0];
    assert Get(ps, "tx_ref") == Some(txRef);
    assert "redirect_status"[0] != "campaign"[0] && "tx_ref"[0] != "campaign"[0];
    assert Get(ps[1..][1..], "campaign") == Some(title);
  }

  // ---------------------------------------------------------------- the page state

  /** The page's dialog state, the listener's spinner and the current path. */
  class Page {
    var isModalOpen: bool
    var isSuccessModal: bool
    var selectedCampaign: Option<string>
    var verifying: bool
    var path: string

    constructor (path: string)
      ensures !isModalOpen && !isSuccessModal && selectedCampaign == None && !verifying
      ensures this.path == path
    {
      isModalOpen := false;
      isSuccessModal := false;
      selectedCampaign := None;
      verifying := false;
      this.path := path;
    }

    /** The view the dialog shows, when it is open. */
    function DialogView(clientSecret: Option<string>): (v: Option<DonationModal.View>)
      reads this
      ensures v.Some? <==> isModalOpen
      ensures v.Some? ==> (v.value == DonationModal.SuccessView <==> isSuccessModal)
    {
      if isModalOpen then Some(DonationModal.ViewOf(isSuccessModal, clientSecret)) else None
    }

    /** "Donate now": the dialog opens on its options for `campaignTitle`. */
    method OpenDonationModal(campaignTitle: Option<string>)
      modifies this`selectedCampaign, this`isSuccessModal, this`isModalOpen
      ensures selectedCampaign == campaignTitle && !isSuccessModal && isModalOpen
    {
      selectedCampaign := campaignTitle;
      isSuccessModal := false;
      isModalOpen := true;
    }

    /** The listener's callback: the dialog opens on its thank-you view. */
    method HandlePaymentSuccess(campaignTitle: Option<string>)
      modifies this`selectedCampaign, this`isSuccessModal, this`isModalOpen
      ensures selectedCampaign == campaignTitle && isSuccessModal && isModalOpen
    {
      selectedCampaign := campaignTitle;
      isSuccessModal := true;
      isModalOpen := true;
    }

    method CloseModal()
      modifies this`isModalOpen
      ensures !isModalOpen
    {
      isModalOpen := false;
    }

    /** `verifyChapa`. `params` are the page's query parameters; the answer is the reference
        whose verification was requested, if any. Whether that request succeeds does not matter:
        on both paths the thank-you dialog opens, the address is reset to "/donate" and the
        spinner stops. */
    method VerifyChapa(params: seq<(string, string)>, verified: bool) returns (requested: Option<string>)
      modifies this
      ensures Decide(params) == Ignore ==>
        requested == None && isModalOpen == old(isModalOpen) && isSuccessModal == old(isSuccessModal)
        && selectedCampaign == old(selectedCampaign) && verifying == old(verifying) && path == old(path)
      ensures Decide(params).VerifyThenSucceed? ==>
        && requested == Some(Decide(params).txRef)
        && isModalOpen && isSuccessModal && selectedCampaign == Decide(params).campaign
        && path == "/donate" && !verifying
    {
      var status := Get(params, "redirect_status");
      var txRef := Get(params, "tx_ref");
      if status == Some("succeeded") && Truthy(txRef) {
        verifying := true;
        requested := Some(txRef.value);
        var campaign := CampaignParam(params);
        if verified {
          HandlePaymentSuccess(campaign);
        } else {
          HandlePaymentSuccess(campaign);
        }
        path := "/donate";
        verifying := false;
      } else {
        requested := None;
      }
    }
  }

  /** Coming back from a Chapa payment shows the thank-you view for the payment's campaign,
      whether or not the verification request succeeded. */
  method ReturnFromChapa(page: Page, params: seq<(string, string)>, verified: bool, clientSecret: Option<string>)
    requires Decide(params).VerifyThenSucceed?
    modifies page
    ensures page.DialogView(clientSecret) == Some(DonationModal.SuccessView)
    ensures page.selectedCampaign == Decide(params).campaign
  {
    var _ := page.VerifyChapa(params, verified);
  }

  // ---------------------------------------------------------------- progress

  /** `Math.min(100, ((raised || 0) / (goal || 1)) * 100)`: the bar's width in percent. The page
      divides major units (dollars, birr), so a goal of 0 is read as one major unit, 100 minor
      units here. */
  function Progress(raised: int, goal: int): (w: real)
    ensures w <= 100.0
    ensures goal > 0 && raised >= 0 ==> 0.0 <= w
    ensures goal > 0 ==> (w == 100.0 <==> raised >= goal)
    ensures goal > 0 && raised < goal ==> w == (raised as real) * 100.0 / (goal as real)
    ensures goal == 0 ==> w == if raised >= 100 then 100.0 else raised as real
  {
    var g := if goal == 0 then 100 else goal;
    var p := (raised as real) / (g as real) * 100.0;
    assert g > 0 ==> (p < 100.0 <==> raised < g) && p == (raised as real) * 100.0 / (g as real) by {
      if g > 0 {
        RatioBelowHundred(raised as real, g as real);
      }
    }
    if p < 100.0 then p else 100.0
  }

  /** The percentage is below 100 exactly when the amount is below the goal. */
  lemma RatioBelowHundred(r: real, g: real)
    requires g > 0.0
    ensures r / g * 100.0 < 100.0 <==> r < g
    ensures r / g * 100.0 == r * 100.0 / g
  {
    var q := r / g;
    assert q * g == r;
    if r < g {
      assert q < 1.0;
    } else {
      assert q >= 1.0;
    }
  }

  /** The campaign's two bars (the dollar bar and the birr bar), each its raised total against its
      goal. Both amounts are in the same minor unit, so a positive goal gives the same ratio as
      the page's major units. */
  function UsdProgress(c: Campaign): (w: real)
    ensures w <= 100.0
    ensures c.goalUsd > 0 ==> (w == 100.0 <==> c.raisedUsd >= c.goalUsd)
  {
    Progress(c.raisedUsd, c.goalUsd)
  }

  function EtbProgress(c: Campaign): (w: real)
    ensures w <= 100.0
    ensures c.goalEtb > 0 ==> (w == 100.0 <==> c.raisedEtb >= c.goalEtb)
  {
    Progress(c.raisedEtb, c.goalEtb)
  }

  /** A campaign over its goal shows a full bar, not a longer one. */
  lemma ProgressCapped(c: Campaign)
    requires c.goalUsd > 0 && c.raisedUsd >= c.goalUsd
    ensures UsdProgress(c) == 100.0
  {
  }
}
