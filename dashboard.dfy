/** The admin dashboard statistics (backend/app/api/v1/endpoints/dashboard.py):
    pure aggregates over the donation and campaign tables. */
module Dashboard {
  import opened Common
  import opened Models
  import opened DonationModel

  /** Sum of the amounts of the donations satisfying `p` (SQL `SUM(amount) ... or 0`). */
  function Raised(ds: seq<Donation>, p: Donation -> bool): int
  {
    if ds == [] then 0
    else Raised(ds[..|ds| - 1], p) + (if p(ds[|ds| - 1]) then ds[|ds| - 1].amount else 0)
  }

  predicate IsSuccess(d: Donation) { d.status == SUCCESS }

  /** The filter of the two currency totals: SUCCESS and the currency spelled exactly `cur`. */
  function SuccessIn(cur: string): Donation -> bool {
    (d: Donation) => d.status == SUCCESS && d.currency == cur
  }

  datatype Stats = Stats(
    totalRaisedUsd: int,
    totalRaisedEtb: int,
    activeCampaigns: nat,
    totalDonationsCount: nat,
    recentDonations: seq<Donation>)

  const RecentLimit: nat := 5

  /** `get_dashboard_stats`. The recent list is the last five SUCCESS donations, newest first:
      its i-th entry is the i-th SUCCESS donation counted back from the latest. */
  function GetDashboardStats(ds: seq<Donation>, cs: seq<Campaign>): (r: Stats)
    ensures r.activeCampaigns == |cs|
    ensures r.totalDonationsCount == |Filter(ds, IsSuccess)| <= |ds|
    ensures |r.recentDonations| == if r.totalDonationsCount < RecentLimit then r.totalDonationsCount else RecentLimit
    ensures forall i :: 0 <= i < |r.recentDonations| ==> r.recentDonations[i].status == SUCCESS
    ensures forall i :: 0 <= i < |r.recentDonations| ==>
      r.recentDonations[i] == Filter(ds, IsSuccess)[r.totalDonationsCount - 1 - i]
  {
    var successes := Filter(ds, IsSuccess);
    NewestOfSuccesses(successes);
    Stats(Raised(ds, SuccessIn("USD")), Raised(ds, SuccessIn("ETB")), |cs|, |successes|,
          Page(Reverse(successes), 0, RecentLimit))
  }

  /** The first `RecentLimit` of the reversed list are the latest entries, newest first. */
  lemma NewestOfSuccesses(successes: seq<Donation>)
    requires forall k :: 0 <= k < |successes| ==> IsSuccess(successes[k])
    ensures var recent := Page(Reverse(successes), 0, RecentLimit);
      && |recent| == (if |successes| < RecentLimit then |successes| else RecentLimit)
      && (forall i :: 0 <= i < |recent| ==> recent[i] == successes[|successes| - 1 - i])
      && (forall i :: 0 <= i < |recent| ==> recent[i].status == SUCCESS)
  {
    var recent := Page(Reverse(successes), 0, RecentLimit);
    forall i | 0 <= i < |recent|
      ensures recent[i] == successes[|successes| - 1 - i] && recent[i].status == SUCCESS
    {
      assert IsSuccess(successes[|successes| - 1 - i]);
    }
  }

  // ---------------------------------------------------------------- properties

  /** Adding a donation adds its amount to every total whose filter it passes. */
  lemma {:induction false} RaisedAppend(ds: seq<Donation>, es: seq<Donation>, p: Donation -> bool)
    ensures Raised(ds + es, p) == Raised(ds, p) + Raised(es, p)
    decreases |es|
  {
    if es == [] {
      assert ds + es == ds;
    } else {
      assert (ds + es)[..|ds + es| - 1] == ds + es[..|es| - 1];
      assert (ds + es)[|ds + es| - 1] == es[|es| - 1];
      RaisedAppend(ds, es[..|es| - 1], p);
    }
  }

  /** Replacing one donation changes a total by the difference of the two contributions. */
  lemma {:induction false} RaisedUpdate(ds: seq<Donation>, i: nat, e: Donation, p: Donation -> bool)
    requires i < |ds|
    ensures Raised(ds[i := e], p)
            == Raised(ds, p) - (if p(ds[i]) then ds[i].amount else 0) + (if p(e) then e.amount else 0)
    decreases |ds|
  {
    var ds' := ds[i := e];
    if i == |ds| - 1 {
      assert ds'[..|ds'| - 1] == ds[..|ds| - 1];
    } else {
      assert ds'[..|ds'| - 1] == ds[..|ds| - 1][i := e];
      RaisedUpdate(ds[..|ds| - 1], i, e, p);
    }
  }

  /** Replacing one donation by another that passes `p` exactly when the first did keeps the
      filtered list's length. */
  lemma {:induction false} FilterUpdateLength(ds: seq<Donation>, i: nat, e: Donation, p: Donation -> bool)
    requires i < |ds|
    ensures |Filter(ds[i := e], p)|
            == |Filter(ds, p)| - (if p(ds[i]) then 1 else 0) + (if p(e) then 1 else 0)
    decreases |ds|
  {
    var ds' := ds[i := e];
    if i == |ds| - 1 {
      assert ds'[..|ds'| - 1] == ds[..|ds| - 1];
    } else {
      assert ds'[..|ds'| - 1] == ds[..|ds| - 1][i := e];
      FilterUpdateLength(ds[..|ds| - 1], i, e, p);
    }
  }

  /** PENDING and FAILED donations never show on the dashboard: recording one leaves every
      statistic as it was. */
  lemma UnsuccessfulIgnored(ds: seq<Donation>, cs: seq<Campaign>, d: Donation)
    requires d.status != SUCCESS
    ensures GetDashboardStats(ds + [d], cs) == GetDashboardStats(ds, cs)
  {
    RaisedAppend(ds, [d], SuccessIn("USD"));
    RaisedAppend(ds, [d], SuccessIn("ETB"));
    assert (ds + [d])[..|ds + [d]| - 1] == ds;
  }

  /** A newly recorded SUCCESS donation is counted, added to the total of its currency, and heads
      the recent list, which keeps the four (or fewer) donations that led it before. */
  lemma SuccessRecorded(ds: seq<Donation>, cs: seq<Campaign>, d: Donation)
    requires d.status == SUCCESS
    ensures var before, after := GetDashboardStats(ds, cs), GetDashboardStats(ds + [d], cs);
      && after.totalDonationsCount == before.totalDonationsCount + 1
      && after.totalRaisedUsd == before.totalRaisedUsd + (if d.currency == "USD" then d.amount else 0)
      && after.totalRaisedEtb == before.totalRaisedEtb + (if d.currency == "ETB" then d.amount else 0)
      && after.recentDonations[0] == d
      && after.recentDonations
         == ([d] + before.recentDonations)[..if |before.recentDonations| < RecentLimit then |before.recentDonations| + 1 else RecentLimit]
  {
    RaisedAppend(ds, [d], SuccessIn("USD"));
    RaisedAppend(ds, [d], SuccessIn("ETB"));
    assert (ds + [d])[..|ds + [d]| - 1] == ds;
    var before := Filter(ds, IsSuccess);
    assert Filter(ds + [d], IsSuccess) == before + [d];
  }

  /** No donation is counted in both currency totals, and one in any other spelling (such as
      "usd") is counted in neither. */
  lemma {:induction false} CurrencyTotalsDisjoint(ds: seq<Donation>, cs: seq<Campaign>)
    ensures var s := GetDashboardStats(ds, cs);
      s.totalRaisedUsd + s.totalRaisedEtb
      == Raised(ds, (d: Donation) => d.status == SUCCESS && (d.currency == "USD" || d.currency == "ETB"))
    decreases |ds|
  {
    if ds != [] {
      CurrencyTotalsDisjoint(ds[..|ds| - 1], cs);
    }
  }
}
