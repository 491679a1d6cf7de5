/** The ORM records of the backend other than Donation (the modules under backend/app/models).
    Money is kept in integer minor units (cents, santim); `created_at` is the row's
    position in its table, since server timestamps grow with insertion. */
module Models {
  import opened Common

  datatype Campaign = Campaign(
    id: string,
    title: string,
    slug: string,
    description: Option<string>,
    coverImageUrl: Option<string>,
    goalUsd: int,
    goalEtb: int,
    raisedUsd: int,
    raisedEtb: int,
    isActive: bool)

  /** One editable text/image/video entry of the public site, identified by its unique key. */
  datatype SiteContent = SiteContent(
    section: string,
    key: string,
    content: Option<string>,
    contentType: string,
    fieldLabel: Option<string>)

  datatype Media = Media(
    id: string,
    url: string,
    mediaType: string,
    title: Option<string>,
    description: Option<string>,
    category: string,
    isFeatured: bool)

  datatype ContactMessage = ContactMessage(
    id: string,
    name: string,
    email: string,
    subject: Option<string>,
    message: string,
    isRead: bool)

  datatype User = User(
    email: string,
    fullName: Option<string>,
    hashedPassword: string,
    isActive: bool,
    isSuperuser: bool)

  /** The `key` column of site content is declared unique. */
  ghost predicate KeysUnique(t: seq<SiteContent>) {
    forall i, j :: 0 <= i < j < |t| ==> t[i].key != t[j].key
  }

  ghost predicate CampaignsUnique(cs: seq<Campaign>) {
    forall i, j :: 0 <= i < j < |cs| ==> cs[i].id != cs[j].id && cs[i].slug != cs[j].slug
  }

  ghost predicate MediaIdsUnique(ms: seq<Media>) {
    forall i, j :: 0 <= i < j < |ms| ==> ms[i].id != ms[j].id
  }

  ghost predicate MessageIdsUnique(ms: seq<ContactMessage>) {
    forall i, j :: 0 <= i < j < |ms| ==> ms[i].id != ms[j].id
  }

  ghost predicate UserEmailsUnique(us: seq<User>) {
    forall i, j :: 0 <= i < j < |us| ==> us[i].email != us[j].email
  }

  /** The `Campaign.id == id` filter. */
  function HasCampaignId(id: string): Campaign -> bool {
    (c: Campaign) => c.id == id
  }

  /** The `Campaign.title == title` filter. */
  function HasTitle(title: string): Campaign -> bool {
    (c: Campaign) => c.title == title
  }

  // ---------------------------------------------------------------- keyed views

  /** The keys that occur in `data`. */
  function KeysOf(data: seq<SiteContent>): set<string> {
    set i | 0 <= i < |data| :: data[i].key
  }

  /** No later row has the key of row `i`. */
  predicate LastOfKey(data: seq<SiteContent>, i: nat)
    requires i < |data|
  {
    forall j :: i < j < |data| ==> data[j].key != data[i].key
  }

  /** A map from each key to `val` of its row, filled in row order, so that a later row
      overwrites an earlier one with the same key (the frontend's `forEach` into a record). */
  function KeyedBy<V>(data: seq<SiteContent>, val: SiteContent -> V): (m: map<string, V>)
    ensures m.Keys == KeysOf(data)
  {
    if data == [] then map[]
    else
      var d := data[..|data| - 1];
      var x := data[|data| - 1];
      assert data == d + [x];
      assert KeysOf(data) == KeysOf(d) + {x.key} by {
        assert forall i :: 0 <= i < |d| ==> data[i] == d[i];
      }
      KeyedBy(d, val)[x.key := val(x)]
  }

  /** Each key holds the value of its last row: the row of `data[i].key` after which no row has
      the same key decides it. */
  lemma {:induction false} LastRowWins<V>(data: seq<SiteContent>, val: SiteContent -> V, i: nat)
    requires i < |data|
    requires forall j :: i < j < |data| ==> data[j].key != data[i].key
    ensures data[i].key in KeyedBy(data, val)
    ensures KeyedBy(data, val)[data[i].key] == val(data[i])
  {
    var d := data[..|data| - 1];
    if i < |data| - 1 {
      LastRowWins(d, val, i);
    }
  }
}
