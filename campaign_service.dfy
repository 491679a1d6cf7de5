/** The campaign service (backend/app/services/campaign_service.py): slug generation, listing of
    active campaigns, creation with one collision retry, and lookup by slug. */
module CampaignService {
  import opened Common
  import opened Models
  import opened DonationModel
  import opened Tables
  import opened ChapaEndpoint
  import opened DonationEndpoint
  import opened Dashboard

  // ---------------------------------------------------------------- create_slug

  /** The characters `[^a-z0-9\s-]` does not remove. */
  predicate SlugSourceChar(c: char) {
    IsAsciiLower(c) || IsDigit(c) || IsSpace(c) || c == '-'
  }

  /** The characters a finished slug consists of. */
  predicate SlugChar(c: char) {
    IsAsciiLower(c) || IsDigit(c) || c == '-'
  }

  /** `re.sub(r'[^a-z0-9\s-]', '', s)`. */
  function KeepSlugChars(s: string): (r: string)
    ensures forall i :: 0 <= i < |r| ==> SlugSourceChar(r[i])
    ensures (forall i :: 0 <= i < |s| ==> SlugSourceChar(s[i])) ==> r == s
  {
    if s == [] then ""
    else (if SlugSourceChar(s[0]) then [s[0]] else "") + KeepSlugChars(s[1..])
  }

  /** `re.sub(r'\s+', '-', s)`: every maximal run of whitespace becomes one '-'. */
  function CollapseSpaces(s: string): string
    decreases |s|
  {
    if s == [] then ""
    else if IsSpace(s[0]) then "-" + CollapseSpaces(s[LeadingSpaces(s)..])
    else [s[0]] + CollapseSpaces(s[1..])
  }

  /** The result holds no whitespace; a string without whitespace is unchanged; and from the
      characters `KeepSlugChars` leaves, only slug characters come out. */
  lemma {:induction false} CollapseSpacesShape(s: string)
    ensures var r := CollapseSpaces(s);
      && (forall i :: 0 <= i < |r| ==> !IsSpace(r[i]))
      && ((forall i :: 0 <= i < |s| ==> !IsSpace(s[i])) ==> r == s)
      && ((forall i :: 0 <= i < |s| ==> SlugSourceChar(s[i])) ==> forall i :: 0 <= i < |r| ==> SlugChar(r[i]))
    decreases |s|
  {
    if s == [] {
    } else if IsSpace(s[0]) {
      CollapseSpacesShape(s[LeadingSpaces(s)..]);
    } else {
      CollapseSpacesShape(s[1..]);
      assert [s[0]] + s[1..] == s;
    }
  }

  /** Number of leading '-'. */
  function LeadingHyphens(s: string): (n: nat)
    ensures n <= |s|
    ensures forall k :: 0 <= k < n ==> s[k] == '-'
    ensures n < |s| ==> s[n] != '-'
  {
    if s != [] && s[0] == '-' then 1 + LeadingHyphens(s[1..]) else 0
  }

  /** Number of trailing '-'. */
  function TrailingHyphens(s: string): (n: nat)
    ensures n <= |s|
    ensures forall k :: |s| - n <= k < |s| ==> s[k] == '-'
    ensures n < |s| ==> s[|s| - 1 - n] != '-'
  {
    if s != [] && s[|s| - 1] == '-' then 1 + TrailingHyphens(s[..|s| - 1]) else 0
  }

  /** `s.strip('-')`. */
  function StripHyphens(s: string): (r: string)
    ensures r == [] || (r[0] != '-' && r[|r| - 1] != '-')
    ensures LeadingHyphens(s) + |r| <= |s|
    ensures forall i :: 0 <= i < |r| ==> r[i] == s[LeadingHyphens(s) + i]
    ensures s == [] || (s[0] != '-' && s[|s| - 1] != '-') ==> r == s
  {
    var a := s[LeadingHyphens(s)..];
    a[..|a| - TrailingHyphens(a)]
  }

  /** `create_slug`. */
  function CreateSlug(title: string): (slug: string)
    ensures forall i :: 0 <= i < |slug| ==> SlugChar(slug[i])
    ensures slug == [] || (slug[0] != '-' && slug[|slug| - 1] != '-')
  {
    CollapseSpacesShape(KeepSlugChars(Lower(title)));
    StripHyphens(CollapseSpaces(KeepSlugChars(Lower(title))))
  }

  /** Each whitespace run turns into a single '-', whatever its length. */
  lemma CollapseRun(x: string, w: string, y: string)
    requires forall i :: 0 <= i < |x| ==> !IsSpace(x[i])
    requires w != [] && forall i :: 0 <= i < |w| ==> IsSpace(w[i])
    requires y == [] || !IsSpace(y[0])
    ensures CollapseSpaces(x + w + y) == x + "-" + CollapseSpaces(y)
  {
    assert x + w + y == x + (w + y);
    CollapsePrefix(x, w + y);
    CollapseRunStart(w, y);
  }

  /** A prefix without whitespace is kept as it is. */
  lemma {:induction false} CollapsePrefix(x: string, z: string)
    requires forall i :: 0 <= i < |x| ==> !IsSpace(x[i])
    ensures CollapseSpaces(x + z) == x + CollapseSpaces(z)
    decreases |x|
  {
    if x == [] {
      assert x + z == z;
    } else {
      var x1, c := x[1..], CollapseSpaces(z);
      calc {
        CollapseSpaces(x + z);
        { assert x + z == [x[0]] + (x1 + z); }
        CollapseSpaces([x[0]] + (x1 + z));
        { CollapseKeeps(x[0], x1 + z); }
        [x[0]] + CollapseSpaces(x1 + z);
        { CollapsePrefix(x1, z); }
        [x[0]] + (x1 + c);
        { assert [x[0]] + (x1 + c) == ([x[0]] + x1) + c; assert [x[0]] + x1 == x; }
        x + c;
      }
    }
  }

  /** A leading whitespace run becomes one '-'. */
  lemma CollapseRunStart(w: string, y: string)
    requires w != [] && forall i :: 0 <= i < |w| ==> IsSpace(w[i])
    requires y == [] || !IsSpace(y[0])
    ensures CollapseSpaces(w + y) == "-" + CollapseSpaces(y)
  {
    LeadingSpacesOf(w, y);
    assert (w + y)[|w|..] == y;
  }

  /** A leading non-space character is kept. */
  lemma CollapseKeeps(c: char, rest: string)
    requires !IsSpace(c)
    ensures CollapseSpaces([c] + rest) == [c] + CollapseSpaces(rest)
  {
    assert ([c] + rest)[1..] == rest;
  }

  lemma {:induction false} LeadingSpacesOf(w: string, y: string)
    requires forall i :: 0 <= i < |w| ==> IsSpace(w[i])
    requires y == [] || !IsSpace(y[0])
    ensures LeadingSpaces(w + y) == |w|
    decreases |w|
  {
    if w == [] {
      assert w + y == y;
    } else {
      assert (w + y)[1..] == w[1..] + y;
      LeadingSpacesOf(w[1..], y);
    }
  }

  /** Hyphens already in the title are kept as they are: a run of '-' is not collapsed. */
  lemma HyphensKept(title: string)
    requires forall i :: 0 <= i < |title| ==> IsAsciiLower(title[i]) || title[i] == '-'
    requires title == [] || (title[0] != '-' && title[|title| - 1] != '-')
    ensures CreateSlug(title) == title
  {
    SlugIsFixed(title);
  }

  /** A string made of slug characters, not starting or ending with '-', is its own slug. */
  lemma SlugIsFixed(s: string)
    requires forall i :: 0 <= i < |s| ==> SlugChar(s[i])
    requires s == [] || (s[0] != '-' && s[|s| - 1] != '-')
    ensures CreateSlug(s) == s
  {
    assert forall i :: 0 <= i < |s| ==> LowerChar(s[i]) == s[i];
    assert Lower(s) == s;
    assert forall i :: 0 <= i < |s| ==> SlugSourceChar(s[i]) && !IsSpace(s[i]);
    assert KeepSlugChars(s) == s;
    CollapseSpacesShape(s);
  }

  /** `create_slug` is idempotent: a slug is its own slug. */
  lemma CreateSlugIdempotent(title: string)
    ensures CreateSlug(CreateSlug(title)) == CreateSlug(title)
  {
    SlugIsFixed(CreateSlug(title));
  }

  // ---------------------------------------------------------------- queries

  /** `get_multi`: the active campaigns, then offset and limit, in table order. */
  function GetMulti(cs: seq<Campaign>, skip: nat, limit: nat): (r: seq<Campaign>)
    ensures |r| <= limit
    ensures forall i :: 0 <= i < |r| ==> r[i].isActive && r[i] in cs
  {
    Page(Filter(cs, (c: Campaign) => c.isActive), skip, limit)
  }

  /** `get_by_slug`: a campaign with exactly that slug, or None when there is none. */
  function GetBySlug(cs: seq<Campaign>, slug: string): (r: Option<Campaign>)
    ensures r.Some? ==> r.value.slug == slug && r.value in cs
    ensures r.None? <==> forall k :: 0 <= k < |cs| ==> cs[k].slug != slug
  {
    match FindFirst(cs, (c: Campaign) => c.slug == slug)
    case Some(k) => Some(cs[k])
    case None => None
  }

  // ---------------------------------------------------------------- create

  datatype CampaignCreate = CampaignCreate(
    title: string,
    description: Option<string>,
    goalUsd: int,
    goalEtb: int,
    coverImageUrl: Option<string>,
    isActive: bool)

  /** The slug `create` stores: the base slug, or on a collision the base slug, '-' and the
      four-character suffix; the second choice is not checked again. */
  function ChooseSlug(cs: seq<Campaign>, title: string, suffix: string): (slug: string)
    ensures GetBySlug(cs, CreateSlug(title)).None? ==> slug == CreateSlug(title)
    ensures GetBySlug(cs, CreateSlug(title)).Some? ==> slug == CreateSlug(title) + "-" + suffix
  {
    var base := CreateSlug(title);
    if GetBySlug(cs, base).Some? then base + "-" + suffix else base
  }

  /** The row `create` inserts; `is_active` of the input is not passed on, so the column default
      (true) applies, and both raised totals start at 0. */
  function NewCampaign(id: string, obj: CampaignCreate, slug: string): (c: Campaign)
    ensures c.isActive && c.raisedUsd == 0 && c.raisedEtb == 0
    ensures c.id == id && c.title == obj.title && c.slug == slug
  {
    Campaign(id, obj.title, slug, obj.description, obj.coverImageUrl, obj.goalUsd, obj.goalEtb, 0, 0, true)
  }

  predicate IdTaken(cs: seq<Campaign>, id: string) {
    exists k :: 0 <= k < |cs| && cs[k].id == id
  }

  /** `create`. `id` is the row's generated uuid and `suffix` the first four characters of the
      uuid drawn on a collision; a second collision, or a taken id, fails the unique constraint
      on commit and the exception propagates. */
  method Create(db: Db, obj: CampaignCreate, id: string, suffix: string) returns (r: Outcome<Campaign>)
    requires db.Valid() && |suffix| == 4
    modifies db`campaigns
    ensures db.Valid()
    ensures var slug := ChooseSlug(old(db.campaigns), obj.title, suffix);
      if GetBySlug(old(db.campaigns), slug).Some? || IdTaken(old(db.campaigns), id) then
        r == Raise(OtherException) && db.campaigns == old(db.campaigns)
      else
        r == Ok(NewCampaign(id, obj, slug)) && db.campaigns == old(db.campaigns) + [NewCampaign(id, obj, slug)]
  {
    var baseSlug := CreateSlug(obj.title);
    var slug := baseSlug;
    var existing := GetBySlug(db.campaigns, slug);
    if existing.Some? {
      slug := baseSlug + "-" + suffix;
    }
    var campaign := NewCampaign(id, obj, slug);
    if GetBySlug(db.campaigns, slug).Some? || IdTaken(db.campaigns, id) {
      return Raise(OtherException);
    }
    db.PutCampaigns(db.campaigns + [campaign]);
    r := Ok(campaign);
  }

  /** A created campaign can be found by its slug, and is listed among the active ones. */
  lemma CreatedIsFound(cs: seq<Campaign>, obj: CampaignCreate, id: string, suffix: string)
    requires CampaignsUnique(cs)
    requires var slug := ChooseSlug(cs, obj.title, suffix);
      GetBySlug(cs, slug).None? && !IdTaken(cs, id)
    ensures var c := NewCampaign(id, obj, ChooseSlug(cs, obj.title, suffix));
      && CampaignsUnique(cs + [c])
      && GetBySlug(cs + [c], c.slug) == Some(c)
      && GetMulti(cs + [c], 0, |cs| + 1) == GetMulti(cs, 0, |cs|) + [c]
  {
    var c := NewCampaign(id, obj, ChooseSlug(cs, obj.title, suffix));
    var cs' := cs + [c];
    assert forall k :: 0 <= k < |cs| ==> cs[k].slug != c.slug && cs[k].id != c.id;
    assert CampaignsUnique(cs') by {
      forall i, j | 0 <= i < j < |cs'|
        ensures cs'[i].id != cs'[j].id && cs'[i].slug != cs'[j].slug
      {
        if j == |cs| {
          assert cs'[i] == cs[i];
        }
      }
    }
    assert GetBySlug(cs', c.slug) == Some(c) by {
      var r := GetBySlug(cs', c.slug);
      assert cs'[|cs|] == c;
      assert r.value in cs';
    }
    var active := (x: Campaign) => x.isActive;
    assert Filter(cs', active) == Filter(cs, active) + [c] by {
      assert cs'[..|cs'| - 1] == cs;
    }
  }

  /** A new campaign starts consistent with the ledger: no donation names its fresh id, and its
      totals are 0. */
  lemma CreateKeepsLedgerConsistent(l: Ledger, c: Campaign)
    requires EtbConsistent(l) && UsdConsistent(l)
    requires c.raisedEtb == 0 && c.raisedUsd == 0
    requires forall i :: 0 <= i < |l.donations| ==> l.donations[i].campaignId != Some(c.id)
    ensures var l' := Ledger(l.donations, l.campaigns + [c]);
      EtbConsistent(l') && UsdConsistent(l')
  {
    RaisedNone(l.donations, EtbFor(c.id));
    RaisedNone(l.donations, UsdFor(c.id));
  }

  lemma {:induction false} RaisedNone(ds: seq<Donation>, p: Donation -> bool)
    requires forall i :: 0 <= i < |ds| ==> !p(ds[i])
    ensures Raised(ds, p) == 0
    decreases |ds|
  {
    if ds != [] {
      RaisedNone(ds[..|ds| - 1], p);
    }
  }
}
