/** The site-content endpoints (backend/app/api/v1/endpoints/site_content.py): reading, bulk
    update of existing keys, and seeding of missing defaults. */
module SiteContentApi {
  import opened Common
  import opened Models
  import opened Tables
  import opened SiteContentCrud

  // ---------------------------------------------------------------- read_site_content

  /** `read_site_content`: a non-empty section selects that section whole; otherwise a page of
      the table. */
  function ReadSiteContent(t: seq<SiteContent>, skip: nat, limit: nat, section: Option<string>): (r: seq<SiteContent>)
    ensures Truthy(section) ==> forall i :: 0 <= i < |r| ==> r[i].section == section.value && r[i] in t
    ensures Truthy(section) ==> forall i :: 0 <= i < |t| && t[i].section == section.value ==> t[i] in r
    ensures !Truthy(section) ==> |r| <= limit && forall i :: 0 <= i < |r| ==> skip + i < |t| && r[i] == t[skip + i]
  {
    if Truthy(section) then GetBySection(t, section.value) else GetMulti(t, skip, limit)
  }

  /** With a section, `skip` and `limit` make no difference. */
  lemma ReadSectionIgnoresPaging(t: seq<SiteContent>, skip1: nat, limit1: nat, skip2: nat, limit2: nat, section: string)
    requires section != ""
    ensures ReadSiteContent(t, skip1, limit1, Some(section)) == ReadSiteContent(t, skip2, limit2, Some(section))
  {
  }

  // ---------------------------------------------------------------- bulk_update_site_content

  /** One iteration of the bulk update: the row with that key, if any, gets the new content. */
  function BulkStep(t: seq<SiteContent>, key: string, value: string): seq<SiteContent> {
    match FindFirst(t, HasKey(key))
    case Some(i) => t[i := t[i].(content := Some(value))]
    case None => t
  }

  /** The table after the bulk update has visited `u` in order. */
  function BulkApplied(t: seq<SiteContent>, u: seq<(string, string)>): seq<SiteContent> {
    if u == [] then t
    else BulkStep(BulkApplied(t, u[..|u| - 1]), u[|u| - 1].0, u[|u| - 1].1)
  }

  /** The list the bulk update returns: each updated row as it was right after its update. */
  function BulkResult(t: seq<SiteContent>, u: seq<(string, string)>): seq<SiteContent> {
    if u == [] then []
    else
      var before := BulkApplied(t, u[..|u| - 1]);
      var e := u[|u| - 1];
      BulkResult(t, u[..|u| - 1]) +
        match FindFirst(before, HasKey(e.0))
        case Some(i) => [before[i].(content := Some(e.1))]
        case None => []
  }

  /** `bulk_update_site_content` over the dict's items in order. */
  method BulkUpdate(db: Db, updates: seq<(string, string)>) returns (updated: seq<SiteContent>)
    requires db.Valid()
    modifies db`siteContent
    ensures db.Valid()
    ensures db.siteContent == BulkApplied(old(db.siteContent), updates)
    ensures updated == BulkResult(old(db.siteContent), updates)
  {
    ghost var t0 := db.siteContent;
    updated := [];
    var k := 0;
    while k < |updates|
      invariant 0 <= k <= |updates|
      invariant db.Valid()
      invariant db.siteContent == BulkApplied(t0, updates[..k])
      invariant updated == BulkResult(t0, updates[..k])
    {
      var key, value := updates[k].0, updates[k].1;
      BulkUnfold(t0, updates, k);
      var item := FindFirst(db.siteContent, HasKey(key));
      if item.Some? {
        var i := item.value;
        SchemaSetsOnlyContent(db.siteContent[i], value);
        var res := Update(db, i, Schema(value));
        updated := updated + [res.value];
      }
      k := k + 1;
    }
    assert updates[..k] == updates;
  }

  /** The bulk update's state after one more entry, in terms of the state before it. */
  lemma BulkUnfold(t: seq<SiteContent>, u: seq<(string, string)>, k: nat)
    requires k < |u|
    ensures var before, e := BulkApplied(t, u[..k]), u[k];
      && BulkApplied(t, u[..k + 1]) == BulkStep(before, e.0, e.1)
      && (FindFirst(before, HasKey(e.0)).None? ==> BulkResult(t, u[..k + 1]) == BulkResult(t, u[..k]))
      && (FindFirst(before, HasKey(e.0)).Some? ==>
            var i := FindFirst(before, HasKey(e.0)).value;
            BulkResult(t, u[..k + 1]) == BulkResult(t, u[..k]) + [before[i].(content := Some(e.1))])
  {
    assert u[..k + 1][..k] == u[..k];
  }

  /** Two tables with the same keys at the same positions find a key at the same position. */
  lemma {:induction false} FindKeyAlike(a: seq<SiteContent>, b: seq<SiteContent>, key: string)
    requires |a| == |b| && forall j :: 0 <= j < |a| ==> a[j].key == b[j].key
    ensures FindFirst(a, HasKey(key)) == FindFirst(b, HasKey(key))
    decreases |a|
  {
    if a != [] {
      FindKeyAlike(a[1..], b[1..], key);
    }
  }

  /** The bulk update creates no row and changes nothing but `content`: `section`, `key`,
      `content_type` and `label` keep their values. */
  lemma {:induction false} BulkKeepsShape(t: seq<SiteContent>, u: seq<(string, string)>)
    ensures |BulkApplied(t, u)| == |t|
    ensures forall j :: 0 <= j < |t| ==> BulkApplied(t, u)[j] == t[j].(content := BulkApplied(t, u)[j].content)
    decreases |u|
  {
    if u != [] {
      BulkKeepsShape(t, u[..|u| - 1]);
    }
  }

  /** After the bulk update, a row whose key the input names holds the value given for it, and
      every other row keeps its content. */
  lemma {:induction false} BulkSetsContent(t: seq<SiteContent>, u: seq<(string, string)>, j: nat)
    requires KeysUnique(t) && j < |t|
    ensures |BulkApplied(t, u)| == |t|
    ensures BulkApplied(t, u)[j].content
            == if Lookup(u, t[j].key).Some? then Lookup(u, t[j].key) else t[j].content
    decreases |u|
  {
    BulkKeepsShape(t, u);
    if u != [] {
      var p := u[..|u| - 1];
      var b := BulkApplied(t, p);
      BulkSetsContent(t, p, j);
      BulkKeepsShape(t, p);
      FindKeyAlike(b, t, u[|u| - 1].0);
    }
  }

  /** The dict's keys are distinct. */
  ghost predicate DistinctKeys(u: seq<(string, string)>) {
    forall a, b :: 0 <= a < b < |u| ==> u[a].0 != u[b].0
  }

  /** The entries whose key is in the table. */
  function KnownIn(t: seq<SiteContent>): ((string, string)) -> bool {
    (e: (string, string)) => GetByKey(t, e.0).Some?
  }

  /** The result has one row per entry whose key exists. */
  lemma {:induction false} BulkResultLength(t: seq<SiteContent>, u: seq<(string, string)>)
    ensures |BulkResult(t, u)| == |Filter(u, KnownIn(t))|
    decreases |u|
  {
    if u != [] {
      BulkResultLength(t, u[..|u| - 1]);
      BulkResultStep(t, u);
    }
  }

  /** One more entry adds its updated row to the result exactly when its key is known. */
  lemma BulkResultStep(t: seq<SiteContent>, u: seq<(string, string)>)
    requires u != []
    ensures var p, e := u[..|u| - 1], u[|u| - 1];
      && Filter(u, KnownIn(t)) == Filter(p, KnownIn(t)) + Filter([e], KnownIn(t))
      && (GetByKey(t, e.0).None? ==> BulkResult(t, u) == BulkResult(t, p) && Filter([e], KnownIn(t)) == [])
      && (GetByKey(t, e.0).Some? ==>
            && BulkResult(t, u) == BulkResult(t, p) + [GetByKey(t, e.0).value.(content := Some(e.1))]
            && Filter([e], KnownIn(t)) == [e])
  {
    var p, e := u[..|u| - 1], u[|u| - 1];
    var b := BulkApplied(t, p);
    BulkKeepsShape(t, p);
    FindKeyAlike(b, t, e.0);
    assert p + [e] == u;
    FilterAppend(p, [e], KnownIn(t));
    match FindFirst(b, HasKey(e.0))
    case Some(i) =>
      assert b[i].(content := Some(e.1)) == t[i].(content := Some(e.1));
    case None =>
  }

  /** The m-th row of the result is the row of the m-th known entry's key, holding that entry's
      value and otherwise as it was. */
  lemma {:induction false} BulkResultAt(t: seq<SiteContent>, u: seq<(string, string)>, m: nat)
    requires m < |BulkResult(t, u)|
    ensures var known := Filter(u, KnownIn(t));
      && m < |known| && GetByKey(t, known[m].0).Some?
      && BulkResult(t, u)[m] == GetByKey(t, known[m].0).value.(content := Some(known[m].1))
    decreases |u|
  {
    BulkResultLength(t, u);
    var p, e := u[..|u| - 1], u[|u| - 1];
    BulkResultLength(t, p);
    BulkResultStep(t, u);
    var r0, k0 := BulkResult(t, p), Filter(p, KnownIn(t));
    if m < |r0| {
      BulkResultAt(t, p, m);
      assert BulkResult(t, u)[m] == r0[m];
      assert Filter(u, KnownIn(t))[m] == k0[m];
    } else {
      assert Filter(u, KnownIn(t))[m] == e;
    }
  }

  /** `bulk_update_site_content`: every known key gets the supplied content, unknown keys are
      ignored, nothing else changes, and the result is exactly the updated rows in input order. */
  lemma BulkUpdateSpec(t: seq<SiteContent>, u: seq<(string, string)>)
    requires KeysUnique(t) && DistinctKeys(u)
    ensures var t', r, known := BulkApplied(t, u), BulkResult(t, u), Filter(u, KnownIn(t));
      && |t'| == |t|
      && (forall j :: 0 <= j < |t| ==>
            && t'[j].section == t[j].section && t'[j].key == t[j].key
            && t'[j].contentType == t[j].contentType && t'[j].fieldLabel == t[j].fieldLabel
            && t'[j].content == if Lookup(u, t[j].key).Some? then Lookup(u, t[j].key) else t[j].content)
      && |r| == |known|
      && forall m :: 0 <= m < |r| ==> r[m].key == known[m].0 && r[m].content == Some(known[m].1) && r[m] in t'
  {
    var t', r, known := BulkApplied(t, u), BulkResult(t, u), Filter(u, KnownIn(t));
    BulkKeepsShape(t, u);
    forall j | 0 <= j < |t|
      ensures t'[j].content == if Lookup(u, t[j].key).Some? then Lookup(u, t[j].key) else t[j].content
    {
      BulkSetsContent(t, u, j);
    }
    BulkResultLength(t, u);
    forall m | 0 <= m < |r|
      ensures r[m].key == known[m].0 && r[m].content == Some(known[m].1) && r[m] in t'
    {
      BulkResultAt(t, u, m);
      var j := FindFirst(t, HasKey(known[m].0)).value;
      assert known[m] in u;
      var k :| 0 <= k < |u| && u[k] == known[m];
      var v := Lookup(u, t[j].key);
      var k' :| 0 <= k' < |u| && u[k'] == (t[j].key, v.value);
      assert k == k';
      assert t'[j] == r[m];
    }
  }

  // ---------------------------------------------------------------- initialize_defaults

  /** The table after inserting, in order, every item whose key is not yet present. */
  function SeedMissing(t: seq<SiteContent>, items: seq<SiteContentCreate>): seq<SiteContent> {
    if items == [] then t
    else
      var before := SeedMissing(t, items[..|items| - 1]);
      var item := items[|items| - 1];
      if GetByKey(before, item.key).None? then before + [NewRow(item)] else before
  }

  /** `initialize_defaults`: creates the missing items and returns how many it created. */
  method InitializeDefaults(db: Db, defaults: seq<SiteContentCreate>) returns (created: nat)
    requires db.Valid()
    modifies db`siteContent
    ensures db.Valid()
    ensures db.siteContent == SeedMissing(old(db.siteContent), defaults)
    ensures created == |db.siteContent| - |old(db.siteContent)|
  {
    ghost var t0 := db.siteContent;
    created := 0;
    var k := 0;
    while k < |defaults|
      invariant 0 <= k <= |defaults|
      invariant db.Valid()
      invariant db.siteContent == SeedMissing(t0, defaults[..k])
      invariant |db.siteContent| == |t0| + created
    {
      var item := defaults[k];
      assert defaults[..k + 1][..k] == defaults[..k];
      if GetByKey(db.siteContent, item.key).None? {
        var _ := Create(db, item);
        created := created + 1;
      }
      k := k + 1;
    }
    assert defaults[..k] == defaults;
  }

  /** Seeding keeps every existing row where it was. */
  lemma {:induction false} SeedKeepsPrefix(t: seq<SiteContent>, items: seq<SiteContentCreate>)
    ensures var r := SeedMissing(t, items);
      |t| <= |r| && r[..|t|] == t
    decreases |items|
  {
    if items != [] {
      var p := items[..|items| - 1];
      SeedKeepsPrefix(t, p);
      var b := SeedMissing(t, p);
      var r := SeedMissing(t, items);
      assert r[..|b|] == b;
      assert r[..|t|] == b[..|t|];
    }
  }

  /** `row` is the new row of one of the items whose key `t` lacks. */
  ghost predicate FromMissingItem(t: seq<SiteContent>, items: seq<SiteContentCreate>, row: SiteContent) {
    exists k :: 0 <= k < |items| && row == NewRow(items[k]) && GetByKey(t, items[k].key).None?
  }

  /** The j-th row, past the old table, is a missing item's new row. */
  lemma {:induction false} SeedAddsMissing(t: seq<SiteContent>, items: seq<SiteContentCreate>, j: nat)
    requires |t| <= j < |SeedMissing(t, items)|
    ensures FromMissingItem(t, items, SeedMissing(t, items)[j])
    decreases |items|
  {
    var p := items[..|items| - 1];
    var b := SeedMissing(t, p);
    var r := SeedMissing(t, items);
    assert r == b || r == b + [NewRow(items[|items| - 1])];
    if j < |b| {
      SeedAddsMissing(t, p, j);
      var k :| 0 <= k < |p| && b[j] == NewRow(p[k]) && GetByKey(t, p[k].key).None?;
      assert r[j] == b[j] && items[k] == p[k];
    } else {
      var item := items[|items| - 1];
      assert r == b + [NewRow(item)] && GetByKey(b, item.key).None?;
      assert GetByKey(t, item.key).None? by {
        SeedKeepsPrefix(t, p);
        forall i | 0 <= i < |t|
          ensures t[i].key != item.key
        {
          assert t[i] == b[i];
        }
      }
      assert r[j] == NewRow(items[|items| - 1]);
    }
  }

  /** Seeding keeps every existing row where it was, and every row it adds is one of the items
      whose key was missing. */
  lemma SeedKeepsExisting(t: seq<SiteContent>, items: seq<SiteContentCreate>)
    ensures var r := SeedMissing(t, items);
      && |t| <= |r| && r[..|t|] == t
      && forall j :: |t| <= j < |r| ==> FromMissingItem(t, items, r[j])
  {
    SeedKeepsPrefix(t, items);
    var r := SeedMissing(t, items);
    forall j | |t| <= j < |r|
      ensures FromMissingItem(t, items, r[j])
    {
      SeedAddsMissing(t, items, j);
    }
  }

  /** After seeding, every item's key is present, and the keys stay unique. */
  lemma {:induction false} SeedCoversItems(t: seq<SiteContent>, items: seq<SiteContentCreate>)
    requires KeysUnique(t)
    ensures KeysUnique(SeedMissing(t, items))
    ensures forall k :: 0 <= k < |items| ==> GetByKey(SeedMissing(t, items), items[k].key).Some?
    decreases |items|
  {
    if items != [] {
      var p := items[..|items| - 1];
      SeedCoversItems(t, p);
      var b := SeedMissing(t, p);
      var item := items[|items| - 1];
      var r := SeedMissing(t, items);
      if GetByKey(b, item.key).None? {
        CreateKeepsKeysUnique(b, item);
      }
      forall k | 0 <= k < |items|
        ensures GetByKey(r, items[k].key).Some?
      {
        if k < |p| {
          assert items[k] == p[k];
          var w := GetByKey(b, p[k].key).value;
          assert w in r;
        }
      }
    }
  }

  /** Seeding a table that already holds every item's key changes nothing. */
  lemma {:induction false} SeedNothingMissing(t: seq<SiteContent>, items: seq<SiteContentCreate>)
    requires forall k :: 0 <= k < |items| ==> GetByKey(t, items[k].key).Some?
    ensures SeedMissing(t, items) == t
    decreases |items|
  {
    if items != [] {
      SeedNothingMissing(t, items[..|items| - 1]);
    }
  }

  /** `initialize_defaults` is idempotent: a second call creates nothing and returns 0. */
  lemma SeedIdempotent(t: seq<SiteContent>, items: seq<SiteContentCreate>)
    requires KeysUnique(t)
    ensures SeedMissing(SeedMissing(t, items), items) == SeedMissing(t, items)
  {
    SeedCoversItems(t, items);
    SeedNothingMissing(SeedMissing(t, items), items);
  }
}
