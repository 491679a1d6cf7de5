/** The community force-seed script (backend/scripts/force_seed_community.py): the COMMUNITY
    entries and the loop that creates each missing key and overwrites the content of each
    existing one. */
module ForceSeedCommunity {
  import opened Common
  import opened Models
  import opened Tables
  import opened SiteContentCrud
  import opened SiteContentApi
  import opened SeedContent

  /** The script's `community_data`, in order. */
  const CommunityData: seq<SiteContentCreate> := [
    SiteContentCreate("COMMUNITY", "community_badge",
      Some("Our Community"), DefaultContentType, Some("Section Badge")),
    SiteContentCreate("COMMUNITY", "community_title",
      Some("Understanding the Need"), DefaultContentType, Some("Main Title")),
    SiteContentCreate("COMMUNITY", "community_col1_title",
      Some("The Challenge"), DefaultContentType, Some("Left Column Title")),
    SiteContentCreate("COMMUNITY", "community_challenge_1",
      Some("Lack of nearby schools forces young children to walk long distances daily."), DefaultContentType, Some("Challenge Point 1")),
    SiteContentCreate("COMMUNITY", "community_challenge_2",
      Some("Economic hardship means families often prioritize farm labor over early education."), DefaultContentType, Some("Challenge Point 2")),
    SiteContentCreate("COMMUNITY", "community_challenge_3",
      Some("Malnutrition affects cognitive development and ability to focus in class."), DefaultContentType, Some("Challenge Point 3")),
    SiteContentCreate("COMMUNITY", "community_col2_title",
      Some("The WKMS Solution"), DefaultContentType, Some("Right Column Title")),
    SiteContentCreate("COMMUNITY", "community_solution_1_label",
      Some("Local Access:"), DefaultContentType, Some("Solution 1 Bold Label")),
    SiteContentCreate("COMMUNITY", "community_solution_1_text",
      Some("A safe, high-quality school right in the heart of the village."), DefaultContentType, Some("Solution 1 Text")),
    SiteContentCreate("COMMUNITY", "community_solution_2_label",
      Some("Full Scholarships:"), DefaultContentType, Some("Solution 2 Bold Label")),
    SiteContentCreate("COMMUNITY", "community_solution_2_text",
      Some("Education is free for the most vulnerable families."), DefaultContentType, Some("Solution 2 Text")),
    SiteContentCreate("COMMUNITY", "community_solution_3_label",
      Some("School Feeding:"), DefaultContentType, Some("Solution 3 Bold Label")),
    SiteContentCreate("COMMUNITY", "community_solution_3_text",
      Some("Two nutritious meals a day for every student."), DefaultContentType, Some("Solution 3 Text"))
  ]

  /** The listed entries are the COMMUNITY entries of the content seed, with distinct keys, all in
      section COMMUNITY and starting with "community_". */
  lemma CommunityDataShape()
    ensures CommunityData == CommunityDefaults
    ensures ItemKeysDistinct(CommunityData) && KeysPrefixed(CommunityData, "COMMUNITY", "community_")
  {
    CommunityDistinct();
    CommunityKeys();
  }

  /** `SiteContentUpdate(content=..., label=...)`: the schema declares only `content`, so the
      label is dropped. */
  function UpdateWithLabel(content: string, fieldLabel: Option<string>): UpdateInput {
    Schema(content)
  }

  /** Every item has content, as `SiteContentUpdate` requires. */
  ghost predicate AllHaveContent(items: seq<SiteContentCreate>) {
    forall k :: 0 <= k < |items| ==> items[k].content.Some?
  }

  /** One iteration: create the row when its key is missing, else overwrite its content. */
  function UpsertStep(t: seq<SiteContent>, item: SiteContentCreate): seq<SiteContent>
    requires item.content.Some?
  {
    match FindFirst(t, HasKey(item.key))
    case None => t + [NewRow(item)]
    case Some(i) => t[i := t[i].(content := item.content)]
  }

  /** The table after the loop has visited `items` in order. */
  function Upserted(t: seq<SiteContent>, items: seq<SiteContentCreate>): seq<SiteContent>
    requires AllHaveContent(items)
  {
    if items == [] then t
    else UpsertStep(Upserted(t, items[..|items| - 1]), items[|items| - 1])
  }

  /** The script's loop over `items`. */
  method Upsert(db: Db, items: seq<SiteContentCreate>)
    requires db.Valid() && AllHaveContent(items)
    modifies db`siteContent
    ensures db.Valid()
    ensures db.siteContent == Upserted(old(db.siteContent), items)
  {
    ghost var t0 := db.siteContent;
    var k := 0;
    while k < |items|
      invariant 0 <= k <= |items|
      invariant db.Valid()
      invariant db.siteContent == Upserted(t0, items[..k])
    {
      var item := items[k];
      assert items[..k + 1][..k] == items[..k];
      var existing := FindFirst(db.siteContent, HasKey(item.key));
      if existing.None? {
        var _ := Create(db, item);
      } else {
        var i := existing.value;
        SchemaSetsOnlyContent(db.siteContent[i], item.content.value);
        var _ := Update(db, i, UpdateWithLabel(item.content.value, item.fieldLabel));
      }
      k := k + 1;
    }
    assert items[..k] == items;
  }

  /** Running the script. */
  method ForceSeed(db: Db)
    requires db.Valid()
    modifies db`siteContent
    ensures db.Valid()
    ensures AllHaveContent(CommunityData) && db.siteContent == Upserted(old(db.siteContent), CommunityData)
  {
    Upsert(db, CommunityData);
  }

  /** Existing rows stay in place and only their content may change: the label in particular is
      never applied to them. */
  lemma {:induction false} UpsertKeepsExisting(t: seq<SiteContent>, items: seq<SiteContentCreate>)
    requires AllHaveContent(items)
    ensures var r := Upserted(t, items);
      && |t| <= |r|
      && forall j :: 0 <= j < |t| ==> r[j] == t[j].(content := r[j].content)
    decreases |items|
  {
    if items != [] {
      UpsertKeepsExisting(t, items[..|items| - 1]);
    }
  }

  /** One iteration leaves the row of the item's key holding the item's content, keeps keys
      unique, and does not change what any other key finds. */
  lemma UpsertStepSpec(b: seq<SiteContent>, item: SiteContentCreate)
    requires KeysUnique(b) && item.content.Some?
    ensures var r := UpsertStep(b, item);
      && KeysUnique(r)
      && GetByKey(r, item.key).Some? && GetByKey(r, item.key).value.content == item.content
      && forall key :: key != item.key ==> GetByKey(r, key) == GetByKey(b, key)
  {
    var r := UpsertStep(b, item);
    match FindFirst(b, HasKey(item.key))
    case None =>
      CreateKeepsKeysUnique(b, item);
    case Some(i) =>
      assert forall j :: 0 <= j < |r| ==> r[j].key == b[j].key;
      forall key | true ensures FindFirst(r, HasKey(key)) == FindFirst(b, HasKey(key)) {
        FindKeyAlike(r, b, key);
      }
  }

  /** The items before the last keep the loop's preconditions, and none shares the last's key. */
  lemma DropLastItem(items: seq<SiteContentCreate>)
    requires items != [] && ItemKeysDistinct(items) && AllHaveContent(items)
    ensures var p := items[..|items| - 1];
      && ItemKeysDistinct(p) && AllHaveContent(p)
      && forall k :: 0 <= k < |p| ==> p[k] == items[k] && p[k].key != items[|items| - 1].key
  {
    var p := items[..|items| - 1];
    assert ItemKeysDistinct(p) by {
      forall a, c | 0 <= a < c < |p| ensures p[a].key != p[c].key {
        assert p[a] == items[a] && p[c] == items[c];
      }
    }
  }

  /** After the loop every listed key exists and holds the listed content, and keys stay unique. */
  lemma {:induction false} UpsertCovers(t: seq<SiteContent>, items: seq<SiteContentCreate>)
    requires KeysUnique(t) && ItemKeysDistinct(items) && AllHaveContent(items)
    ensures var r := Upserted(t, items);
      && KeysUnique(r)
      && forall k :: 0 <= k < |items| ==>
           GetByKey(r, items[k].key).Some? && GetByKey(r, items[k].key).value.content == items[k].content
    decreases |items|
  {
    if items != [] {
      var p, last := items[..|items| - 1], items[|items| - 1];
      DropLastItem(items);
      UpsertCovers(t, p);
      var b := Upserted(t, p);
      var r := Upserted(t, items);
      assert r == UpsertStep(b, last);
      UpsertStepSpec(b, last);
      forall k | 0 <= k < |items|
        ensures GetByKey(r, items[k].key).Some? && GetByKey(r, items[k].key).value.content == items[k].content
      {
        if k < |p| {
          assert items[k] == p[k] && p[k].key != last.key;
          assert GetByKey(r, p[k].key) == GetByKey(b, p[k].key);
        }
      }
    }
  }

  /** A table that already holds every item with its listed content is left as it is. */
  lemma {:induction false} UpsertNothingNew(t: seq<SiteContent>, items: seq<SiteContentCreate>)
    requires AllHaveContent(items)
    requires forall k :: 0 <= k < |items| ==>
               GetByKey(t, items[k].key).Some? && GetByKey(t, items[k].key).value.content == items[k].content
    ensures Upserted(t, items) == t
    decreases |items|
  {
    if items != [] {
      var p, last := items[..|items| - 1], items[|items| - 1];
      UpsertNothingNew(t, p);
      var i := FindFirst(t, HasKey(last.key)).value;
      assert t[i := t[i].(content := last.content)] == t;
    }
  }

  /** The script is idempotent: a second run leaves the store as the first run left it. */
  lemma UpsertIdempotent(t: seq<SiteContent>, items: seq<SiteContentCreate>)
    requires KeysUnique(t) && ItemKeysDistinct(items) && AllHaveContent(items)
    ensures Upserted(Upserted(t, items), items) == Upserted(t, items)
  {
    UpsertCovers(t, items);
    UpsertNothingNew(Upserted(t, items), items);
  }
}
