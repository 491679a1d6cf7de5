/** The content seed script (backend/scripts/seed_content.py): the default entries of the public
    site and the loop that inserts each one whose key is still missing. */
module SeedContent {
  import opened Common
  import opened Models
  import opened Tables
  import opened SiteContentCrud
  import opened SiteContentApi

  // ---------------------------------------------------------------- the defaults

  // The script's `defaults`, section by section; entries without a `content_type` take the
  // schema default.

  const HeroDefaults: seq<SiteContentCreate> := [
    SiteContentCreate("HERO", "hero_badge",
      Some("Educating for Tomorrow"), DefaultContentType, Some("Top Badge Text")),
    SiteContentCreate("HERO", "hero_title_1",
      Some("Connecting Education,"), DefaultContentType, Some("Main Title Line 1")),
    SiteContentCreate("HERO", "hero_title_accent",
      Some("Opportunity & Impact."), DefaultContentType, Some("Main Title Accent (Gradient)")),
    SiteContentCreate("HERO", "hero_subtitle",
      Some("Providing quality education to 500+ students in rural Ethiopia. We are the bridge between your generosity and their future."), DefaultContentType, Some("Hero Subtitle")),
    SiteContentCreate("HERO", "hero_video",
      Some("/wkms-hero.mp4"), "VIDEO", Some("Background Video URL"))
  ]

  const AboutDefaults: seq<SiteContentCreate> := [
    SiteContentCreate("ABOUT", "about_badge",
      Some("Who We Are"), DefaultContentType, Some("Section Badge")),
    SiteContentCreate("ABOUT", "about_title_1",
      Some("More Than Just"), DefaultContentType, Some("Title Line 1")),
    SiteContentCreate("ABOUT", "about_title_accent",
      Some("A School."), DefaultContentType, Some("Title Accent")),
    SiteContentCreate("ABOUT", "about_text_1",
      Some("Wakero Keleboro Memorial Pre-School (WKMS) was founded to honor the legacy of Wakero Keleboro, a visionary who believed in the transformative power of education."), DefaultContentType, Some("Paragraph 1")),
    SiteContentCreate("ABOUT", "about_text_2",
      Some("We provide high-quality early childhood education, nutrition, and holistic care to children in rural Ethiopia, ensuring they have the foundation needed to succeed in life."), DefaultContentType, Some("Paragraph 2")),
    SiteContentCreate("ABOUT", "about_image_main",
      Some("/assets/5776370369471122231.jpg"), "IMAGE", Some("Main Image")),
    SiteContentCreate("ABOUT", "about_image_accent",
      Some("/assets/5776370369471122228.jpg"), "IMAGE", Some("Floating Accent Image"))
  ]

  const ImpactDefaults: seq<SiteContentCreate> := [
    SiteContentCreate("IMPACT", "impact_badge",
      Some("Radical Transparency"), DefaultContentType, Some("Section Badge")),
    SiteContentCreate("IMPACT", "impact_title",
      Some("Every Cent Counted."), DefaultContentType, Some("Main Title")),
    SiteContentCreate("IMPACT", "impact_subtitle",
      Some("We believe you deserve to know exactly where your money goes. We are committed to absolute financial transparency."), DefaultContentType, Some("Subtitle")),
    SiteContentCreate("IMPACT", "impact_stat_1_val",
      Some("512"), DefaultContentType, Some("Stat 1 Value")),
    SiteContentCreate("IMPACT", "impact_stat_1_label",
      Some("Students Enrolled"), DefaultContentType, Some("Stat 1 Label")),
    SiteContentCreate("IMPACT", "impact_stat_2_val",
      Some("98%"), DefaultContentType, Some("Stat 2 Value")),
    SiteContentCreate("IMPACT", "impact_stat_2_label",
      Some("Pass Rate"), DefaultContentType, Some("Stat 2 Label")),
    SiteContentCreate("IMPACT", "impact_stat_3_val",
      Some("15+"), DefaultContentType, Some("Stat 3 Value")),
    SiteContentCreate("IMPACT", "impact_stat_3_label",
      Some("Community Projects"), DefaultContentType, Some("Stat 3 Label"))
  ]

  const FooterDefaults: seq<SiteContentCreate> := [
    SiteContentCreate("FOOTER", "footer_desc",
      Some("Wakero Keleboro Memorial Pre-School. Empowering rural communities through education."), DefaultContentType, Some("Footer Description"))
  ]

  const CommunityDefaults: seq<SiteContentCreate> := [
    SiteContentCreate("COMMUNITY", "community_badge",
      Some("Our Community"), DefaultContentType, Some("Section Badge")),
    SiteContentCreate("COMMUNITY", "community_title",
      Some("Understanding the Need"), DefaultContentType, Some("Main Title")),
    SiteContentCreate("COMMUNITY", "community_col1_title",
      Some("The Challenge"), DefaultContentType, Some("Left Column Title")),
    SiteContentCreate("COMMUNITY", "community_challenge_1",
      Some("Lack of nearby schools forces young children to walk long distances daily."), DefaultContentType, Some("Challenge Point 1")),
    SiteContentCreate("COMMUNITY", "community_challenge_2",
      Some("Economic hardship means families often prioritize farm labor over early education."), DefaultContentType, Some("Challenge Point 2")),
    SiteContentCreate("COMMUNITY", "community_challenge_3",
      Some("Malnutrition affects cognitive development and ability to focus in class."), DefaultContentType, Some("Challenge Point 3")),
    SiteContentCreate("COMMUNITY", "community_col2_title",
      Some("The WKMS Solution"), DefaultContentType, Some("Right Column Title")),
    SiteContentCreate("COMMUNITY", "community_solution_1_label",
      Some("Local Access:"), DefaultContentType, Some("Solution 1 Bold Label")),
    SiteContentCreate("COMMUNITY", "community_solution_1_text",
      Some("A safe, high-quality school right in the heart of the village."), DefaultContentType, Some("Solution 1 Text")),
    SiteContentCreate("COMMUNITY", "community_solution_2_label",
      Some("Full Scholarships:"), DefaultContentType, Some("Solution 2 Bold Label")),
    SiteContentCreate("COMMUNITY", "community_solution_2_text",
      Some("Education is free for the most vulnerable families."), DefaultContentType, Some("Solution 2 Text")),
    SiteContentCreate("COMMUNITY", "community_solution_3_label",
      Some("School Feeding:"), DefaultContentType, Some("Solution 3 Bold Label")),
    SiteContentCreate("COMMUNITY", "community_solution_3_text",
      Some("Two nutritious meals a day for every student."), DefaultContentType, Some("Solution 3 Text"))
  ]

  const MediaDefaults: seq<SiteContentCreate> := [
    SiteContentCreate("MEDIA", "media_title",
      Some("Stories from the Field."), DefaultContentType, Some("Section Title")),
    SiteContentCreate("MEDIA", "media_subtitle",
      Some("Witness the daily moments of joy, learning, and growth at WKMS."), DefaultContentType, Some("Section Subtitle"))
  ]

  const Defaults: seq<SiteContentCreate> :=
    HeroDefaults + AboutDefaults + ImpactDefaults + FooterDefaults + CommunityDefaults + MediaDefaults

  // ---------------------------------------------------------------- shape of the defaults

  /** The keys of `items` are pairwise distinct. */
  ghost predicate ItemKeysDistinct(items: seq<SiteContentCreate>) {
    forall i, j :: 0 <= i < j < |items| ==> items[i].key != items[j].key
  }

  /** Every item belongs to `section`, and its key starts with `prefix`. */
  ghost predicate KeysPrefixed(items: seq<SiteContentCreate>, section: string, prefix: string) {
    forall i :: 0 <= i < |items| ==> items[i].section == section && StartsWith(items[i].key, prefix)
  }

  /** Every key is non-empty and starts with a character of `cs`. */
  ghost predicate KeysStartIn(items: seq<SiteContentCreate>, cs: set<char>) {
    forall i :: 0 <= i < |items| ==> items[i].key != [] && items[i].key[0] in cs
  }

  lemma SectionPrefixes()
    ensures Lower("HERO") + "_" == "hero_" && Lower("ABOUT") + "_" == "about_"
    ensures Lower("IMPACT") + "_" == "impact_" && Lower("FOOTER") + "_" == "footer_"
    ensures Lower("COMMUNITY") + "_" == "community_" && Lower("MEDIA") + "_" == "media_"
  {
    assert Lower("HERO") == "hero";
    assert Lower("ABOUT") == "about";
    assert Lower("IMPACT") == "impact";
    assert Lower("FOOTER") == "footer";
    assert Lower("COMMUNITY") == "community";
    assert Lower("MEDIA") == "media";
  }

  lemma HeroKeys()
    ensures KeysPrefixed(HeroDefaults, "HERO", "hero_")
  {
  }

  lemma HeroDistinct()
    ensures ItemKeysDistinct(HeroDefaults)
  {
  }

  lemma AboutKeys()
    ensures KeysPrefixed(AboutDefaults, "ABOUT", "about_")
  {
  }

  lemma AboutDistinct()
    ensures ItemKeysDistinct(AboutDefaults)
  {
  }

  lemma ImpactKeys()
    ensures KeysPrefixed(ImpactDefaults, "IMPACT", "impact_")
  {
  }

  lemma ImpactDistinct()
    ensures ItemKeysDistinct(ImpactDefaults)
  {
  }

  lemma FooterKeys()
    ensures KeysPrefixed(FooterDefaults, "FOOTER", "footer_")
  {
  }

  lemma FooterDistinct()
    ensures ItemKeysDistinct(FooterDefaults)
  {
  }

  lemma CommunityKeys()
    ensures KeysPrefixed(CommunityDefaults, "COMMUNITY", "community_")
  {
    assert forall i :: 0 <= i < 7 ==> CommunityDefaults[i].section == "COMMUNITY" && StartsWith(CommunityDefaults[i].key, "community_");
    assert forall i :: 7 <= i < 13 ==> CommunityDefaults[i].section == "COMMUNITY" && StartsWith(CommunityDefaults[i].key, "community_");
  }

  lemma CommunityDistinct()
    ensures ItemKeysDistinct(CommunityDefaults)
  {
    var c := CommunityDefaults;
    assert forall i, j :: 0 <= i < 6 && i < j < 13 ==> c[i].key != c[j].key;
    assert forall i, j :: 6 <= i < j < 13 ==> c[i].key != c[j].key;
  }

  lemma MediaKeys()
    ensures KeysPrefixed(MediaDefaults, "MEDIA", "media_")
  {
  }

  lemma MediaDistinct()
    ensures ItemKeysDistinct(MediaDefaults)
  {
  }

  // ---------------------------------------------------------------- the whole table

  /** Every key starts with its own section in lower case followed by '_'. */
  ghost predicate KeysFollowSections(items: seq<SiteContentCreate>) {
    forall i :: 0 <= i < |items| ==> StartsWith(items[i].key, Lower(items[i].section) + "_")
  }

  lemma {:induction false} PrefixedFollows(items: seq<SiteContentCreate>, section: string, prefix: string)
    requires KeysPrefixed(items, section, prefix) && prefix == Lower(section) + "_"
    ensures KeysFollowSections(items) && KeysStartIn(items, {prefix[0]})
  {
    forall i | 0 <= i < |items|
      ensures StartsWith(items[i].key, Lower(items[i].section) + "_")
      ensures items[i].key != [] && items[i].key[0] in {prefix[0]}
    {
      assert items[i].key[..|prefix|] == prefix;
      assert items[i].key[0] == items[i].key[..|prefix|][0];
    }
  }

  /** Two lists of distinct keys whose keys start with disjoint sets of characters have no key in
      common. */
  lemma {:induction false} DistinctConcat(a: seq<SiteContentCreate>, b: seq<SiteContentCreate>, ca: set<char>, cb: set<char>)
    requires ItemKeysDistinct(a) && ItemKeysDistinct(b)
    requires KeysStartIn(a, ca) && KeysStartIn(b, cb) && ca !! cb
    requires KeysFollowSections(a) && KeysFollowSections(b)
    ensures ItemKeysDistinct(a + b) && KeysStartIn(a + b, ca + cb) && KeysFollowSections(a + b)
  {
    var ab := a + b;
    forall i, j | 0 <= i < j < |ab|
      ensures ab[i].key != ab[j].key
    {
      if i < |a| && j >= |a| {
        assert ab[i] == a[i] && ab[j] == b[j - |a|];
        assert a[i].key[0] in ca && b[j - |a|].key[0] in cb;
      } else if j < |a| {
        assert ab[i] == a[i] && ab[j] == a[j];
      } else {
        assert ab[i] == b[i - |a|] && ab[j] == b[j - |a|];
      }
    }
    forall i | 0 <= i < |ab|
      ensures ab[i].key != [] && ab[i].key[0] in ca + cb
      ensures StartsWith(ab[i].key, Lower(ab[i].section) + "_")
    {
      if i < |a| {
        assert ab[i] == a[i];
      } else {
        assert ab[i] == b[i - |a|];
      }
    }
  }

  /** The HERO, ABOUT and IMPACT entries. */
  lemma FirstSectionsShape()
    ensures var hai := HeroDefaults + AboutDefaults + ImpactDefaults;
      ItemKeysDistinct(hai) && KeysStartIn(hai, {'h', 'a', 'i'}) && KeysFollowSections(hai)
  {
    SectionPrefixes();
    HeroKeys(); AboutKeys(); ImpactKeys();
    HeroDistinct(); AboutDistinct(); ImpactDistinct();
    PrefixedFollows(HeroDefaults, "HERO", "hero_");
    PrefixedFollows(AboutDefaults, "ABOUT", "about_");
    PrefixedFollows(ImpactDefaults, "IMPACT", "impact_");
    DistinctConcat(HeroDefaults, AboutDefaults, {'h'}, {'a'});
    DistinctConcat(HeroDefaults + AboutDefaults, ImpactDefaults, {'h', 'a'}, {'i'});
  }

  /** The 37 default keys are pairwise distinct, and each starts with its section in lower case
      followed by '_'. */
  lemma DefaultsShape()
    ensures |Defaults| == 37
    ensures ItemKeysDistinct(Defaults) && KeysFollowSections(Defaults)
  {
    SectionPrefixes();
    FirstSectionsShape();
    FooterKeys(); CommunityKeys(); MediaKeys();
    FooterDistinct(); CommunityDistinct(); MediaDistinct();
    PrefixedFollows(FooterDefaults, "FOOTER", "footer_");
    PrefixedFollows(CommunityDefaults, "COMMUNITY", "community_");
    PrefixedFollows(MediaDefaults, "MEDIA", "media_");
    var hai := HeroDefaults + AboutDefaults + ImpactDefaults;
    DistinctConcat(hai, FooterDefaults, {'h', 'a', 'i'}, {'f'});
    DistinctConcat(hai + FooterDefaults, CommunityDefaults, {'h', 'a', 'i', 'f'}, {'c'});
    DistinctConcat(hai + FooterDefaults + CommunityDefaults, MediaDefaults, {'h', 'a', 'i', 'f', 'c'}, {'m'});
  }

  // ---------------------------------------------------------------- the loop

  /** The script's loop: each default whose key is missing is created and the others are
      skipped, which is the loop of `initialize_defaults` with its count unused. */
  method Seed(db: Db)
    requires db.Valid()
    modifies db`siteContent
    ensures db.Valid()
    ensures db.siteContent == SeedMissing(old(db.siteContent), Defaults)
  {
    var _ := InitializeDefaults(db, Defaults);
  }

  /** The rows `create` makes of `items`, in order. */
  function Rows(items: seq<SiteContentCreate>): (r: seq<SiteContent>)
    ensures |r| == |items|
    ensures forall i :: 0 <= i < |items| ==> r[i] == NewRow(items[i])
  {
    if items == [] then [] else Rows(items[..|items| - 1]) + [NewRow(items[|items| - 1])]
  }

  /** On an empty store the seed creates every item, in order, since no two share a key. */
  lemma {:induction false} SeedIntoEmpty(items: seq<SiteContentCreate>)
    requires ItemKeysDistinct(items)
    ensures SeedMissing([], items) == Rows(items)
    decreases |items|
  {
    if items != [] {
      var p := items[..|items| - 1];
      SeedIntoEmpty(p);
      var last := items[|items| - 1];
      forall k | 0 <= k < |p| ensures Rows(p)[k].key != last.key {
        assert p[k] == items[k];
      }
    }
  }

  /** Running the script on an empty store yields exactly the 37 defaults; running it again
      changes nothing. */
  lemma SeedFromEmpty()
    ensures SeedMissing([], Defaults) == Rows(Defaults)
    ensures SeedMissing(Rows(Defaults), Defaults) == Rows(Defaults)
  {
    DefaultsShape();
    SeedIntoEmpty(Defaults);
    SeedIdempotent([], Defaults);
  }
}
