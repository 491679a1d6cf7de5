/** The admin content editor (frontend/app/admin/cms/page.tsx): the rows of the store grouped
    into one bucket per section, the form state with one text per key, its edits, the save, and
    which panels a tab renders. Network calls are replaced by their results, given as inputs. */
module CmsPage {
  import opened Common
  import opened Models
  import opened SiteContentCrud

  // ---------------------------------------------------------------- grouping

  /** The sections that occur in `data`. */
  function SectionsOf(data: seq<SiteContent>): set<string> {
    set i | 0 <= i < |data| :: data[i].section
  }

  /** What grouping by section means: a bucket for each section that occurs, holding exactly
      that section's rows in their input order. */
  function Grouping(data: seq<SiteContent>): (g: map<string, seq<SiteContent>>)
    ensures g.Keys == SectionsOf(data)
  {
    map s | s in SectionsOf(data) :: Filter(data, InSection(s))
  }

  /** The buckets built row by row, as the `reduce` of `groupBySection` builds them. */
  function Grouped(data: seq<SiteContent>): map<string, seq<SiteContent>> {
    if data == [] then map[] else Pushed(Grouped(data[..|data| - 1]), data[|data| - 1])
  }

  /** `groupBySection`: a `reduce` that creates a section's bucket on its first row and pushes
      every row onto its own section's bucket. */
  method GroupBySection(data: seq<SiteContent>) returns (acc: map<string, seq<SiteContent>>)
    ensures acc == Grouping(data)
  {
    acc := map[];
    for i := 0 to |data|
      invariant acc == Grouped(data[..i])
    {
      var item := data[i];
      assert data[..i + 1][..i] == data[..i];
      if item.section !in acc {
        acc := acc[item.section := []];
      }
      acc := acc[item.section := acc[item.section] + [item]];
    }
    assert data[..|data|] == data;
    GroupedIsGrouping(data);
  }

  /** Pushing row by row builds exactly the grouping. */
  lemma {:induction false} GroupedIsGrouping(data: seq<SiteContent>)
    ensures Grouped(data) == Grouping(data)
    decreases |data|
  {
    if data == [] {
      assert Grouping(data) == map[];
    } else {
      var d := data[..|data| - 1];
      GroupedIsGrouping(d);
      GroupingStep(d, data[|data| - 1]);
      assert d + [data[|data| - 1]] == data;
    }
  }

  /** The buckets after pushing `x` onto its section's bucket, created empty if missing. */
  function Pushed(g: map<string, seq<SiteContent>>, x: SiteContent): map<string, seq<SiteContent>> {
    g[x.section := (if x.section in g then g[x.section] else []) + [x]]
  }

  /** One more row lands at the end of its own section's bucket, which it creates if needed;
      every other bucket stays as it was. */
  lemma GroupingStep(d: seq<SiteContent>, x: SiteContent)
    ensures Grouping(d + [x]) == Pushed(Grouping(d), x)
  {
    var g := Grouping(d);
    var g' := Grouping(d + [x]);
    var h := Pushed(g, x);
    SectionsStep(d, x);
    assert g'.Keys == h.Keys;
    forall s | s in h.Keys
      ensures g'[s] == h[s]
    {
      BucketStep(d, x, s);
    }
  }

  lemma SectionsStep(d: seq<SiteContent>, x: SiteContent)
    ensures SectionsOf(d + [x]) == SectionsOf(d) + {x.section}
  {
    assert forall i :: 0 <= i < |d| ==> (d + [x])[i] == d[i];
    assert (d + [x])[|d|] == x;
  }

  /** A section's rows after one more row: the old ones, then the new row if it belongs. */
  lemma BucketStep(d: seq<SiteContent>, x: SiteContent, s: string)
    ensures Filter(d + [x], InSection(s)) ==
      (if s in SectionsOf(d) then Filter(d, InSection(s)) else []) + (if x.section == s then [x] else [])
  {
    FilterAppend(d, [x], InSection(s));
    assert Filter([x], InSection(s)) == if x.section == s then [x] else [] by {
      assert [x][..0] == [];
    }
    if s !in SectionsOf(d) {
      FilterNone(d, InSection(s));
    }
  }

  /** Every row sits in the bucket of its own section. */
  lemma RowInOwnBucket(data: seq<SiteContent>, i: nat)
    requires i < |data|
    ensures data[i].section in Grouping(data)
    ensures data[i] in Grouping(data)[data[i].section]
    ensures forall s :: s in Grouping(data) ==> forall c :: c in Grouping(data)[s] ==> c.section == s
  {
  }

  /** The number of times `s` occurs in `secs`. */
  function Occurrences(secs: seq<string>, s: string): nat {
    if secs == [] then 0
    else Occurrences(secs[..|secs| - 1], s) + (if secs[|secs| - 1] == s then 1 else 0)
  }

  ghost predicate Distinct(secs: seq<string>) {
    forall i, j :: 0 <= i < j < |secs| ==> secs[i] != secs[j]
  }

  /** The sum of the sizes of the buckets named by `secs`. */
  function TotalSize(g: map<string, seq<SiteContent>>, secs: seq<string>): nat
    requires forall k :: 0 <= k < |secs| ==> secs[k] in g
  {
    if secs == [] then 0 else TotalSize(g, secs[..|secs| - 1]) + |g[secs[|secs| - 1]]|
  }

  /** The number of rows of each section in `secs`, summed. */
  function SectionCounts(data: seq<SiteContent>, secs: seq<string>): nat {
    if secs == [] then 0
    else SectionCounts(data, secs[..|secs| - 1]) + |Filter(data, InSection(secs[|secs| - 1]))|
  }

  /** Listing each section once, the bucket sizes add up to the number of rows: no row is lost
      or counted twice. */
  lemma BucketSizesSum(data: seq<SiteContent>, secs: seq<string>)
    requires Distinct(secs)
    requires forall k :: 0 <= k < |secs| ==> secs[k] in Grouping(data)
    requires forall s :: s in Grouping(data) ==> s in secs
    ensures TotalSize(Grouping(data), secs) == |data|
  {
    TotalIsCounts(data, secs);
    CountsSum(data, secs);
  }

  lemma {:induction false} TotalIsCounts(data: seq<SiteContent>, secs: seq<string>)
    requires forall k :: 0 <= k < |secs| ==> secs[k] in Grouping(data)
    ensures TotalSize(Grouping(data), secs) == SectionCounts(data, secs)
  {
    if secs != [] {
      TotalIsCounts(data, secs[..|secs| - 1]);
    }
  }

  /** Section counts over distinct sections covering every row add up to the rows. */
  lemma {:induction false} CountsSum(data: seq<SiteContent>, secs: seq<string>)
    requires Distinct(secs)
    requires forall i :: 0 <= i < |data| ==> data[i].section in secs
    ensures SectionCounts(data, secs) == |data|
    decreases |data|
  {
    if data != [] {
      var d := data[..|data| - 1];
      var x := data[|data| - 1];
      assert d + [x] == data;
      assert x.section in secs;
      assert forall i :: 0 <= i < |d| ==> d[i] == data[i];
      CountsSum(d, secs);
      CountsStep(d, x, secs);
      OccursOnce(secs, x.section);
    } else {
      CountsEmpty(secs);
    }
  }

  lemma {:induction false} CountsEmpty(secs: seq<string>)
    ensures SectionCounts([], secs) == 0
  {
    if secs != [] {
      CountsEmpty(secs[..|secs| - 1]);
    }
  }

  /** One more row adds one to the count of its section, once for each time `secs` names it. */
  lemma {:induction false} CountsStep(d: seq<SiteContent>, x: SiteContent, secs: seq<string>)
    ensures SectionCounts(d + [x], secs) == SectionCounts(d, secs) + Occurrences(secs, x.section)
  {
    if secs != [] {
      CountsStep(d, x, secs[..|secs| - 1]);
      FilterAppend(d, [x], InSection(secs[|secs| - 1]));
    }
  }

  lemma {:induction false} OccursOnce(secs: seq<string>, s: string)
    requires Distinct(secs) && s in secs
    ensures Occurrences(secs, s) == 1
  {
    var init := secs[..|secs| - 1];
    if secs[|secs| - 1] == s {
      NotOccurring(init, s);
    } else {
      OccursOnce(init, s);
    }
  }

  lemma {:induction false} NotOccurring(secs: seq<string>, s: string)
    requires s !in secs
    ensures Occurrences(secs, s) == 0
  {
    if secs != [] {
      NotOccurring(secs[..|secs| - 1], s);
    }
  }

  // ---------------------------------------------------------------- the form state

  /** `item.content || ""`: the content, or "" when it is null or empty. */
  function FormValue(item: SiteContent): (v: string)
    ensures item.content.Some? ==> v == item.content.value
    ensures item.content.None? ==> v == ""
  {
    if Truthy(item.content) then item.content.value else ""
  }

  /** The form state `loadContent` builds: each key with the text of its last row. */
  function InitialForm(data: seq<SiteContent>): (form: map<string, string>)
    ensures form.Keys == KeysOf(data)
    ensures forall i :: 0 <= i < |data| && LastOfKey(data, i) ==> form[data[i].key] == FormValue(data[i])
  {
    assert forall i :: 0 <= i < |data| && LastOfKey(data, i) ==>
      KeyedBy(data, FormValue)[data[i].key] == FormValue(data[i]) by {
      forall i | 0 <= i < |data| && LastOfKey(data, i)
        ensures KeyedBy(data, FormValue)[data[i].key] == FormValue(data[i])
      {
        LastRowWins(data, FormValue, i);
      }
    }
    KeyedBy(data, FormValue)
  }

  /** The `forEach` of `loadContent` that builds `initialForm`. */
  method BuildForm(data: seq<SiteContent>) returns (form: map<string, string>)
    ensures form == InitialForm(data)
  {
    form := map[];
    for i := 0 to |data|
      invariant form == KeyedBy(data[..i], FormValue)
    {
      assert data[..i + 1][..i] == data[..i];
      form := form[data[i].key := FormValue(data[i])];
    }
    assert data[..|data|] == data;
  }

  /** `handleInputChange`: the key holds the new value and every other key keeps its own. */
  function Edited(form: map<string, string>, key: string, value: string): (form': map<string, string>)
    ensures form'.Keys == form.Keys + {key}
    ensures form'[key] == value
    ensures forall k :: k in form && k != key ==> form'[k] == form[k]
  {
    form[key := value]
  }

  /** Two edits of the same key: the later one wins. Edits of different keys commute. */
  lemma EditsCompose(form: map<string, string>, k1: string, v1: string, k2: string, v2: string)
    ensures k1 == k2 ==> Edited(Edited(form, k1, v1), k2, v2) == Edited(form, k2, v2)
    ensures k1 != k2 ==> Edited(Edited(form, k1, v1), k2, v2) == Edited(Edited(form, k2, v2), k1, v1)
  {
  }

  /** `handleFileUpload`: the uploaded file's URL goes into the key; a failed upload leaves the
      form alone (and alerts). */
  function AfterUpload(form: map<string, string>, key: string, upload: Outcome<string>): (form': map<string, string>)
    ensures upload.Ok? ==> form' == Edited(form, key, upload.value)
    ensures upload.Raise? ==> form' == form
  {
    if upload.Ok? then Edited(form, key, upload.value) else form
  }

  // ---------------------------------------------------------------- the page state

  /** The page's state: the grouped rows, the form, and the two flags. */
  class Editor {
    var content: map<string, seq<SiteContent>>
    var formState: map<string, string>
    var loading: bool
    var saving: bool

    constructor ()
      ensures content == map[] && formState == map[] && loading && !saving
    {
      content := map[];
      formState := map[];
      loading := true;
      saving := false;
    }

    /** `loadContent`. `fetched` is what `getSiteContent()` returned, or an exception; on an
        exception only the spinner stops. */
    method LoadContent(fetched: Outcome<seq<SiteContent>>)
      modifies this
      ensures fetched.Ok? ==> content == Grouping(fetched.value) && formState == InitialForm(fetched.value)
      ensures fetched.Raise? ==> content == old(content) && formState == old(formState)
      ensures !loading && saving == old(saving)
    {
      if fetched.Ok? {
        var grouped := GroupBySection(fetched.value);
        content := grouped;
        var initial := BuildForm(fetched.value);
        formState := initial;
      }
      loading := false;
    }

    method HandleInputChange(key: string, value: string)
      modifies this`formState
      ensures formState == Edited(old(formState), key, value)
    {
      formState := formState[key := value];
    }

    method HandleFileUpload(key: string, upload: Outcome<string>) returns (alerted: bool)
      modifies this`formState
      ensures formState == AfterUpload(old(formState), key, upload)
      ensures alerted <==> upload.Raise?
    {
      alerted := upload.Raise?;
      if upload.Ok? {
        HandleInputChange(key, upload.value);
      }
    }

    /** `handleSave`: the whole form is sent; on success the page reloads with `reloaded`. The
        answer is the body sent. */
    method HandleSave(saved: bool, reloaded: Outcome<seq<SiteContent>>) returns (sent: map<string, string>)
      modifies this
      ensures sent == old(formState)
      ensures saved && reloaded.Ok? ==>
        content == Grouping(reloaded.value) && formState == InitialForm(reloaded.value)
      ensures !(saved && reloaded.Ok?) ==> content == old(content) && formState == old(formState)
      ensures !saving
    {
      saving := true;
      sent := formState;
      if saved {
        LoadContent(reloaded);
      }
      saving := false;
    }
  }

  // ---------------------------------------------------------------- tabs

  /** The tabs; each renders its own panel. */
  const Sections: seq<string> := ["HERO", "ABOUT", "IMPACT", "MEDIA", "VIDEOS", "COMMUNITY", "FOOTER"]

  /** The tabs the "Select a section to edit." fallback is hidden for. */
  const FallbackExclusions: seq<string> := ["HERO", "ABOUT", "IMPACT", "MEDIA", "COMMUNITY", "FOOTER"]

  const FallbackPanel: string := "Select a section to edit."

  /** The panels a tab renders: its own, then the fallback when the tab is a known one not in
      `exclusions`. */
  function Panels(tab: string, exclusions: seq<string>): (ps: seq<string>)
    ensures tab in Sections ==> |ps| >= 1 && ps[0] == tab
    ensures FallbackPanel in ps <==> tab in Sections && tab !in exclusions
  {
    (if tab in Sections then [tab] else [])
    + (if tab in Sections && tab !in exclusions then [FallbackPanel] else [])
  }

  /** The panels as the page renders them: the fallback shows under the VIDEOS tab and no
      other. */
  function RenderedPanels(tab: string): (ps: seq<string>)
    ensures tab in Sections ==> |ps| >= 1 && ps[0] == tab
    ensures FallbackPanel in ps <==> tab == "VIDEOS"
  {
    SectionsFacts();
    Panels(tab, FallbackExclusions)
  }

  /** The VIDEOS tab renders the video gallery and, under it, the fallback: the exclusion list
      leaves VIDEOS out. It is the only tab that does. */
  lemma VideosTabShowsFallback(tab: string)
    requires tab in Sections
    ensures |RenderedPanels(tab)| == 2 <==> tab == "VIDEOS"
    ensures RenderedPanels("VIDEOS") == ["VIDEOS", FallbackPanel]
  {
    SectionsFacts();
  }

  lemma SectionsFacts()
    ensures "VIDEOS" in Sections && "VIDEOS" !in FallbackExclusions
    ensures forall t :: t in Sections && t != "VIDEOS" ==> t in FallbackExclusions
  {
  }

  /** The panels with VIDEOS also excluded, as the fallback's comment intends. */
  function IntendedPanels(tab: string): (ps: seq<string>)
    ensures FallbackPanel !in ps
    ensures tab in Sections ==> ps == [tab]
  {
    Panels(tab, Sections)
  }

  /** With every section excluded, each tab renders exactly its own panel. */
  lemma IntendedOnePanel(tab: string)
    requires tab in Sections
    ensures IntendedPanels(tab) == [tab]
  {
  }
}
