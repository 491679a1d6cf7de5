/** The public home page (frontend/app/page.tsx): the content lookup with its fallback, the
    content map built from the store, the image marquee and the video carousel. The four
    requests of the initial load are replaced by their results, given as inputs. */
module HomePage {
  import opened Common
  import opened Models

  // ---------------------------------------------------------------- content

  /** `contentMap[item.key] = item.content`, for the rows in order. */
  function ContentMap(data: seq<SiteContent>): (m: map<string, Option<string>>)
    ensures m.Keys == KeysOf(data)
    ensures forall i :: 0 <= i < |data| && LastOfKey(data, i) ==> m[data[i].key] == data[i].content
  {
    var val := (c: SiteContent) => c.content;
    assert forall i :: 0 <= i < |data| && LastOfKey(data, i) ==>
      KeyedBy(data, val)[data[i].key] == data[i].content by {
      forall i | 0 <= i < |data| && LastOfKey(data, i)
        ensures KeyedBy(data, val)[data[i].key] == data[i].content
      {
        LastRowWins(data, val, i);
      }
    }
    KeyedBy(data, val)
  }

  /** The `forEach` of `fetchData` that builds the content map. */
  method BuildContentMap(data: seq<SiteContent>) returns (contentMap: map<string, Option<string>>)
    ensures contentMap == ContentMap(data)
  {
    contentMap := map[];
    for i := 0 to |data|
      invariant contentMap == KeyedBy(data[..i], (c: SiteContent) => c.content)
    {
      assert data[..i + 1][..i] == data[..i];
      contentMap := contentMap[data[i].key := data[i].content];
    }
    assert data[..|data|] == data;
  }

  /** `_t(key, fallback)`: the stored text when there is one and it is not empty; the fallback
      for a missing key, a null content and an empty string alike. */
  function Text(content: map<string, Option<string>>, key: string, fallback: string): (t: string)
    ensures key in content && Truthy(content[key]) ==> t == content[key].value
    ensures !(key in content && Truthy(content[key])) ==> t == fallback
    ensures t == "" ==> fallback == "" || (key in content && content[key] == Some(""))
  {
    if key in content && Truthy(content[key]) then content[key].value else fallback
  }

  /** Looking a key up in the loaded map gives its last row's text, or the fallback when that
      text is null or empty. */
  lemma TextOfLastRow(data: seq<SiteContent>, i: nat, fallback: string)
    requires i < |data|
    requires forall j :: i < j < |data| ==> data[j].key != data[i].key
    ensures Text(ContentMap(data), data[i].key, fallback) ==
      if Truthy(data[i].content) then data[i].content.value else fallback
  {
    LastRowWins(data, (c: SiteContent) => c.content, i);
  }

  /** A key no row has always shows the fallback. */
  lemma MissingKeyFallsBack(data: seq<SiteContent>, key: string, fallback: string)
    requires forall j :: 0 <= j < |data| ==> data[j].key != key
    ensures Text(ContentMap(data), key, fallback) == fallback
  {
  }

  // ---------------------------------------------------------------- the marquee

  /** `[...mediaItems, ...mediaItems]`: the images twice over, so that the strip scrolled by half
      its width looks the same. */
  function Marquee(items: seq<Media>): (r: seq<Media>)
    ensures |r| == 2 * |items|
    ensures forall k :: 0 <= k < |items| ==> r[k] == items[k] && r[|items| + k] == items[k]
  {
    items + items
  }

  // ---------------------------------------------------------------- the carousel

  /** `(prev + 1) % n`. The operands are never negative, where JavaScript's `%` and Dafny's agree. */
  function Next(i: nat, n: nat): (j: nat)
    requires n > 0
    ensures j < n
    ensures i == n - 1 ==> j == 0
    ensures i < n - 1 ==> j == i + 1
  {
    (i + 1) % n
  }

  /** `(prev - 1 + n) % n`, with `prev` an index in range. */
  function Prev(i: nat, n: nat): (j: nat)
    requires i < n
    ensures j < n
    ensures i == 0 ==> j == n - 1
    ensures i > 0 ==> j == i - 1
  {
    (i - 1 + n) % n
  }

  /** Back after forward, and forward after back, return to the same video. */
  lemma PrevNextInverse(i: nat, n: nat)
    requires i < n
    ensures Prev(Next(i, n), n) == i
    ensures Next(Prev(i, n), n) == i
  {
  }

  /** `k` steps forward. */
  function Forward(i: nat, n: nat, k: nat): (j: nat)
    requires i < n
    ensures j < n
  {
    if k == 0 then i else Next(Forward(i, n, k - 1), n)
  }

  /** Up to `n` steps forward land on `i + k`, less `n` once past the end; in particular `n`
      steps come back to the start. */
  lemma {:induction false} ForwardWraps(i: nat, n: nat, k: nat)
    requires i < n && k <= n
    ensures Forward(i, n, k) == if i + k < n then i + k else i + k - n
    ensures k == n ==> Forward(i, n, k) == i
  {
    if k > 0 {
      ForwardWraps(i, n, k - 1);
    }
  }

  /** The arrows and the dots render only when there is more than one video. */
  predicate ShowsNavigation(videoCount: nat) {
    videoCount > 1
  }

  /** The dots: one per video, the one of the current video highlighted. */
  function Dots(n: nat, current: nat): (ds: seq<bool>)
    ensures |ds| == n
    ensures forall k :: 0 <= k < n ==> (ds[k] <==> k == current)
  {
    seq(n, k => k == current)
  }

  /** With the index in range, exactly one dot is highlighted. */
  lemma OneDotHighlighted(n: nat, current: nat, k1: nat, k2: nat)
    requires current < n && k1 < n && k2 < n
    requires Dots(n, current)[k1] && Dots(n, current)[k2]
    ensures k1 == k2 == current
  {
  }

  /** `video.title || "Untitled Video"`. */
  function VideoTitle(m: Media): (t: string)
    ensures Truthy(m.title) ==> t == m.title.value
    ensures !Truthy(m.title) ==> t == "Untitled Video"
  {
    if Truthy(m.title) then m.title.value else "Untitled Video"
  }

  // ---------------------------------------------------------------- the page state

  /** What the four requests of the initial load return. */
  datatype Loaded = Loaded(
    campaigns: seq<Campaign>,
    images: seq<Media>,
    videos: seq<Media>,
    contentData: seq<SiteContent>)

  /** The page's state. */
  class Home {
    var campaigns: seq<Campaign>
    var content: map<string, Option<string>>
    var mediaItems: seq<Media>
    var videoItems: seq<Media>
    var currentVideoIndex: nat
    var loading: bool

    /** The current video is one of the videos, or 0 when there are none. */
    predicate Valid()
      reads this
    {
      currentVideoIndex < |videoItems| || currentVideoIndex == 0
    }

    constructor ()
      ensures Valid()
      ensures campaigns == [] && content == map[] && mediaItems == [] && videoItems == []
      ensures currentVideoIndex == 0 && loading
    {
      campaigns := [];
      content := map[];
      mediaItems := [];
      videoItems := [];
      currentVideoIndex := 0;
      loading := true;
    }

    /** `fetchData`: the four requests run together; when any fails nothing but the spinner
        changes (`Promise.all` rejects as a whole). It runs once on mounting, before any
        navigation, so the index is still 0. */
    method FetchData(result: Outcome<Loaded>)
      requires Valid() && currentVideoIndex == 0
      modifies this
      ensures Valid()
      ensures result.Ok? ==>
        campaigns == result.value.campaigns && mediaItems == result.value.images
        && videoItems == result.value.videos && content == ContentMap(result.value.contentData)
      ensures result.Raise? ==>
        campaigns == old(campaigns) && mediaItems == old(mediaItems) && videoItems == old(videoItems)
        && content == old(content)
      ensures currentVideoIndex == 0 && !loading
    {
      if result.Ok? {
        campaigns := result.value.campaigns;
        mediaItems := result.value.images;
        videoItems := result.value.videos;
        var contentMap := BuildContentMap(result.value.contentData);
        content := contentMap;
      }
      loading := false;
    }

    /** The right arrow, shown only when there is more than one video. */
    method NextVideo()
      requires Valid() && ShowsNavigation(|videoItems|)
      modifies this`currentVideoIndex
      ensures Valid()
      ensures currentVideoIndex == Next(old(currentVideoIndex), |videoItems|)
    {
      currentVideoIndex := (currentVideoIndex + 1) % |videoItems|;
    }

    /** The left arrow, shown only when there is more than one video. */
    method PrevVideo()
      requires Valid() && ShowsNavigation(|videoItems|)
      modifies this`currentVideoIndex
      ensures Valid()
      ensures currentVideoIndex == Prev(old(currentVideoIndex), |videoItems|)
    {
      currentVideoIndex := (currentVideoIndex - 1 + |videoItems|) % |videoItems|;
    }

    /** A dot click jumps to that dot's video. */
    method SelectVideo(idx: nat)
      requires Valid() && ShowsNavigation(|videoItems|) && idx < |videoItems|
      modifies this`currentVideoIndex
      ensures Valid()
      ensures currentVideoIndex == idx
    {
      currentVideoIndex := idx;
    }
  }
}
