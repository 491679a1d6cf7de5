/** The admin media gallery (frontend/app/admin/gallery/page.tsx): the list it loads, deleting
    an item, and the labels and links that depend on the optional type it is limited to. The
    answers of the requests and of the confirm dialog are inputs. */
module AdminGallery {
  import opened Common
  import opened Models
  import opened UrlEncoding
  import opened MediaService
  import ApiClient
  import MediaEndpoint

  // ---------------------------------------------------------------- deleting

  function NotId(id: string): Media -> bool {
    (m: Media) => m.id != id
  }

  /** `items.filter(item => item.id !== id)`. */
  function WithoutId(items: seq<Media>, id: string): (r: seq<Media>)
    ensures forall i :: 0 <= i < |r| ==> r[i].id != id
    ensures forall i :: 0 <= i < |items| && items[i].id != id ==> items[i] in r
  {
    Filter(items, NotId(id))
  }

  /** A delete keeps the other items in their order, and changes nothing when no item has the
      id. */
  lemma WithoutIdKeepsOrder(items: seq<Media>, id: string)
    ensures SubsequenceOf(WithoutId(items, id), items)
    ensures (forall i :: 0 <= i < |items| ==> items[i].id != id) ==> WithoutId(items, id) == items
  {
    FilterIsSubsequence(items, NotId(id));
    if forall i :: 0 <= i < |items| ==> items[i].id != id {
      FilterAll(items, NotId(id));
    }
  }

  /** When the page holds the server's whole list, removing the item locally gives what the
      server would now list: the page need not reload after a delete. */
  lemma DeleteMatchesServer(ms: seq<Media>, id: string, limitType: Option<string>, limit: nat)
    requires MediaIdsUnique(ms) && limit >= |ms|
    ensures WithoutId(GetMulti(ms, 0, limit, limitType), id) == GetMulti(Removed(ms, id), 0, limit, limitType)
  {
    var tf := TypeFilter(limitType);
    RemovedFilters(ms, id);
    PageAll(Reverse(Filter(ms, tf)), limit);
    PageAll(Reverse(Filter(Removed(ms, id), tf)), limit);
    FilterReverse(Filter(ms, tf), NotId(id));
    FilterCommute(ms, tf, NotId(id));
    assert Filter(ms, NotId(id)) == Filter(ms, (m: Media) => m.id != id);
  }

  lemma PageAll(xs: seq<Media>, limit: nat)
    requires limit >= |xs|
    ensures Page(xs, 0, limit) == xs
  {
  }

  // ---------------------------------------------------------------- labels and links

  /** `media_type === 'VIDEO' || media_type === 'video'`. */
  function IsVideo(mediaType: string): (b: bool)
    ensures b ==> Lower(mediaType) == "video"
    ensures mediaType == Upper("video") ==> b
  {
    assert Lower("VIDEO") == "video" by {
      assert LowerChar('V') == 'v' && LowerChar('I') == 'i' && LowerChar('D') == 'd'
        && LowerChar('E') == 'e' && LowerChar('O') == 'o';
    }
    assert Lower("video") == "video" by {
      assert LowerChar('v') == 'v' && LowerChar('i') == 'i' && LowerChar('d') == 'd'
        && LowerChar('e') == 'e' && LowerChar('o') == 'o';
    }
    assert Upper("video") == "VIDEO" by {
      assert UpperChar('v') == 'V' && UpperChar('i') == 'I' && UpperChar('d') == 'D'
        && UpperChar('e') == 'E' && UpperChar('o') == 'O';
    }
    mediaType == "VIDEO" || mediaType == "video"
  }

  /** An item uploaded as "VIDEO" plays as a video; one uploaded without a type is stored as an
      image and shows as one. */
  lemma StoredTypesShownRight(id: string, url: string, title: Option<string>, description: Option<string>,
                              category: Option<string>)
    ensures IsVideo(NewMedia(id, MakeMediaCreate(url, Some("VIDEO"), title, description, category)).mediaType)
    ensures !IsVideo(NewMedia(id, MakeMediaCreate(url, None, title, description, category)).mediaType)
  {
  }

  const NewMediaPath := "/admin/gallery/new"

  /** The upload link: "?type=X" exactly when the page is limited to a type. */
  function UploadLink(limitType: Option<string>): (link: string)
    ensures !Truthy(limitType) ==> link == NewMediaPath
    ensures Truthy(limitType) ==>
      StartsWith(link, NewMediaPath + "?") && link[|NewMediaPath + "?"|..] == QueryOf([("type", limitType.value)])
  {
    if Truthy(limitType) then
      var link := NewMediaPath + "?type=" + limitType.value;
      assert link[..|NewMediaPath + "?"|] == NewMediaPath + "?";
      assert link[|NewMediaPath + "?"|..] == "type=" + limitType.value;
      assert QueryOf([("type", limitType.value)]) == Join(["type=" + limitType.value], '&');
      link
    else NewMediaPath
  }

  /** The upload page reads the type back from the link. */
  lemma UploadLinkReadsBack(limitType: Option<string>)
    requires Truthy(limitType) && NoDelimiters(limitType.value)
    ensures var q := UploadLink(limitType)[|NewMediaPath + "?"|..];
      Split(q, '&') == [q] && Split(q, '=') == ["type", limitType.value]
  {
    assert NoDelimiters("type");
    QueryOfSplits([("type", limitType.value)]);
    var q := UploadLink(limitType)[|NewMediaPath + "?"|..];
    assert Split(q, '&') == [Split(q, '&')[0]];
    JoinSplit(q, '&');
  }

  /** The spinner's text: the type lower-cased with an 's', or "gallery". */
  function LoadingLabel(limitType: Option<string>): (l: string)
    ensures Truthy(limitType) ==> l == Lower(limitType.value) + "s" && |l| == |limitType.value| + 1
    ensures !Truthy(limitType) ==> l == "gallery"
  {
    if Truthy(limitType) then Lower(limitType.value) + "s" else "gallery"
  }

  /** The embedded upload button names videos only for exactly "VIDEO". */
  function UploadButtonLabel(limitType: Option<string>): (l: string)
    ensures l == "Video" <==> limitType == Some("VIDEO")
    ensures l != "Video" ==> l == "Media"
  {
    if limitType == Some("VIDEO") then "Video" else "Media"
  }

  /** `title || "Untitled"`. */
  function ItemTitle(m: Media): (t: string)
    ensures Truthy(m.title) ==> t == m.title.value
    ensures !Truthy(m.title) ==> t == "Untitled"
  {
    if Truthy(m.title) then m.title.value else "Untitled"
  }

  // ---------------------------------------------------------------- the page state

  /** The page's state, for the type it is limited to (none for the whole gallery). */
  class Gallery {
    var mediaItems: seq<Media>
    var loading: bool
    const limitType: Option<string>

    constructor (limitType: Option<string>)
      ensures mediaItems == [] && loading && this.limitType == limitType
    {
      mediaItems := [];
      loading := true;
      this.limitType := limitType;
    }

    /** `fetchMedia`: the first hundred items of the type, or nothing new on a failure. The
        answer is the URL requested. */
    method FetchMedia(result: Outcome<seq<Media>>) returns (url: string)
      modifies this`mediaItems, this`loading
      ensures url == "/media/?" + QueryOf(ApiClient.ListPairs(ApiClient.DefaultSkip, ApiClient.DefaultLimit,
                                                              "media_type", limitType))
      ensures result.Ok? ==> mediaItems == result.value
      ensures result.Raise? ==> mediaItems == old(mediaItems)
      ensures !loading
    {
      url := ApiClient.GetMediaUrl(0, 100, limitType);
      if result.Ok? {
        mediaItems := result.value;
      }
      loading := false;
    }

    /** `handleDelete`: after the confirm dialog (`confirmed`) the delete request is sent; on
        success the item leaves the list, on failure an alert is shown and the list stays. */
    method HandleDelete(id: string, confirmed: bool, reply: Outcome<MediaEndpoint.DeleteReply>)
      returns (requested: bool, alerted: bool)
      modifies this`mediaItems
      ensures requested == confirmed
      ensures confirmed && reply.Ok? ==> mediaItems == WithoutId(old(mediaItems), id)
      ensures !(confirmed && reply.Ok?) ==> mediaItems == old(mediaItems)
      ensures alerted <==> confirmed && reply.Raise?
    {
      if !confirmed {
        return false, false;
      }
      requested := true;
      if reply.Ok? {
        mediaItems := WithoutId(mediaItems, id);
        alerted := false;
      } else {
        alerted := true;
      }
    }
  }
}
