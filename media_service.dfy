/** The gallery service (backend/app/services/media_service.py): listing with an optional exact
    type filter, creation, and deletion by primary key. */
module MediaService {
  import opened Common
  import opened Models
  import opened Tables

  // ---------------------------------------------------------------- get_multi

  /** The `WHERE media_type = ?` clause, applied only when the argument is truthy. */
  function TypeFilter(mediaType: Option<string>): Media -> bool {
    (m: Media) => !Truthy(mediaType) || m.mediaType == mediaType.value
  }

  /** `get_multi`: items of the requested type (all items when no type, or "", is given),
      newest first, then offset and limit. */
  function GetMulti(ms: seq<Media>, skip: nat, limit: nat, mediaType: Option<string>): (r: seq<Media>)
    ensures |r| <= limit
    ensures forall i :: 0 <= i < |r| ==> r[i] in ms
    ensures Truthy(mediaType) ==> forall i :: 0 <= i < |r| ==> r[i].mediaType == mediaType.value
  {
    NewestFirst(ms, TypeFilter(mediaType), skip, limit)
  }

  /** A first page as long as the table holds every item of the requested type, in reverse
      table order; the match is case-sensitive, so "image" does not select "IMAGE" items. */
  lemma GetMultiComplete(ms: seq<Media>, limit: nat, mediaType: Option<string>)
    requires limit >= |ms|
    ensures Reverse(GetMulti(ms, 0, limit, mediaType)) == Filter(ms, TypeFilter(mediaType))
    ensures !Truthy(mediaType) ==> Reverse(GetMulti(ms, 0, limit, mediaType)) == ms
    ensures Truthy(mediaType) ==>
      forall i :: 0 <= i < |ms| && ms[i].mediaType == mediaType.value ==> ms[i] in GetMulti(ms, 0, limit, mediaType)
  {
    NewestFirstComplete(ms, TypeFilter(mediaType), limit);
    if !Truthy(mediaType) {
      FilterAll(ms, TypeFilter(mediaType));
    }
  }

  // ---------------------------------------------------------------- create

  /** `MediaCreate`, with its defaults "IMAGE" and "GALLERY". */
  datatype MediaCreate = MediaCreate(
    url: string,
    mediaType: string,
    title: Option<string>,
    description: Option<string>,
    category: string)

  const DefaultMediaType: string := "IMAGE"
  const DefaultCategory: string := "GALLERY"

  /** Builds the schema object from the fields the request gives. */
  function MakeMediaCreate(url: string, mediaType: Option<string>, title: Option<string>,
                           description: Option<string>, category: Option<string>): (obj: MediaCreate)
    ensures obj.mediaType == if mediaType.Some? then mediaType.value else DefaultMediaType
    ensures obj.category == if category.Some? then category.value else DefaultCategory
    ensures obj.url == url && obj.title == title && obj.description == description
  {
    MediaCreate(url, if mediaType.Some? then mediaType.value else DefaultMediaType, title, description,
                if category.Some? then category.value else DefaultCategory)
  }

  /** The row `create` inserts under the generated id `id`. */
  function NewMedia(id: string, obj: MediaCreate): (m: Media)
    ensures m.isFeatured
    ensures m.id == id && m.url == obj.url && m.mediaType == obj.mediaType && m.title == obj.title
      && m.description == obj.description && m.category == obj.category
  {
    Media(id, obj.url, obj.mediaType, obj.title, obj.description, obj.category, true)
  }

  predicate MediaIdTaken(ms: seq<Media>, id: string) {
    exists k :: 0 <= k < |ms| && ms[k].id == id
  }

  /** `create`: the item is appended, always featured; an id already in the table fails the
      primary key on commit and the exception propagates. */
  method Create(db: Db, obj: MediaCreate, id: string) returns (r: Outcome<Media>)
    requires db.Valid()
    modifies db`media
    ensures db.Valid()
    ensures MediaIdTaken(old(db.media), id) ==> r == Raise(OtherException) && db.media == old(db.media)
    ensures !MediaIdTaken(old(db.media), id) ==>
      r == Ok(NewMedia(id, obj)) && db.media == old(db.media) + [NewMedia(id, obj)]
  {
    if MediaIdTaken(db.media, id) {
      return Raise(OtherException);
    }
    var m := NewMedia(id, obj);
    assert (db.media + [m])[|db.media|] == m;
    db.PutMedia(db.media + [m]);
    r := Ok(m);
  }

  /** A created item heads the next listing, unfiltered and filtered by its own type. */
  lemma CreatedListedFirst(ms: seq<Media>, id: string, obj: MediaCreate, limit: nat)
    requires limit >= 1
    ensures var ms' := ms + [NewMedia(id, obj)];
      && GetMulti(ms', 0, limit, None)[0] == NewMedia(id, obj)
      && GetMulti(ms', 0, limit, Some(obj.mediaType))[0] == NewMedia(id, obj)
  {
    var m := NewMedia(id, obj);
    var ms' := ms + [m];
    assert ms'[..|ms'| - 1] == ms;
    var p := TypeFilter(Some(obj.mediaType));
    assert Filter(ms', p) == Filter(ms, p) + [m];
    assert Filter(ms', TypeFilter(None)) == Filter(ms, TypeFilter(None)) + [m];
  }

  // ---------------------------------------------------------------- delete

  function HasMediaId(id: string): Media -> bool {
    (m: Media) => m.id == id
  }

  /** `query.get(id)`: the item with that primary key. */
  function GetById(ms: seq<Media>, id: string): (r: Option<nat>)
    ensures r.Some? ==> r.value < |ms| && ms[r.value].id == id
    ensures r.None? <==> !MediaIdTaken(ms, id)
  {
    FindFirst(ms, HasMediaId(id))
  }

  /** The table after `delete`. */
  function Removed(ms: seq<Media>, id: string): seq<Media> {
    match GetById(ms, id)
    case Some(k) => ms[..k] + ms[k + 1..]
    case None => ms
  }

  /** `delete`: an existing item is removed and returned; an unknown id returns None and
      leaves the table as it was. */
  method Delete(db: Db, id: string) returns (r: Option<Media>)
    requires db.Valid()
    modifies db`media
    ensures db.Valid()
    ensures db.media == Removed(old(db.media), id)
    ensures r.None? <==> !MediaIdTaken(old(db.media), id)
    ensures r.Some? ==> r.value.id == id && r.value in old(db.media)
  {
    var k := GetById(db.media, id);
    if k.None? {
      return None;
    }
    var m := db.media[k.value];
    RemovedFilters(db.media, id);
    FilterIdsUnique(db.media, (x: Media) => x.id != id);
    db.PutMedia(db.media[..k.value] + db.media[k.value + 1..]);
    r := Some(m);
  }

  /** With unique ids, deleting is filtering out that id: the item goes, every other item stays,
      in its order. */
  lemma RemovedFilters(ms: seq<Media>, id: string)
    requires MediaIdsUnique(ms)
    ensures Removed(ms, id) == Filter(ms, (m: Media) => m.id != id)
  {
    var p := (m: Media) => m.id != id;
    match GetById(ms, id)
    case None =>
      FilterAll(ms, p);
    case Some(k) =>
      assert ms == ms[..k] + [ms[k]] + ms[k + 1..];
      FilterAppend(ms[..k] + [ms[k]], ms[k + 1..], p);
      FilterAppend(ms[..k], [ms[k]], p);
      FilterAll(ms[..k], p);
      FilterAll(ms[k + 1..], p);
      assert Filter([ms[k]], p) == [];
  }

  /** Filtering keeps ids unique. */
  lemma {:induction false} FilterIdsUnique(ms: seq<Media>, p: Media -> bool)
    requires MediaIdsUnique(ms)
    ensures MediaIdsUnique(Filter(ms, p))
    decreases |ms|
  {
    if ms != [] {
      var init := ms[..|ms| - 1];
      FilterIdsUnique(init, p);
      var f := Filter(init, p);
      forall i | 0 <= i < |f| ensures f[i].id != ms[|ms| - 1].id {
        var j :| 0 <= j < |init| && init[j] == f[i];
      }
    }
  }

  /** After a delete the id is gone, and a second delete of it finds nothing. */
  lemma DeleteTwice(ms: seq<Media>, id: string)
    requires MediaIdsUnique(ms)
    ensures !MediaIdTaken(Removed(ms, id), id)
    ensures Removed(Removed(ms, id), id) == Removed(ms, id)
  {
    RemovedFilters(ms, id);
    var r := Removed(ms, id);
    assert forall i :: 0 <= i < |r| ==> r[i].id != id;
  }
}
