/** The gallery endpoints (backend/app/api/v1/endpoints/media.py): listing, deletion with its
    404 rule, and the name and URL an uploaded file is stored under. Creation hands its input
    to `MediaService.Create` unchanged. */
module MediaEndpoint {
  import opened Common
  import opened Models
  import opened Tables
  import opened MediaService

  /** `read_media`: the query arguments go to the service unchanged. */
  function ReadMedia(ms: seq<Media>, skip: nat, limit: nat, mediaType: Option<string>): (r: seq<Media>)
    ensures r == GetMulti(ms, skip, limit, mediaType)
    ensures Truthy(mediaType) ==> forall i :: 0 <= i < |r| ==> r[i].mediaType == mediaType.value
  {
    GetMulti(ms, skip, limit, mediaType)
  }

  /** The body of a successful delete: `{"status": "success", "id": id}`. */
  datatype DeleteReply = DeleteReply(status: string, id: string)

  /** `delete_media`: 404 "Media not found" when the service finds nothing, otherwise the
      success body naming the id. */
  method DeleteMedia(db: Db, id: string) returns (r: Outcome<DeleteReply>)
    requires db.Valid()
    modifies db`media
    ensures db.Valid()
    ensures db.media == Removed(old(db.media), id)
    ensures !MediaIdTaken(old(db.media), id) ==>
      r == Raise(HttpException(404, Some("Media not found"))) && db.media == old(db.media)
    ensures MediaIdTaken(old(db.media), id) ==> r == Ok(DeleteReply("success", id))
  {
    var media := Delete(db, id);
    if media.None? {
      return Raise(HttpException(404, Some("Media not found")));
    }
    r := Ok(DeleteReply("success", id));
  }

  // ---------------------------------------------------------------- upload_file

  /** `filename.split('.')[-1]`: the text after the last '.', or the whole name without one. */
  function Extension(filename: string): (ext: string)
    ensures '.' !in ext
  {
    var pieces := Split(filename, '.');
    pieces[|pieces| - 1]
  }

  /** `f"{uuid}.{ext}"`: the name the file is stored under. */
  function StoredName(uuid: string, filename: string): string {
    uuid + "." + Extension(filename)
  }

  const UploadUrlPrefix: string := "/static/uploads/"
  const SaveErrorPrefix: string := "Could not save file: "

  /** `upload_file`. `uuid` is the generated uuid; `failure` is the text of the exception raised
      while the file was written, if any, which the handler turns into a 500. */
  function Upload(filename: string, uuid: string, failure: Option<string>): (r: Outcome<string>)
    ensures failure.Some? <==> r.Raise?
    ensures failure.Some? ==> r.error == HttpException(500, Some(SaveErrorPrefix + failure.value))
    ensures failure.None? ==> r.value == UploadUrlPrefix + StoredName(uuid, filename)
  {
    if failure.Some? then Raise(HttpException(500, Some(SaveErrorPrefix + failure.value)))
    else Ok(UploadUrlPrefix + StoredName(uuid, filename))
  }

  /** The extension is what follows the last '.' of the name, or the whole name when it has no
      '.'. */
  lemma ExtensionSpec(filename: string)
    ensures EndsWith(filename, Extension(filename))
    ensures '.' in filename ==> EndsWith(filename, "." + Extension(filename))
    ensures '.' !in filename ==> Extension(filename) == filename
  {
    var pieces := Split(filename, '.');
    var ext := pieces[|pieces| - 1];
    JoinSplit(filename, '.');
    if '.' in filename {
      SplitCount(filename, '.');
      CountPositive(filename, '.');
      JoinLast(pieces, '.');
      var front := Join(pieces[..|pieces| - 1], '.');
      assert filename == front + ("." + ext);
      assert filename[|filename| - |ext|..] == ext;
    } else {
      SplitNoSep(filename, '.');
    }
  }

  lemma {:induction false} CountPositive(s: string, c: char)
    requires c in s
    ensures Count(s, c) >= 1
    decreases |s|
  {
    if s[0] != c {
      CountPositive(s[1..], c);
    }
  }

  /** The stored name keeps the upload's extension, whatever the uuid holds. */
  lemma StoredNameKeepsExtension(uuid: string, filename: string)
    ensures Extension(StoredName(uuid, filename)) == Extension(filename)
  {
    SuffixPiece(uuid, Extension(filename), '.');
  }

  /** A separator-free suffix after a separator is the last piece of the split. */
  lemma {:induction false} SuffixPiece(a: string, b: string, sep: char)
    requires sep !in b
    ensures var p := Split(a + [sep] + b, sep); |p| >= 2 && p[|p| - 1] == b
    decreases |a|
  {
    var s := a + [sep] + b;
    if a == [] {
      assert s[1..] == b;
      SplitNoSep(b, sep);
    } else {
      assert s[1..] == a[1..] + [sep] + b;
      SuffixPiece(a[1..], b, sep);
    }
  }

  /** Every successful upload answers with a URL under /static/uploads/ that ends in '.' and the
      upload's extension. */
  lemma UploadUrlShape(filename: string, uuid: string)
    ensures var r := Upload(filename, uuid, None);
      r.Ok? && StartsWith(r.value, UploadUrlPrefix) && EndsWith(r.value, "." + Extension(filename))
  {
    var r := Upload(filename, uuid, None);
    var ext := Extension(filename);
    assert r.value == UploadUrlPrefix + uuid + ("." + ext);
  }
}
