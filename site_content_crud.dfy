/** CRUD on the site-content key/value store (backend/app/crud/crud_site_content.py). A row is
    identified by its unique `key`; the surrogate `id` column is not part of the model. */
module SiteContentCrud {
  import opened Common
  import opened Models
  import opened Tables

  /** The `SiteContent.key == key` filter. */
  function HasKey(key: string): SiteContent -> bool {
    (c: SiteContent) => c.key == key
  }

  /** The `SiteContent.section == section` filter. */
  function InSection(section: string): SiteContent -> bool {
    (c: SiteContent) => c.section == section
  }

  // ---------------------------------------------------------------- queries

  /** `get_by_key`: the row with that key, or None when there is none. */
  function GetByKey(t: seq<SiteContent>, key: string): (r: Option<SiteContent>)
    ensures r.Some? ==> r.value.key == key && r.value in t
    ensures r.None? <==> forall k :: 0 <= k < |t| ==> t[k].key != key
  {
    match FindFirst(t, HasKey(key))
    case Some(k) => Some(t[k])
    case None => None
  }

  /** With unique keys, every row is what `get_by_key` returns for its own key. */
  lemma GetByKeyFindsRow(t: seq<SiteContent>, k: nat)
    requires KeysUnique(t) && k < |t|
    ensures GetByKey(t, t[k].key) == Some(t[k])
  {
    var f := FindFirst(t, HasKey(t[k].key));
    assert f.Some? && f.value == k;
  }

  /** `get_by_section`: all rows of exactly that section, in table order. */
  function GetBySection(t: seq<SiteContent>, section: string): (r: seq<SiteContent>)
    ensures forall i :: 0 <= i < |r| ==> r[i].section == section && r[i] in t
    ensures forall i :: 0 <= i < |t| && t[i].section == section ==> t[i] in r
    ensures SubsequenceOf(r, t)
  {
    FilterIsSubsequence(t, InSection(section));
    Filter(t, InSection(section))
  }

  /** `get_multi`: skip `skip` rows of the table, then at most `limit`. */
  function GetMulti(t: seq<SiteContent>, skip: nat, limit: nat): (r: seq<SiteContent>)
    ensures |r| <= limit
    ensures forall i :: 0 <= i < |r| ==> skip + i < |t| && r[i] == t[skip + i]
    ensures skip + limit <= |t| ==> |r| == limit
  {
    Page(t, skip, limit)
  }

  // ---------------------------------------------------------------- create

  /** `SiteContentCreate`; `content_type` is "TEXT" unless the input gives one. */
  datatype SiteContentCreate = SiteContentCreate(
    section: string,
    key: string,
    content: Option<string>,
    contentType: string,
    fieldLabel: Option<string>)

  const DefaultContentType: string := "TEXT"

  /** Builds the schema object from its fields as the input names them, with the schema default
      for an omitted `content_type`. */
  function MakeCreate(section: string, key: string, content: Option<string>,
                      contentType: Option<string>, fieldLabel: Option<string>): (obj: SiteContentCreate)
    ensures contentType.None? ==> obj.contentType == DefaultContentType
    ensures contentType.Some? ==> obj.contentType == contentType.value
    ensures obj.section == section && obj.key == key && obj.content == content && obj.fieldLabel == fieldLabel
  {
    SiteContentCreate(section, key, content,
                      if contentType.Some? then contentType.value else DefaultContentType, fieldLabel)
  }

  /** The row `create` inserts. */
  function NewRow(obj: SiteContentCreate): SiteContent {
    SiteContent(obj.section, obj.key, obj.content, obj.contentType, obj.fieldLabel)
  }

  /** `create`: the row is appended; a key already present fails the unique constraint on commit
      and the exception propagates. */
  method Create(db: Db, obj: SiteContentCreate) returns (r: Outcome<SiteContent>)
    requires db.Valid()
    modifies db`siteContent
    ensures db.Valid()
    ensures GetByKey(old(db.siteContent), obj.key).Some? ==> r == Raise(OtherException) && db.siteContent == old(db.siteContent)
    ensures GetByKey(old(db.siteContent), obj.key).None? ==> r == Ok(NewRow(obj)) && db.siteContent == old(db.siteContent) + [NewRow(obj)]
  {
    if GetByKey(db.siteContent, obj.key).Some? {
      return Raise(OtherException);
    }
    var row := NewRow(obj);
    CreateKeepsKeysUnique(db.siteContent, obj);
    db.PutSiteContent(db.siteContent + [row]);
    r := Ok(row);
  }

  /** A created row stores every field exactly as given, is found under its key, and leaves the
      lookup of every other key as it was. */
  lemma CreateKeepsKeysUnique(t: seq<SiteContent>, obj: SiteContentCreate)
    requires KeysUnique(t) && GetByKey(t, obj.key).None?
    ensures var t' := t + [NewRow(obj)];
      && KeysUnique(t')
      && GetByKey(t', obj.key) == Some(NewRow(obj))
      && (forall key :: key != obj.key ==> GetByKey(t', key) == GetByKey(t, key))
    ensures NewRow(obj).section == obj.section && NewRow(obj).key == obj.key
      && NewRow(obj).content == obj.content && NewRow(obj).contentType == obj.contentType
      && NewRow(obj).fieldLabel == obj.fieldLabel
  {
    var t' := t + [NewRow(obj)];
    assert t'[|t|] == NewRow(obj);
    forall key | key != obj.key
      ensures GetByKey(t', key) == GetByKey(t, key)
    {
      FindFirstAppendMiss(t, NewRow(obj), HasKey(key));
    }
    FindFirstAppendMiss(t, NewRow(obj), HasKey(obj.key));
  }

  /** Appending a row leaves the first match among the earlier rows where it was. */
  lemma {:induction false} FindFirstAppendMiss(t: seq<SiteContent>, c: SiteContent, p: SiteContent -> bool)
    ensures FindFirst(t, p).Some? ==> FindFirst(t + [c], p) == FindFirst(t, p)
    ensures FindFirst(t, p).None? && !p(c) ==> FindFirst(t + [c], p).None?
    ensures FindFirst(t, p).None? && p(c) ==> FindFirst(t + [c], p) == Some(|t|)
    decreases |t|
  {
    if t != [] {
      assert (t + [c])[1..] == t[1..] + [c];
      FindFirstAppendMiss(t[1..], c, p);
    }
  }

  // ---------------------------------------------------------------- update

  /** The input of `update`: the `SiteContentUpdate` schema, whose one field `content` is always
      set, or a plain dict of field names to (string) values. */
  datatype UpdateInput = Schema(content: string) | Dict(entries: seq<(string, string)>)

  /** The `(field, value)` pairs `update` iterates: the dict as given, or the schema's
      explicitly set fields (`exclude_unset`). */
  function UpdateData(input: UpdateInput): seq<(string, string)> {
    match input
    case Schema(content) => [("content", content)]
    case Dict(entries) => entries
  }

  /** The column attributes of the ORM row that the model carries. */
  predicate IsAttribute(field: string) {
    field == "section" || field == "key" || field == "content" || field == "content_type" || field == "label"
  }

  /** Reads a column by its attribute name (nullable columns as they are, others as Some). */
  function Get(c: SiteContent, field: string): Option<string> {
    if field == "section" then Some(c.section)
    else if field == "key" then Some(c.key)
    else if field == "content" then c.content
    else if field == "content_type" then Some(c.contentType)
    else if field == "label" then c.fieldLabel
    else None
  }

  /** `setattr(db_obj, field, value)`; a name that is not an attribute leaves the row as it is. */
  function SetAttr(c: SiteContent, field: string, value: string): (r: SiteContent)
    ensures IsAttribute(field) ==> Get(r, field) == Some(value)
    ensures forall f :: IsAttribute(f) && f != field ==> Get(r, f) == Get(c, f)
    ensures !IsAttribute(field) ==> r == c
  {
    if field == "section" then c.(section := value)
    else if field == "key" then c.(key := value)
    else if field == "content" then c.(content := Some(value))
    else if field == "content_type" then c.(contentType := value)
    else if field == "label" then c.(fieldLabel := Some(value))
    else c
  }

  /** The row after the loop of `update` has visited `data` in order. */
  function ApplyFields(c: SiteContent, data: seq<(string, string)>): SiteContent
  {
    if data == [] then c
    else
      var last := data[|data| - 1];
      SetAttr(ApplyFields(c, data[..|data| - 1]), last.0, last.1)
  }

  /** The value the last entry of `data` naming `field` gives it. */
  function Lookup(data: seq<(string, string)>, field: string): (v: Option<string>)
    ensures v.None? <==> forall k :: 0 <= k < |data| ==> data[k].0 != field
    ensures v.Some? ==> exists k :: 0 <= k < |data| && data[k] == (field, v.value)
  {
    if data == [] then None
    else if data[|data| - 1].0 == field then Some(data[|data| - 1].1)
    else Lookup(data[..|data| - 1], field)
  }

  /** `update` sets exactly the attributes the input names, to the value it gives; every other
      attribute is unchanged. */
  lemma {:induction false} ApplyFieldsSpec(c: SiteContent, data: seq<(string, string)>, field: string)
    requires IsAttribute(field)
    ensures Get(ApplyFields(c, data), field)
            == if Lookup(data, field).Some? then Lookup(data, field) else Get(c, field)
    decreases |data|
  {
    if data != [] {
      ApplyFieldsSpec(c, data[..|data| - 1], field);
    }
  }

  /** A row is determined by its five attributes. */
  lemma RowByAttributes(a: SiteContent, b: SiteContent)
    requires forall f :: IsAttribute(f) ==> Get(a, f) == Get(b, f)
    ensures a == b
  {
    assert Get(a, "section") == Get(b, "section");
    assert Get(a, "key") == Get(b, "key");
    assert Get(a, "content") == Get(b, "content");
    assert Get(a, "content_type") == Get(b, "content_type");
    assert Get(a, "label") == Get(b, "label");
  }

  /** With the schema input only `content` changes. */
  lemma SchemaSetsOnlyContent(c: SiteContent, value: string)
    ensures ApplyFields(c, UpdateData(Schema(value))) == c.(content := Some(value))
  {
    var data := UpdateData(Schema(value));
    assert data[..0] == [];
  }

  /** Another row already holds `key`. */
  predicate KeyClash(t: seq<SiteContent>, i: nat, key: string) {
    exists j :: 0 <= j < |t| && j != i && t[j].key == key
  }

  /** `update` of the row at index `i`: the loop over the input's fields, then the commit, which
      fails the unique constraint when the row's key was changed to one another row holds. */
  method Update(db: Db, i: nat, input: UpdateInput) returns (r: Outcome<SiteContent>)
    requires db.Valid() && i < |db.siteContent|
    modifies db`siteContent
    ensures db.Valid()
    ensures var obj := ApplyFields(old(db.siteContent)[i], UpdateData(input));
      if KeyClash(old(db.siteContent), i, obj.key) then
        r == Raise(OtherException) && db.siteContent == old(db.siteContent)
      else
        r == Ok(obj) && db.siteContent == old(db.siteContent)[i := obj]
  {
    var data := UpdateData(input);
    var obj := db.siteContent[i];
    var k := 0;
    while k < |data|
      invariant 0 <= k <= |data|
      invariant obj == ApplyFields(db.siteContent[i], data[..k])
    {
      var field := data[k].0;
      if IsAttribute(field) {
        obj := SetAttr(obj, field, data[k].1);
      }
      assert data[..k + 1][..k] == data[..k];
      k := k + 1;
    }
    assert data[..k] == data;
    if KeyClash(db.siteContent, i, obj.key) {
      return Raise(OtherException);
    }
    db.PutSiteContent(db.siteContent[i := obj]);
    r := Ok(obj);
  }
}
