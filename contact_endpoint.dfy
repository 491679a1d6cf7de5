/** The contact-form endpoints (backend/app/api/v1/endpoints/contact.py): storing a message,
    listing messages newest first, and marking one as read or unread. */
module ContactEndpoint {
  import opened Common
  import opened Models
  import opened Tables

  /** `ContactCreate`: the form's fields; `subject` is optional. */
  datatype ContactCreate = ContactCreate(name: string, email: string, subject: Option<string>, message: string)

  /** The row `create_contact_message` inserts under the generated id `id`: the four fields
      verbatim and `is_read` false, the column default. */
  function NewMessage(id: string, obj: ContactCreate): (m: ContactMessage)
    ensures m.id == id && m.name == obj.name && m.email == obj.email && m.subject == obj.subject
      && m.message == obj.message
    ensures !m.isRead
  {
    ContactMessage(id, obj.name, obj.email, obj.subject, obj.message, false)
  }

  function HasMessageId(id: string): ContactMessage -> bool {
    (m: ContactMessage) => m.id == id
  }

  /** `.filter(ContactMessage.id == id).first()`. */
  function FindMessage(ms: seq<ContactMessage>, id: string): (r: Option<nat>)
    ensures r.Some? ==> r.value < |ms| && ms[r.value].id == id
    ensures r.None? <==> forall k :: 0 <= k < |ms| ==> ms[k].id != id
  {
    FindFirst(ms, HasMessageId(id))
  }

  /** `create_contact_message`: the message is appended; an id already in the table fails the
      primary key on commit and the exception propagates. */
  method CreateMessage(db: Db, obj: ContactCreate, id: string) returns (r: Outcome<ContactMessage>)
    requires db.Valid()
    modifies db`messages
    ensures db.Valid()
    ensures FindMessage(old(db.messages), id).Some? ==>
      r == Raise(OtherException) && db.messages == old(db.messages)
    ensures FindMessage(old(db.messages), id).None? ==>
      r == Ok(NewMessage(id, obj)) && db.messages == old(db.messages) + [NewMessage(id, obj)]
  {
    if FindMessage(db.messages, id).Some? {
      return Raise(OtherException);
    }
    var m := NewMessage(id, obj);
    assert (db.messages + [m])[|db.messages|] == m;
    db.PutMessages(db.messages + [m]);
    r := Ok(m);
  }

  /** `read_contact_messages`: newest first, then offset and limit. */
  function ReadMessages(ms: seq<ContactMessage>, skip: nat, limit: nat): (r: seq<ContactMessage>)
    ensures |r| <= limit
    ensures forall i :: 0 <= i < |r| ==> skip + i < |ms| && r[i] == ms[|ms| - 1 - (skip + i)]
    ensures skip + limit <= |ms| ==> |r| == limit
  {
    Page(Reverse(ms), skip, limit)
  }

  /** A new message is the first one listed, and the messages before it follow in the order
      they were listed before. */
  lemma CreatedListedFirst(ms: seq<ContactMessage>, m: ContactMessage, limit: nat)
    requires limit >= 1
    ensures ReadMessages(ms + [m], 0, limit) == [m] + ReadMessages(ms, 0, limit - 1)
  {
    var ms' := ms + [m];
    assert ms'[..|ms'| - 1] == ms;
    assert Reverse(ms') == [m] + Reverse(ms);
  }

  /** The body of `update_contact_message`: the one field of `ContactUpdate`. */
  datatype ContactUpdate = ContactUpdate(isRead: bool)

  /** The table after `is_read` of the message at index `k` was set. */
  function MarkRead(ms: seq<ContactMessage>, k: nat, isRead: bool): (r: seq<ContactMessage>)
    requires k < |ms|
    ensures |r| == |ms|
    ensures r[k].isRead == isRead
    ensures r[k] == ms[k].(isRead := r[k].isRead)
    ensures forall j :: 0 <= j < |ms| && j != k ==> r[j] == ms[j]
  {
    ms[k := ms[k].(isRead := isRead)]
  }

  /** `update_contact_message`: 404 "Message not found" for an unknown id; otherwise `is_read` is
      set to the given value and the updated message returned. */
  method UpdateMessage(db: Db, id: string, input: ContactUpdate) returns (r: Outcome<ContactMessage>)
    requires db.Valid()
    modifies db`messages
    ensures db.Valid()
    ensures FindMessage(old(db.messages), id).None? ==>
      r == Raise(HttpException(404, Some("Message not found"))) && db.messages == old(db.messages)
    ensures FindMessage(old(db.messages), id).Some? ==>
      var k := FindMessage(old(db.messages), id).value;
      db.messages == MarkRead(old(db.messages), k, input.isRead) && r == Ok(db.messages[k])
  {
    var k := FindMessage(db.messages, id);
    if k.None? {
      return Raise(HttpException(404, Some("Message not found")));
    }
    MarkReadKeepsIds(db.messages, k.value, input.isRead);
    db.PutMessages(MarkRead(db.messages, k.value, input.isRead));
    r := Ok(db.messages[k.value]);
  }

  /** Marking keeps every id, so the table stays keyed by id and the same message is found
      again; marking it twice the same way is marking it once. */
  lemma MarkReadKeepsIds(ms: seq<ContactMessage>, k: nat, isRead: bool)
    requires k < |ms|
    ensures var r := MarkRead(ms, k, isRead);
      && (forall j :: 0 <= j < |ms| ==> r[j].id == ms[j].id)
      && (MessageIdsUnique(ms) ==> MessageIdsUnique(r))
      && FindMessage(r, ms[k].id) == FindMessage(ms, ms[k].id)
      && MarkRead(r, k, isRead) == r
  {
    var r := MarkRead(ms, k, isRead);
    IdsFindAlike(ms, r, ms[k].id);
  }

  /** Tables with the same ids at the same positions find the same position for every id. */
  lemma {:induction false} IdsFindAlike(a: seq<ContactMessage>, b: seq<ContactMessage>, id: string)
    requires |a| == |b| && forall j :: 0 <= j < |a| ==> a[j].id == b[j].id
    ensures FindMessage(a, id) == FindMessage(b, id)
    decreases |a|
  {
    if a != [] && a[0].id != id {
      IdsFindAlike(a[1..], b[1..], id);
    }
  }
}
