/** The admin inbox (frontend/app/admin/messages/page.tsx): the case-insensitive search over
    the loaded messages, the avatar letter and the reply link. The list request's answer is an
    input. */
module AdminMessages {
  import opened Common
  import opened Models
  import ApiClient

  /** A message passes the search when the lower-cased term occurs in its lower-cased name,
      email, subject (when it has one) or text. */
  function Matches(msg: ContactMessage, term: string): (b: bool)
    ensures term == "" ==> b
    ensures msg.subject.None? ==>
      (b <==> Contains(Lower(msg.name), Lower(term)) || Contains(Lower(msg.email), Lower(term))
              || Contains(Lower(msg.message), Lower(term)))
  {
    var t := Lower(term);
    assert term == "" ==> OccursAt(Lower(msg.name), t, 0);
    || Contains(Lower(msg.name), t)
    || Contains(Lower(msg.email), t)
    || (msg.subject.Some? && Contains(Lower(msg.subject.value), t))
    || Contains(Lower(msg.message), t)
  }

  /** `filteredMessages`. */
  function FilteredMessages(messages: seq<ContactMessage>, term: string): (r: seq<ContactMessage>)
    ensures forall i :: 0 <= i < |r| ==> r[i] in messages && Matches(r[i], term)
    ensures forall i :: 0 <= i < |messages| && Matches(messages[i], term) ==> messages[i] in r
  {
    Filter(messages, (m: ContactMessage) => Matches(m, term))
  }

  /** The result is an order-preserving sub-list of the messages, and holds a message exactly
      when it matches. */
  lemma FilteredIsSublist(messages: seq<ContactMessage>, term: string)
    ensures SubsequenceOf(FilteredMessages(messages, term), messages)
    ensures forall i :: 0 <= i < |messages| ==>
      (messages[i] in FilteredMessages(messages, term) <==> Matches(messages[i], term))
  {
    FilterIsSubsequence(messages, (m: ContactMessage) => Matches(m, term));
  }

  /** An empty search keeps every message, in order. */
  lemma EmptySearchKeepsAll(messages: seq<ContactMessage>)
    ensures FilteredMessages(messages, "") == messages
  {
    forall i | 0 <= i < |messages|
      ensures Matches(messages[i], "")
    {
      assert OccursAt(Lower(messages[i].name), "", 0);
    }
    FilterAll(messages, (m: ContactMessage) => Matches(m, ""));
  }

  /** The case of the search term does not matter. */
  lemma SearchIgnoresCase(msg: ContactMessage, term: string)
    ensures Matches(msg, Upper(term)) <==> Matches(msg, term)
    ensures Matches(msg, Lower(term)) <==> Matches(msg, term)
  {
    assert Lower(Upper(term)) == Lower(term);
    assert Lower(Lower(term)) == Lower(term);
  }

  /** A message without a subject is still found by its name, email or text. */
  lemma SubjectlessMatchesOtherFields(msg: ContactMessage, term: string)
    requires msg.subject.None?
    ensures Matches(msg, term) <==>
      Contains(Lower(msg.name), Lower(term)) || Contains(Lower(msg.email), Lower(term))
      || Contains(Lower(msg.message), Lower(term))
  {
  }

  /** `name.charAt(0).toUpperCase()`: the upper-cased first letter, empty for an empty name. */
  function Avatar(name: string): (a: string)
    ensures |a| == if name == "" then 0 else 1
    ensures a == Upper(name)[..|a|]
  {
    if name == "" then "" else [UpperChar(name[0])]
  }

  const ReplyPrefix := "?subject=Re: "

  /** The reply link: a mail to the sender whose subject is "Re: " and the message's subject, or
      "Re: Your Inquiry" when it has none. */
  function ReplyHref(msg: ContactMessage): (h: string)
    ensures StartsWith(h, "mailto:" + msg.email + ReplyPrefix)
    ensures h[|"mailto:" + msg.email + ReplyPrefix|..] ==
      if Truthy(msg.subject) then msg.subject.value else "Your Inquiry"
  {
    var head := "mailto:" + msg.email + ReplyPrefix;
    var h := head + (if Truthy(msg.subject) then msg.subject.value else "Your Inquiry");
    assert h[..|head|] == head;
    h
  }

  /** The page's state. */
  class Inbox {
    var messages: seq<ContactMessage>
    var loading: bool
    var searchTerm: string

    constructor ()
      ensures messages == [] && loading && searchTerm == ""
    {
      messages := [];
      loading := true;
      searchTerm := "";
    }

    /** The cards shown: the messages that pass the current search. */
    function Shown(): (ms: seq<ContactMessage>)
      reads this
      ensures SubsequenceOf(ms, messages)
      ensures searchTerm == "" ==> ms == messages
    {
      FilteredIsSublist(messages, searchTerm);
      EmptySearchKeepsAll(messages);
      FilteredMessages(messages, searchTerm)
    }

    /** `fetchMessages`, run once on mounting: the first page of messages, or nothing new on a
        failure. The answer is the URL requested. */
    method FetchMessages(result: Outcome<seq<ContactMessage>>) returns (url: string)
      modifies this`messages, this`loading
      ensures url == ApiClient.ContactMessagesUrl(ApiClient.DefaultSkip, ApiClient.DefaultLimit)
      ensures result.Ok? ==> messages == result.value
      ensures result.Raise? ==> messages == old(messages)
      ensures !loading
    {
      url := ApiClient.ContactMessagesUrl(0, 100);
      if result.Ok? {
        messages := result.value;
      }
      loading := false;
    }

    method SetSearchTerm(term: string)
      modifies this`searchTerm
      ensures searchTerm == term
    {
      searchTerm := term;
    }
  }
}
