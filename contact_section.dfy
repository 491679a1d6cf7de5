/** The public contact form (frontend/components/ContactSection.tsx): its field rules, the
    email pattern, and the status the form moves through when it is sent. The request's answer
    is an input. */
module ContactSection {
  import opened Common
  import opened Models
  import ContactEndpoint
  import AdminMessages

  // ---------------------------------------------------------------- the email pattern

  /** `[A-Z0-9._%+-]` under the `i` flag. */
  predicate LocalChar(c: char) {
    IsAsciiLetter(c) || IsDigit(c) || c == '.' || c == '_' || c == '%' || c == '+' || c == '-'
  }

  /** `[A-Z0-9.-]` under the `i` flag. */
  predicate DomainChar(c: char) {
    IsAsciiLetter(c) || IsDigit(c) || c == '.' || c == '-'
  }

  /** `s` matches `^local+@domain+\.[A-Z]{2,}$` with its '@' at `i` and the '.' before the
      top-level part at `j`. */
  predicate PatternAt(s: string, i: int, j: int) {
    && 0 < i && i + 1 < j && j + 3 <= |s|
    && s[i] == '@' && s[j] == '.'
    && (forall k :: 0 <= k < i ==> LocalChar(s[k]))
    && (forall k :: i < k < j ==> DomainChar(s[k]))
    && (forall k :: j < k < |s| ==> IsAsciiLetter(s[k]))
  }

  /** What the regular expression accepts: some way of cutting `s` into the three parts. */
  ghost predicate EmailPattern(s: string) {
    exists i, j :: PatternAt(s, i, j)
  }

  function IsAt(c: char): bool { c == '@' }

  /** The position of the last `c` in `s`. */
  function LastIndexOf(s: string, c: char): (r: Option<nat>)
    ensures r.Some? ==> r.value < |s| && s[r.value] == c && forall k :: r.value < k < |s| ==> s[k] != c
    ensures r.None? ==> forall k :: 0 <= k < |s| ==> s[k] != c
  {
    if s == [] then None
    else if s[|s| - 1] == c then Some(|s| - 1)
    else LastIndexOf(s[..|s| - 1], c)
  }

  /** The pattern test without backtracking: neither part before the last '.' admits '@', and
      the top-level part admits no '.', so the first '@' and the last '.' are the only cuts
      worth trying. */
  function AcceptsEmail(s: string): (b: bool)
    ensures b <==> EmailPattern(s)
  {
    match FindFirst(s, IsAt)
    case None => false
    case Some(i) =>
      match LastIndexOf(s, '.')
      case None => false
      case Some(j) =>
        PatternAt(s, i, j)
  }

  /** An accepted address has exactly one '@', with something before it; it ends with '.' and
      two or more letters; and it holds no whitespace. */
  lemma AcceptedShape(s: string)
    requires AcceptsEmail(s)
    ensures exists i :: 0 < i < |s| && s[i] == '@' && forall k :: 0 <= k < |s| && k != i ==> s[k] != '@'
    ensures exists j :: 0 <= j && j + 3 <= |s| && s[j] == '.' && forall k :: j < k < |s| ==> IsAsciiLetter(s[k])
    ensures forall k :: 0 <= k < |s| ==> !IsSpace(s[k])
  {
    var i, j :| PatternAt(s, i, j);
    assert forall k :: 0 <= k < |s| && k != i ==> s[k] != '@' by {
      forall k | 0 <= k < |s| && k != i
        ensures s[k] != '@'
      {
        if k < i {
          assert LocalChar(s[k]);
        } else if k < j {
          assert DomainChar(s[k]);
        } else if k > j {
          assert IsAsciiLetter(s[k]);
        }
      }
    }
    assert forall k :: 0 <= k < |s| ==> !IsSpace(s[k]) by {
      forall k | 0 <= k < |s|
        ensures !IsSpace(s[k])
      {
        if k < i {
          assert LocalChar(s[k]);
        } else if i < k < j {
          assert DomainChar(s[k]);
        } else if k > j {
          assert IsAsciiLetter(s[k]);
        }
      }
    }
  }

  /** The `i` flag: upper- or lower-casing an address does not change whether it is accepted. */
  lemma CaseInsensitive(s: string)
    ensures AcceptsEmail(Upper(s)) == AcceptsEmail(s)
    ensures AcceptsEmail(Lower(s)) == AcceptsEmail(s)
  {
    var u, l := Upper(s), Lower(s);
    assert forall i, j :: PatternAt(s, i, j) <==> PatternAt(u, i, j);
    assert forall i, j :: PatternAt(s, i, j) <==> PatternAt(l, i, j);
  }

  /** A typical address is accepted. */
  lemma AcceptsSample()
    ensures AcceptsEmail("info@wkms.org")
  {
    assert PatternAt("info@wkms.org", 4, 9);
  }

  /** An address without anything before its '@', and one whose last part has a single letter,
      are refused. */
  lemma RejectsSamples()
    ensures !AcceptsEmail("@wkms.org")
    ensures !AcceptsEmail("info@wkms.o")
  {
    var a, b := "@wkms.org", "info@wkms.o";
    assert FindFirst(a, IsAt) == Some(0);
    assert b[10] != '.' && b[9] == '.';
    assert LastIndexOf(b, '.') == Some(9);
  }

  // ---------------------------------------------------------------- the form

  /** The four fields as the form holds them; an untouched field is the empty string. */
  datatype FormData = FormData(name: string, email: string, subject: string, message: string)

  const EmptyForm := FormData("", "", "", "")

  /** The message shown under each field, if any. */
  datatype FieldErrors = FieldErrors(name: Option<string>, email: Option<string>, message: Option<string>)

  /** The `register` rules: name, email and message are required, and a non-empty email must
      match the pattern; the subject has no rule. */
  function Validate(f: FormData): (e: FieldErrors)
    ensures e.name.Some? <==> f.name == ""
    ensures e.message.Some? <==> f.message == ""
    ensures e.email.Some? <==> f.email == "" || !EmailPattern(f.email)
    ensures f.email == "" ==> e.email == Some("Email is required")
    ensures f.email != "" && !EmailPattern(f.email) ==> e.email == Some("Invalid email address")
  {
    FieldErrors(
      if f.name == "" then Some("Name is required") else None,
      if f.email == "" then Some("Email is required")
      else if !AcceptsEmail(f.email) then Some("Invalid email address") else None,
      if f.message == "" then Some("Message is required") else None)
  }

  predicate NoErrors(e: FieldErrors) {
    e.name.None? && e.email.None? && e.message.None?
  }

  /** A form passes exactly when its name, message and email are filled and the email matches;
      the subject never matters. */
  lemma ValidationRules(f: FormData, subject: string)
    ensures NoErrors(Validate(f)) <==> f.name != "" && f.message != "" && EmailPattern(f.email)
    ensures Validate(f.(subject := subject)) == Validate(f)
  {
    if EmailPattern(f.email) {
      var i, j :| PatternAt(f.email, i, j);
    }
  }

  // ---------------------------------------------------------------- the status

  datatype Status = Idle | Submitting | Success | Error

  const DefaultError := "Something went wrong. Please try again."

  /** `error.response?.data?.detail || default`. */
  function ErrorText(e: Error): (t: string)
    ensures e.HttpException? && Truthy(e.detail) ==> t == e.detail.value
    ensures !(e.HttpException? && Truthy(e.detail)) ==> t == DefaultError
  {
    if e.HttpException? && Truthy(e.detail) then e.detail.value else DefaultError
  }

  /** What the form sends: its fields, the subject as typed (empty when left blank). */
  function Payload(f: FormData): (c: ContactEndpoint.ContactCreate)
    ensures c.name == f.name && c.email == f.email && c.message == f.message && c.subject == Some(f.subject)
  {
    ContactEndpoint.ContactCreate(f.name, f.email, Some(f.subject), f.message)
  }

  /** A message sent with the subject left blank is stored with an empty subject, and the inbox
      answers it under "Re: Your Inquiry". */
  lemma BlankSubjectRepliedAsInquiry(f: FormData, id: string)
    requires f.subject == ""
    ensures var m := ContactEndpoint.NewMessage(id, Payload(f));
      m.subject == Some("")
      && AdminMessages.ReplyHref(m)[|"mailto:" + f.email + AdminMessages.ReplyPrefix|..] == "Your Inquiry"
  {
  }

  /** The form's state. */
  class Contact {
    var form: FormData
    var status: Status
    var errorMessage: string

    constructor ()
      ensures form == EmptyForm && status == Idle && errorMessage == ""
    {
      form := EmptyForm;
      status := Idle;
      errorMessage := "";
    }

    /** The submit button is disabled while a message is being sent. */
    predicate SubmitDisabled()
      reads this
    {
      status == Submitting
    }

    /** The form is replaced by the thank-you panel after a success. */
    predicate ShowsForm()
      reads this
    {
      status != Success
    }

    /** Typing into a field. */
    method Edit(f: FormData)
      modifies this`form
      ensures form == f
    {
      form := f;
    }

    /** The submit button (enabled, on the form): `handleSubmit` validates first and calls
        `onSubmit` only when every rule passes; `onSubmit` then moves to `submitting` and sends
        the form. The answer is what was sent. */
    method BeginSubmit() returns (sent: Option<ContactEndpoint.ContactCreate>)
      requires !SubmitDisabled() && ShowsForm()
      modifies this`status
      ensures sent.Some? <==> NoErrors(Validate(form))
      ensures sent.Some? ==> sent.value == Payload(form) && status == Submitting
      ensures sent.None? ==> status == old(status)
    {
      if NoErrors(Validate(form)) {
        status := Submitting;
        sent := Some(Payload(form));
      } else {
        sent := None;
      }
    }

    /** The request's answer: success shows the thank-you panel and empties the form; a failure
        shows the server's detail, or the default text, above the button. */
    method CompleteSubmit(reply: Outcome<ContactMessage>)
      requires status == Submitting
      modifies this
      ensures reply.Ok? ==> status == Success && form == EmptyForm && errorMessage == old(errorMessage)
      ensures reply.Raise? ==>
        status == Error && errorMessage == ErrorText(reply.error) && form == old(form)
    {
      match reply
      case Ok(_) =>
        status := Success;
        form := EmptyForm;
      case Raise(e) =>
        status := Error;
        errorMessage := ErrorText(e);
    }

    /** "Send another message", and the five-second timer after a success: back to `idle`. */
    method ResetStatus()
      modifies this`status
      ensures status == Idle && !SubmitDisabled() && ShowsForm()
    {
      status := Idle;
    }
  }
}
