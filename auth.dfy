/** Google sign-in for the admin panel (backend/app/api/v1/endpoints/auth.py): the
    authorization-code redirect, and the callback's whitelist and superuser decision with the
    user record it creates on the first sign-in. The HTTP exchanges with Google are replaced by
    their replies, given as inputs. */
module Auth {
  import opened Common
  import opened Models
  import opened Tables
  import opened UrlEncoding

  /** The settings the endpoints read. */
  datatype AuthSettings = AuthSettings(
    googleAuthUri: string,
    clientId: string,
    redirectUri: string,
    authorizedEmails: seq<string>,
    superAdminEmails: seq<string>)

  // ---------------------------------------------------------------- login

  /** The three scopes, their separating spaces escaped as "%20". */
  const Scope: string := "openid" + "%20" + "email" + "%20" + "profile"

  /** The four key/value pairs of the consent-screen query, as interpolated (without escaping). */
  function LoginPairs(s: AuthSettings): seq<(string, string)> {
    [("response_type", "code"), ("client_id", s.clientId), ("redirect_uri", s.redirectUri), ("scope", Scope)]
  }

  /** The query of the consent-screen redirect. */
  function LoginQuery(s: AuthSettings): string {
    QueryOf(LoginPairs(s))
  }

  /** `login_with_google`: the URL the browser is redirected to. */
  function LoginUrl(s: AuthSettings): (url: string)
    ensures StartsWith(url, s.googleAuthUri + "?")
    ensures url[|s.googleAuthUri| + 1..] == LoginQuery(s)
  {
    s.googleAuthUri + "?" + LoginQuery(s)
  }

  /** The redirect is an authorization-code request (section 4.1.1 of RFC 6749): its query
      splits into exactly the items `response_type=code`, `client_id`, `redirect_uri` and `scope`
      with their values, as long as the two interpolated settings hold no '&' or '='. */
  lemma LoginQueryItems(s: AuthSettings)
    requires NoDelimiters(s.clientId) && NoDelimiters(s.redirectUri)
    ensures var items := Split(LoginQuery(s), '&');
      |items| == 4 && forall k :: 0 <= k < 4 ==> Split(items[k], '=') == [LoginPairs(s)[k].0, LoginPairs(s)[k].1]
  {
    LiteralKeysPlain();
    ScopePlain();
    QueryOfSplits(LoginPairs(s));
  }

  lemma LiteralKeysPlain()
    ensures NoDelimiters("response_type") && NoDelimiters("code") && NoDelimiters("client_id")
    ensures NoDelimiters("redirect_uri") && NoDelimiters("scope")
  {
  }

  lemma ScopePlain()
    ensures NoDelimiters(Scope)
  {
  }

  /** Three plain words joined by "%20", as the scope is written, decode to the words separated by
      single spaces. */
  lemma EscapedSpacesDecode(a: string, b: string, c: string)
    requires '%' !in a && '+' !in a && '%' !in b && '+' !in b && '%' !in c && '+' !in c
    ensures UnquotePlus(a + "%20" + b + "%20" + c) == a + " " + b + " " + c
  {
    Regroup(a, "%20", b, "%20", c);
    UnquoteSpace(a, b + "%20" + c);
    UnquoteSpace(b, c);
    UnquotePlain(c);
    Regroup(a, " ", b, " ", c);
  }

  /** Five pieces joined left to right equal the first two followed by the last three joined. */
  lemma Regroup(a: string, x: string, b: string, y: string, c: string)
    ensures a + x + b + y + c == a + x + (b + y + c)
  {
  }

  /** Text without '+' or '%' decodes to itself. */
  lemma {:induction false} UnquotePlain(v: string)
    requires '%' !in v && '+' !in v
    ensures UnquotePlus(v) == v
    decreases |v|
  {
    if v != [] {
      UnquotePlain(v[1..]);
      assert [v[0]] + v[1..] == v;
    }
  }

  /** "%20" at the head decodes to one space. */
  lemma UnquoteEscapedSpace(rest: string)
    ensures UnquotePlus("%20" + rest) == " " + UnquotePlus(rest)
  {
    var s := "%20" + rest;
    assert s[3..] == rest;
    assert IsHexDigit('2') && IsHexDigit('0') && HexValue('2') == 2 && HexValue('0') == 0;
    assert EscapedByte(s, 0) == Some(32);
  }

  /** A head character other than '+' and '%' decodes to itself. */
  lemma UnquotePlainHead(s: string)
    requires s != [] && s[0] != '+' && s[0] != '%'
    ensures UnquotePlus(s) == [s[0]] + UnquotePlus(s[1..])
  {
    assert EscapedByte(s, 0).None?;
  }

  /** Three pieces joined, split at the first character of the non-empty first piece. */
  lemma HeadOfJoin(a: string, x: string, y: string)
    requires a != []
    ensures (a + x + y)[0] == a[0] && (a + x + y)[1..] == a[1..] + x + y
    ensures [a[0]] + (a[1..] + x + y) == a + x + y
  {
    assert a == [a[0]] + a[1..];
  }

  /** Plain text followed by "%20" decodes to the text and a space. */
  lemma {:induction false} UnquoteSpace(a: string, rest: string)
    requires '%' !in a && '+' !in a
    ensures UnquotePlus(a + "%20" + rest) == a + " " + UnquotePlus(rest)
    decreases |a|
  {
    var s := a + "%20" + rest;
    if a == [] {
      UnquoteEscapedSpace(rest);
    } else {
      assert a[0] in a && forall c :: c in a[1..] ==> c in a;
      HeadOfJoin(a, "%20", rest);
      UnquotePlainHead(s);
      UnquoteSpace(a[1..], rest);
      HeadOfJoin(a, " ", UnquotePlus(rest));
    }
  }

  // ---------------------------------------------------------------- callback

  /** Google's token reply: whether it has an "error" key, its "error_description" if any. */
  datatype TokenReply = TokenReply(hasError: bool, errorDescription: Option<string>)

  /** Google's profile reply: its "email" and "name" if present. */
  datatype Profile = Profile(email: Option<string>, name: Option<string>)

  const NoEmailDetail: string := "Google authentication failed: No email provided."
  const NotAuthorizedDetail: string := "Access Denied: This email is not authorized for the Admin Panel."
  const PlaceholderPassword: string := "oauth_user_no_password"
  const FrontendCallbackUrl: string := "http://localhost:3000/auth/callback"

  /** Steps 1 to 3 of `google_callback`: the admitted email, or the error that stops it. */
  function Admit(s: AuthSettings, token: TokenReply, profile: Profile): (r: Outcome<string>)
    ensures r.Ok? <==> !token.hasError && Truthy(profile.email) && profile.email.value in s.authorizedEmails
    ensures r.Ok? ==> r.value == profile.email.value
    ensures token.hasError ==> r == Raise(HttpException(400, token.errorDescription))
    ensures !token.hasError && !Truthy(profile.email) ==> r == Raise(HttpException(400, Some(NoEmailDetail)))
    ensures !token.hasError && Truthy(profile.email) && profile.email.value !in s.authorizedEmails ==>
      r == Raise(HttpException(403, Some(NotAuthorizedDetail)))
  {
    if token.hasError then Raise(HttpException(400, token.errorDescription))
    else if !Truthy(profile.email) then Raise(HttpException(400, Some(NoEmailDetail)))
    else if profile.email.value !in s.authorizedEmails then Raise(HttpException(403, Some(NotAuthorizedDetail)))
    else Ok(profile.email.value)
  }

  function HasEmail(email: string): User -> bool {
    (u: User) => u.email == email
  }

  /** `.filter(User.email == email).first()`. */
  function FindUser(us: seq<User>, email: string): (r: Option<nat>)
    ensures r.Some? ==> r.value < |us| && us[r.value].email == email
    ensures r.None? <==> forall k :: 0 <= k < |us| ==> us[k].email != email
  {
    FindFirst(us, HasEmail(email))
  }

  /** The user created on a first sign-in. */
  function NewUser(s: AuthSettings, email: string, profile: Profile): (u: User)
    ensures u.email == email && u.fullName == profile.name && u.hashedPassword == PlaceholderPassword
    ensures u.isActive
    ensures u.isSuperuser <==> email in s.superAdminEmails
  {
    User(email, profile.name, PlaceholderPassword, true, email in s.superAdminEmails)
  }

  /** The users table after the callback. */
  function UsersAfter(us: seq<User>, s: AuthSettings, token: TokenReply, profile: Profile): seq<User> {
    match Admit(s, token, profile)
    case Raise(_) => us
    case Ok(email) => if FindUser(us, email).Some? then us else us + [NewUser(s, email, profile)]
  }

  /** `google_callback`. `jwt` is the session token minted for the user, which the model does not
      compute; the answer is the redirect to the frontend carrying it. */
  method GoogleCallback(db: Db, s: AuthSettings, token: TokenReply, profile: Profile, jwt: string)
    returns (r: Outcome<string>)
    requires db.Valid()
    modifies db`users
    ensures db.Valid()
    ensures db.users == UsersAfter(old(db.users), s, token, profile)
    ensures Admit(s, token, profile).Raise? ==> r == Raise(Admit(s, token, profile).error)
    ensures Admit(s, token, profile).Ok? ==> r == Ok(FrontendCallbackUrl + "?token=" + jwt)
  {
    var admitted := Admit(s, token, profile);
    if admitted.Raise? {
      return Raise(admitted.error);
    }
    var email := admitted.value;
    if FindUser(db.users, email).None? {
      var u := NewUser(s, email, profile);
      assert (db.users + [u])[|db.users|] == u;
      db.PutUsers(db.users + [u]);
    }
    r := Ok(FrontendCallbackUrl + "?token=" + jwt);
  }

  /** A refused sign-in creates no user; an admitted one leaves exactly one user with that email,
      superuser exactly when the email is also a super-admin's, unless the user already existed,
      which is reused unchanged. */
  lemma CallbackSpec(us: seq<User>, s: AuthSettings, token: TokenReply, profile: Profile)
    requires UserEmailsUnique(us)
    ensures var us' := UsersAfter(us, s, token, profile);
      && UserEmailsUnique(us')
      && (Admit(s, token, profile).Raise? ==> us' == us)
      && (Admit(s, token, profile).Ok? ==>
            var email := profile.email.value;
            && FindUser(us', email).Some?
            && (FindUser(us, email).Some? ==> us' == us)
            && (FindUser(us, email).None? ==>
                  us' == us + [us'[|us|]] && us'[|us|].isSuperuser == (email in s.superAdminEmails)
                  && us'[|us|].isActive))
  {
    match Admit(s, token, profile)
    case Raise(_) =>
    case Ok(email) =>
      if FindUser(us, email).None? {
        var u := NewUser(s, email, profile);
        var us' := us + [u];
        assert us'[|us|] == u;
        assert FindUser(us', email).Some? by {
          assert us'[|us|].email == email;
        }
      }
  }

  /** Signing in again with the same replies changes nothing more. */
  lemma CallbackIdempotent(us: seq<User>, s: AuthSettings, token: TokenReply, profile: Profile)
    ensures UsersAfter(UsersAfter(us, s, token, profile), s, token, profile) == UsersAfter(us, s, token, profile)
  {
    match Admit(s, token, profile)
    case Raise(_) =>
    case Ok(email) =>
      var us' := UsersAfter(us, s, token, profile);
      if FindUser(us, email).None? {
        assert us'[|us|].email == email;
      }
  }

  /** Only an authorized email becomes a superuser: a super-admin missing from the authorized
      list is refused with 403. */
  lemma SuperuserNeedsAuthorization(us: seq<User>, s: AuthSettings, token: TokenReply, profile: Profile)
    requires forall k :: 0 <= k < |us| ==> us[k].isSuperuser ==> us[k].email in s.authorizedEmails
    ensures var us' := UsersAfter(us, s, token, profile);
      forall k :: 0 <= k < |us'| ==> us'[k].isSuperuser ==> us'[k].email in s.authorizedEmails
  {
  }
}
