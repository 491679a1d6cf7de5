/** The Chapa gateway client (backend/app/services/chapa.py): the request headers, the
    initialise payload and the two endpoint URLs. The HTTP calls themselves are not modelled. */
module ChapaService {
  import opened Common

  const BaseUrl: string := "https://api.chapa.co/v1"
  const InitializePath: string := "/transaction/initialize"
  const VerifyPath: string := "/transaction/verify/"
  const BearerPrefix: string := "Bearer "

  // ---------------------------------------------------------------- headers and URLs

  /** The headers every call sends: the secret key as a bearer token, and a JSON body. */
  function Headers(secretKey: string): (h: seq<(string, string)>)
    ensures |h| == 2
    ensures h[0].0 == "Authorization" && StartsWith(h[0].1, BearerPrefix)
    ensures h[0].1[|BearerPrefix|..] == secretKey
    ensures h[1] == ("Content-Type", "application/json")
  {
    [("Authorization", BearerPrefix + secretKey), ("Content-Type", "application/json")]
  }

  /** The URL `initialize_transaction` posts to. */
  function InitializeUrl(): (u: string)
    ensures StartsWith(u, BaseUrl) && u[|BaseUrl|..] == InitializePath
  {
    BaseUrl + InitializePath
  }

  /** The URL `verify_transaction` reads for a reference. */
  function VerifyUrl(txRef: string): (u: string)
    ensures StartsWith(u, BaseUrl + VerifyPath)
    ensures u[|BaseUrl + VerifyPath|..] == txRef
  {
    BaseUrl + VerifyPath + txRef
  }

  /** Different references are verified at different URLs. */
  lemma VerifyUrlInjective(a: string, b: string)
    requires VerifyUrl(a) == VerifyUrl(b)
    ensures a == b
  {
    assert a == VerifyUrl(a)[|BaseUrl + VerifyPath|..];
  }

  // ---------------------------------------------------------------- the amount

  /** Python's `str` of the float `amount`, for an amount given in santim (hundredths of a birr):
      a '-' for a negative amount, the whole birr, '.', and the shortest fraction that reads back
      the same, "0" for a whole amount. */
  function AmountText(santim: int): (t: string)
    ensures '.' in t
  {
    (if santim < 0 then "-" else "") + UnsignedText(if santim < 0 then -santim else santim)
  }

  /** The text of a non-negative amount in santim. */
  function UnsignedText(m: nat): (t: string)
    ensures '.' in t
    ensures t[0] != '-'
  {
    var whole := NatToString(m / 100);
    assert IsDigit(whole[0]);
    assert (whole + "." + FractionText(m % 100))[|whole|] == '.';
    whole + "." + FractionText(m % 100)
  }

  /** The fraction digits of `frac` hundredths, without a trailing zero. */
  function FractionText(frac: nat): (digits: string)
    requires frac < 100
    ensures 1 <= |digits| <= 2 && AllDigits(digits)
    ensures frac % 10 == 0 ==> |digits| == 1
  {
    if frac == 0 then "0"
    else if frac % 10 == 0 then [DigitChar(frac / 10)]
    else [DigitChar(frac / 10), DigitChar(frac % 10)]
  }

  /** Reads a decimal text with one or two fraction digits back into hundredths; None for any
      other shape. */
  function ReadHundredths(t: string): (r: Option<int>)
  {
    if t != [] && t[0] == '-' then
      match ReadUnsigned(t[1..])
      case Some(v) => Some(-v)
      case None => None
    else ReadUnsigned(t)
  }

  function ReadUnsigned(t: string): Option<int> {
    var parts := Split(t, '.');
    if |parts| != 2 || !AllDigits(parts[0]) || !AllDigits(parts[1]) || parts[0] == [] then None
    else if |parts[1]| == 1 then Some(100 * ParseNat(parts[0]) + 10 * ParseNat(parts[1]))
    else if |parts[1]| == 2 then Some(100 * ParseNat(parts[0]) + ParseNat(parts[1]))
    else None
  }

  predicate AllDigits(s: string) {
    forall i :: 0 <= i < |s| ==> IsDigit(s[i])
  }

  /** The text sent for an amount denotes exactly that amount. */
  lemma AmountTextReadsBack(santim: int)
    ensures ReadHundredths(AmountText(santim)) == Some(santim)
  {
    var m: nat := if santim < 0 then -santim else santim;
    UnsignedReadsBack(m);
    var u := UnsignedText(m);
    if santim < 0 {
      var t := "-" + u;
      assert AmountText(santim) == t;
      assert t[0] == '-' && t[1..] == u;
    } else {
      assert AmountText(santim) == u;
    }
  }

  /** A whole amount is sent with the fraction ".0", as Python prints a whole float. */
  lemma WholeAmountText(santim: int)
    requires santim % 100 == 0
    ensures EndsWith(AmountText(santim), ".0")
  {
    var m: nat := if santim < 0 then -santim else santim;
    assert m % 100 == 0;
    var whole := NatToString(m / 100);
    var t := AmountText(santim);
    assert t == (if santim < 0 then "-" else "") + whole + "." + "0";
    assert t[|t| - 2..] == ".0";
  }

  lemma UnsignedReadsBack(m: nat)
    ensures ReadUnsigned(UnsignedText(m)) == Some(m)
  {
    var whole := NatToString(m / 100);
    var digits := FractionText(m % 100);
    assert '.' !in whole by {
      assert forall i :: 0 <= i < |whole| ==> IsDigit(whole[i]);
    }
    assert '.' !in digits;
    SplitConcat(whole, digits, '.');
    SplitNoSep(digits, '.');
    ParseNatToString(m / 100);
    FractionReadsBack(m % 100);
  }

  /** The fraction digits read back as the hundredths they stand for. */
  lemma FractionReadsBack(frac: nat)
    requires frac < 100
    ensures var digits := FractionText(frac);
      (if |digits| == 1 then 10 * ParseNat(digits) else ParseNat(digits)) == frac
  {
    var digits := FractionText(frac);
    assert digits[..|digits| - 1][..0] == [];
    if |digits| == 2 {
      assert digits[..1] == [DigitChar(frac / 10)];
      assert ParseNat(digits[..1]) == frac / 10 by {
        assert digits[..1][..0] == [];
      }
    }
  }

  // ---------------------------------------------------------------- the payload

  /** A JSON value of the payload: a string, or the `customization` object of string fields. */
  datatype JsonValue = JStr(s: string) | JObj(fields: seq<(string, string)>)

  /** `{k: v for k, v in payload.items() if v is not None}`: the present entries, in order. */
  function DropNone(entries: seq<(string, Option<JsonValue>)>): (r: seq<(string, JsonValue)>)
    ensures |r| <= |entries|
    ensures forall i :: 0 <= i < |r| ==> (r[i].0, Some(r[i].1)) in entries
    ensures forall j :: 0 <= j < |entries| && entries[j].1.Some? ==> (entries[j].0, entries[j].1.value) in r
  {
    if entries == [] then []
    else
      var init := entries[..|entries| - 1];
      var last := entries[|entries| - 1];
      assert entries == init + [last];
      var rest := DropNone(init);
      if last.1.Some? then rest + [(last.0, last.1.value)] else rest
  }

  /** The nine entries of `initialize_transaction`'s payload before `None` values are dropped. */
  function RawPayload(santim: int, email: string, firstName: string, lastName: string, txRef: string,
                      callbackUrl: Option<string>, returnUrl: Option<string>,
                      customization: Option<seq<(string, string)>>): seq<(string, Option<JsonValue>)>
  {
    [("amount", Some(JStr(AmountText(santim)))),
     ("currency", Some(JStr("ETB"))),
     ("email", Some(JStr(email))),
     ("first_name", Some(JStr(firstName))),
     ("last_name", Some(JStr(lastName))),
     ("tx_ref", Some(JStr(txRef))),
     ("callback_url", if callbackUrl.Some? then Some(JStr(callbackUrl.value)) else None),
     ("return_url", if returnUrl.Some? then Some(JStr(returnUrl.value)) else None),
     ("customization", if customization.Some? then Some(JObj(customization.value)) else None)]
  }

  /** The JSON body `initialize_transaction` posts. */
  function Payload(santim: int, email: string, firstName: string, lastName: string, txRef: string,
                   callbackUrl: Option<string>, returnUrl: Option<string>,
                   customization: Option<seq<(string, string)>>): seq<(string, JsonValue)>
  {
    DropNone(RawPayload(santim, email, firstName, lastName, txRef, callbackUrl, returnUrl, customization))
  }

  /** The value the payload gives `key`, if any. */
  function Field(p: seq<(string, JsonValue)>, key: string): (v: Option<JsonValue>)
    ensures v.Some? ==> (key, v.value) in p
    ensures v.None? <==> forall i :: 0 <= i < |p| ==> p[i].0 != key
  {
    if p == [] then None
    else if p[|p| - 1].0 == key then Some(p[|p| - 1].1)
    else Field(p[..|p| - 1], key)
  }

  /** The currency is always ETB and the amount is its text; the donor fields and the reference
      are sent as given; each optional entry is present exactly when it is not None, with its
      value. */
  lemma PayloadFields(santim: int, email: string, firstName: string, lastName: string, txRef: string,
                      callbackUrl: Option<string>, returnUrl: Option<string>,
                      customization: Option<seq<(string, string)>>)
    ensures var p := Payload(santim, email, firstName, lastName, txRef, callbackUrl, returnUrl, customization);
      && Field(p, "amount") == Some(JStr(AmountText(santim)))
      && Field(p, "currency") == Some(JStr("ETB"))
      && Field(p, "email") == Some(JStr(email))
      && Field(p, "first_name") == Some(JStr(firstName))
      && Field(p, "last_name") == Some(JStr(lastName))
      && Field(p, "tx_ref") == Some(JStr(txRef))
      && (Field(p, "callback_url").Some? <==> callbackUrl.Some?)
      && (callbackUrl.Some? ==> Field(p, "callback_url") == Some(JStr(callbackUrl.value)))
      && (Field(p, "return_url").Some? <==> returnUrl.Some?)
      && (returnUrl.Some? ==> Field(p, "return_url") == Some(JStr(returnUrl.value)))
      && (Field(p, "customization").Some? <==> customization.Some?)
      && (customization.Some? ==> Field(p, "customization") == Some(JObj(customization.value)))
  {
    var raw := RawPayload(santim, email, firstName, lastName, txRef, callbackUrl, returnUrl, customization);
    PayloadKeysDistinct(raw);
    forall j | 0 <= j < |raw|
      ensures Field(DropNone(raw), raw[j].0) == raw[j].1
    {
      DropNoneField(raw, j);
    }
  }

  /** The payload's keys, in order. */
  lemma PayloadKeysDistinct(raw: seq<(string, Option<JsonValue>)>)
    requires |raw| == 9
    requires raw[0].0 == "amount" && raw[1].0 == "currency" && raw[2].0 == "email"
    requires raw[3].0 == "first_name" && raw[4].0 == "last_name" && raw[5].0 == "tx_ref"
    requires raw[6].0 == "callback_url" && raw[7].0 == "return_url" && raw[8].0 == "customization"
    ensures KeysDistinct(raw)
  {
  }

  ghost predicate KeysDistinct<V>(entries: seq<(string, V)>) {
    forall i, j :: 0 <= i < j < |entries| ==> entries[i].0 != entries[j].0
  }

  /** With distinct keys, dropping `None` keeps each present entry's value under its key and
      removes each absent one. */
  lemma {:induction false} DropNoneField(entries: seq<(string, Option<JsonValue>)>, j: nat)
    requires KeysDistinct(entries) && j < |entries|
    ensures Field(DropNone(entries), entries[j].0) == entries[j].1
    decreases |entries|
  {
    var init := entries[..|entries| - 1];
    var last := entries[|entries| - 1];
    var rest := DropNone(init);
    if j == |entries| - 1 {
      if last.1.None? {
        forall i | 0 <= i < |rest| ensures rest[i].0 != last.0 {
          var k :| 0 <= k < |init| && init[k] == (rest[i].0, Some(rest[i].1));
        }
      }
    } else {
      DropNoneField(init, j);
    }
  }
}
