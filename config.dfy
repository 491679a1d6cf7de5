/** The settings validators (backend/app/core/config.py): the CORS-origin and e-mail-list
    parsers that accept a comma-separated string, and the token lifetime. */
module Config {
  import opened Common

  /** A raw settings value as the environment or the code supplies it: a string, a list of
      strings, or a value of any other type. */
  datatype ConfigValue = Str(s: string) | StrList(items: seq<string>) | Other

  /** `ACCESS_TOKEN_EXPIRE_MINUTES`, commented as eight days. */
  const AccessTokenExpireMinutes: nat := 11520

  /** The lifetime is eight days, in minutes. */
  lemma TokenLifetimeIsEightDays()
    ensures AccessTokenExpireMinutes == 8 * 24 * 60
  {
  }

  /** `[i.strip() for i in v.split(",")]`. */
  function CommaList(s: string): (r: seq<string>)
    ensures |r| == |Split(s, ',')|
    ensures forall k :: 0 <= k < |r| ==> r[k] == Strip(Split(s, ',')[k])
  {
    var pieces := Split(s, ',');
    seq(|pieces|, k requires 0 <= k < |pieces| => Strip(pieces[k]))
  }

  /** `assemble_cors_origins`: a string not starting with '[' becomes its trimmed comma
      pieces; a list, or a string starting with '[', passes unchanged; anything else raises
      `ValueError`. */
  function AssembleCorsOrigins(v: ConfigValue): (r: Outcome<ConfigValue>)
    ensures v.Other? <==> r.Raise?
    ensures v.Str? && !StartsWith(v.s, "[") ==> r == Ok(StrList(CommaList(v.s)))
    ensures v.StrList? || (v.Str? && StartsWith(v.s, "[")) ==> r == Ok(v)
  {
    match v
    case Str(s) => if !StartsWith(s, "[") then Ok(StrList(CommaList(s))) else Ok(v)
    case StrList(_) => Ok(v)
    case Other => Raise(OtherException)
  }

  /** `parse_lists`. `decoded` is what `json.loads` gives for a string starting with '[', or
      None when it raises. A string not starting with '[' becomes its trimmed comma pieces; any
      other value passes unchanged. */
  function ParseLists(v: ConfigValue, decoded: Option<ConfigValue>): (r: ConfigValue)
    ensures v.Str? && !StartsWith(v.s, "[") ==> r == StrList(CommaList(v.s))
    ensures v.Str? && StartsWith(v.s, "[") ==> r == if decoded.Some? then decoded.value else StrList([])
    ensures !v.Str? ==> r == v
  {
    match v
    case Str(s) =>
      if StartsWith(s, "[") then (if decoded.Some? then decoded.value else StrList([]))
      else StrList(CommaList(s))
    case _ => v
  }

  /** A comma list has one entry more than there are commas, and no entry holds a comma or
      starts or ends with whitespace. */
  lemma CommaListShape(s: string)
    ensures |CommaList(s)| == Count(s, ',') + 1
    ensures forall k :: 0 <= k < |CommaList(s)| ==> ',' !in CommaList(s)[k]
    ensures forall k :: 0 <= k < |CommaList(s)| ==> Trimmed(CommaList(s)[k])
  {
    SplitCount(s, ',');
    var pieces := Split(s, ',');
    forall k | 0 <= k < |pieces| ensures ',' !in Strip(pieces[k]) {
      StripIsSlice(pieces[k]);
    }
  }

  /** No whitespace at either end. */
  predicate Trimmed(x: string) {
    x == [] || (!IsSpace(x[0]) && !IsSpace(x[|x| - 1]))
  }

  /** `strip` returns a slice of its argument. */
  lemma StripIsSlice(x: string)
    ensures exists i, j :: 0 <= i <= j <= |x| && Strip(x) == x[i..j]
  {
    var i := LeadingSpaces(x);
    var a := x[i..];
    var j := i + |a| - TrailingSpaces(a);
    assert Strip(x) == x[i..j];
  }

  /** `strip` leaves a trimmed string as it is. */
  lemma StripTrimmed(x: string)
    requires Trimmed(x)
    ensures Strip(x) == x
  {
    if x != [] {
      assert LeadingSpaces(x) == 0;
      assert TrailingSpaces(x) == 0;
    }
  }

  /** Joining trimmed, comma-free entries with ',' and parsing gives them back, whichever of
      the two validators reads the string. */
  lemma CommaListRoundTrip(items: seq<string>)
    requires |items| >= 1
    requires forall k :: 0 <= k < |items| ==> ',' !in items[k] && Trimmed(items[k])
    requires !StartsWith(Join(items, ','), "[")
    ensures CommaList(Join(items, ',')) == items
    ensures ParseLists(Str(Join(items, ',')), None) == StrList(items)
    ensures AssembleCorsOrigins(Str(Join(items, ','))) == Ok(StrList(items))
  {
    SplitJoin(items, ',');
    forall k | 0 <= k < |items| ensures Strip(items[k]) == items[k] {
      StripTrimmed(items[k]);
    }
  }

  /** The validators are idempotent: what they produce passes through them unchanged. */
  lemma ValidatorsIdempotent(v: ConfigValue, decoded: Option<ConfigValue>)
    requires v.Str? && !StartsWith(v.s, "[")
    ensures ParseLists(ParseLists(v, decoded), decoded) == ParseLists(v, decoded)
    ensures AssembleCorsOrigins(AssembleCorsOrigins(v).value) == AssembleCorsOrigins(v)
  {
  }
}
