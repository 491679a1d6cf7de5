/** Python's `urllib.parse.urlencode` with its default `quote_plus`, as used to build the Chapa
    return URL, together with the decoder the browser applies to such a query, and the
    unescaped `key=value&...` queries the other URL builders interpolate. */
module UrlEncoding {
  import opened Common

  /** The characters `quote_plus` never escapes: ASCII letters, digits and `_.-~`. */
  predicate AlwaysSafe(c: char) {
    IsAsciiLetter(c) || IsDigit(c) || c == '_' || c == '.' || c == '-' || c == '~'
  }

  /** The characters an encoded component may contain. */
  predicate EncodedChar(c: char) {
    AlwaysSafe(c) || c == '+' || c == '%'
  }

  function HexDigit(n: nat): (c: char)
    requires n < 16
    ensures AlwaysSafe(c)
  {
    if n < 10 then DigitChar(n) else ('A' as int + n - 10) as char
  }

  predicate IsHexDigit(c: char) {
    IsDigit(c) || 'A' <= c <= 'F' || 'a' <= c <= 'f'
  }

  function HexValue(c: char): (n: nat)
    requires IsHexDigit(c)
    ensures n < 16
  {
    if IsDigit(c) then DigitValue(c)
    else if 'A' <= c <= 'F' then c as int - 'A' as int + 10
    else c as int - 'a' as int + 10
  }

  lemma HexRoundTrip(n: nat)
    requires n < 16
    ensures IsHexDigit(HexDigit(n)) && HexValue(HexDigit(n)) == n
  {
  }

  /** The UTF-8 encoding of one code point (section 3 of RFC 3629). */
  function Utf8(c: char): (bs: seq<nat>)
    ensures 1 <= |bs| <= 4
    ensures forall k :: 0 <= k < |bs| ==> bs[k] < 256
    ensures (c as int < 0x80) <==> |bs| == 1
    ensures |bs| == 1 ==> bs[0] == c as int
  {
    var n := c as int;
    if n < 0x80 then [n]
    else if n < 0x800 then [0xC0 + n / 0x40, 0x80 + n % 0x40]
    else if n < 0x10000 then [0xE0 + n / 0x1000, 0x80 + (n / 0x40) % 0x40, 0x80 + n % 0x40]
    else [0xF0 + n / 0x40000, 0x80 + (n / 0x1000) % 0x40, 0x80 + (n / 0x40) % 0x40, 0x80 + n % 0x40]
  }

  /** `%XX` for every byte, with upper-case hexadecimal digits. */
  function PercentBytes(bs: seq<nat>): (r: string)
    requires forall k :: 0 <= k < |bs| ==> bs[k] < 256
    ensures |r| == 3 * |bs|
    ensures forall i :: 0 <= i < |r| ==> EncodedChar(r[i])
  {
    if bs == [] then ""
    else ['%', HexDigit(bs[0] / 16), HexDigit(bs[0] % 16)] + PercentBytes(bs[1..])
  }

  function QuoteChar(c: char): (r: string)
    ensures forall i :: 0 <= i < |r| ==> EncodedChar(r[i])
  {
    if AlwaysSafe(c) then [c]
    else if c == ' ' then "+"
    else PercentBytes(Utf8(c))
  }

  /** `quote_plus(s)`: safe characters kept, space as '+', everything else percent-encoded. */
  function QuotePlus(s: string): (r: string)
    ensures forall i :: 0 <= i < |r| ==> EncodedChar(r[i])
    ensures '&' !in r && '=' !in r && ' ' !in r
    ensures |r| >= |s|
  {
    if s == [] then "" else QuoteChar(s[0]) + QuotePlus(s[1..])
  }

  /** `urlencode(pairs)`: `key=value` items joined by '&'. No encoded key or value holds an '&',
      so the query splits into exactly one item per pair. */
  function UrlEncode(pairs: seq<(string, string)>): (q: string)
    ensures |pairs| >= 1 ==> |Split(q, '&')| == |pairs|
  {
    var items := seq(|pairs|, i requires 0 <= i < |pairs| => QuotePlus(pairs[i].0) + "=" + QuotePlus(pairs[i].1));
    assert |pairs| >= 1 ==> Split(Join(items, '&'), '&') == items by {
      if |pairs| >= 1 {
        SplitJoin(items, '&');
      }
    }
    Join(items, '&')
  }

  // ---------------------------------------------------------------- decoding

  /** The byte a `%XX` escape at position `i` of `s` stands for, if one starts there. */
  function EscapedByte(s: string, i: nat): (b: Option<nat>)
    ensures b.Some? ==> i + 3 <= |s| && s[i] == '%' && b.value < 256
  {
    if i + 3 <= |s| && s[i] == '%' && IsHexDigit(s[i + 1]) && IsHexDigit(s[i + 2])
    then Some(16 * HexValue(s[i + 1]) + HexValue(s[i + 2]))
    else None
  }

  /** The six payload bits of a continuation byte `10xxxxxx` escaped at position `i`. */
  function Continuation(s: string, i: nat): (v: Option<nat>)
    ensures v.Some? ==> i + 3 <= |s| && v.value < 0x40
  {
    match EscapedByte(s, i)
    case Some(b) => if 0x80 <= b < 0xC0 then Some(b - 0x80) else None
    case None => None
  }

  /** The character a well-formed UTF-8 sequence of escapes at the head of `s` encodes, with
      the number of characters the escapes take. Well-formed as section 3 of RFC 3629 says: no
      overlong form, no surrogate, nothing past U+10FFFF. */
  function DecodeEscapes(s: string): (r: Option<(char, nat)>)
    ensures r.Some? ==> 3 <= r.value.1 <= |s| && s[0] == '%'
  {
    match EscapedByte(s, 0)
    case None => None
    case Some(b0) =>
      if b0 < 0x80 then Some((b0 as char, 3))
      else if 0xC0 <= b0 < 0xE0 then
        match Continuation(s, 3)
        case Some(c1) =>
          var n := (b0 - 0xC0) * 0x40 + c1;
          if 0x80 <= n then Some((n as char, 6)) else None
        case None => None
      else if 0xE0 <= b0 < 0xF0 then
        match (Continuation(s, 3), Continuation(s, 6))
        case (Some(c1), Some(c2)) =>
          var n := (b0 - 0xE0) * 0x1000 + c1 * 0x40 + c2;
          if 0x800 <= n && !(0xD800 <= n < 0xE000) then Some((n as char, 9)) else None
        case _ => None
      else if 0xF0 <= b0 < 0xF8 then
        match (Continuation(s, 3), Continuation(s, 6), Continuation(s, 9))
        case (Some(c1), Some(c2), Some(c3)) =>
          var n := (b0 - 0xF0) * 0x40000 + c1 * 0x1000 + c2 * 0x40 + c3;
          if 0x10000 <= n < 0x110000 then Some((n as char, 12)) else None
        case _ => None
      else None
  }

  /** U+FFFD, which stands in for an escaped byte that begins no well-formed sequence. */
  const Replacement: char := '\U{FFFD}'

  /** The decoding of a query component, as `URLSearchParams` and Python's `unquote_plus` do
      it: '+' is a space, the escapes of a well-formed UTF-8 sequence are its character, an
      escaped byte that begins none is U+FFFD, and every other character stands for itself. */
  function UnquotePlus(s: string): (r: string)
    ensures |r| <= |s|
    ensures r == [] <==> s == []
    decreases |s|
  {
    if s == [] then ""
    else if s[0] == '+' then " " + UnquotePlus(s[1..])
    else match DecodeEscapes(s)
      case Some((c, k)) => [c] + UnquotePlus(s[k..])
      case None =>
        if EscapedByte(s, 0).Some? then [Replacement] + UnquotePlus(s[3..])
        else [s[0]] + UnquotePlus(s[1..])
  }

  /** Splits a query back into decoded `(key, value)` pairs; an item without '=' is dropped. */
  function ParseQuery(q: string): (r: seq<(string, string)>)
    ensures |r| <= |Split(q, '&')|
    ensures q == "" ==> r == []
  {
    var items := Split(q, '&');
    ParseItems(items)
  }

  function ParseItems(items: seq<string>): (r: seq<(string, string)>)
    ensures |r| <= |items|
    ensures (forall k :: 0 <= k < |items| ==> '=' !in items[k]) ==> r == []
  {
    if items == [] then []
    else
      var kv := Split(items[0], '=');
      assert '=' !in items[0] ==> kv == [items[0]] by {
        if '=' !in items[0] {
          SplitNoSep(items[0], '=');
        }
      }
      (if |kv| == 2 then [(UnquotePlus(kv[0]), UnquotePlus(kv[1]))] else []) + ParseItems(items[1..])
  }

  /** The characters `PercentBytes` writes for the `j`-th byte. */
  lemma {:induction false} PercentBytesAt(bs: seq<nat>, j: nat)
    requires forall k :: 0 <= k < |bs| ==> bs[k] < 256
    requires j < |bs|
    ensures var r := PercentBytes(bs);
      r[3 * j] == '%' && r[3 * j + 1] == HexDigit(bs[j] / 16) && r[3 * j + 2] == HexDigit(bs[j] % 16)
    decreases j
  {
    if j > 0 {
      PercentBytesAt(bs[1..], j - 1);
      var head := ['%', HexDigit(bs[0] / 16), HexDigit(bs[0] % 16)];
      assert PercentBytes(bs) == head + PercentBytes(bs[1..]);
    }
  }

  /** The two hexadecimal digits written for a byte read back as that byte. */
  lemma {:induction false} ByteDigits(b: nat)
    requires b < 256
    ensures IsHexDigit(HexDigit(b / 16)) && IsHexDigit(HexDigit(b % 16))
    ensures 16 * HexValue(HexDigit(b / 16)) + HexValue(HexDigit(b % 16)) == b
  {
    HexRoundTrip(b / 16);
    HexRoundTrip(b % 16);
  }

  /** Each escape `PercentBytes` writes reads back as its byte, whatever follows. */
  lemma {:induction false} EscapeOfByte(bs: seq<nat>, j: nat, rest: string)
    requires forall k :: 0 <= k < |bs| ==> bs[k] < 256
    requires j < |bs|
    ensures EscapedByte(PercentBytes(bs) + rest, 3 * j) == Some(bs[j])
  {
    var p := PercentBytes(bs);
    var r := p + rest;
    var b := bs[j];
    var i := 3 * j;
    PercentBytesAt(bs, j);
    assert i + 3 <= |p|;
    assert r[i] == p[i] && r[i + 1] == p[i + 1] && r[i + 2] == p[i + 2];
    ByteDigits(b);
  }

  /** The escapes of a two-byte encoding decode to their character. */
  lemma DecodeTwoBytes(c: char, rest: string)
    requires 0x80 <= c as int < 0x800
    ensures DecodeEscapes(PercentBytes(Utf8(c)) + rest) == Some((c, 6))
  {
    var bs := Utf8(c);
    var s := PercentBytes(bs) + rest;
    var n := c as int;
    EscapeOfByte(bs, 0, rest);
    EscapeOfByte(bs, 1, rest);
    assert Continuation(s, 3) == Some(n % 0x40);
    assert (n / 0x40) * 0x40 + n % 0x40 == n;
  }

  /** The escapes of a three-byte encoding decode to their character. */
  lemma DecodeThreeBytes(c: char, rest: string)
    requires 0x800 <= c as int < 0x10000
    ensures DecodeEscapes(PercentBytes(Utf8(c)) + rest) == Some((c, 9))
  {
    var bs := Utf8(c);
    var s := PercentBytes(bs) + rest;
    var n := c as int;
    EscapeOfByte(bs, 0, rest);
    EscapeOfByte(bs, 1, rest);
    EscapeOfByte(bs, 2, rest);
    assert Continuation(s, 3) == Some((n / 0x40) % 0x40);
    assert Continuation(s, 6) == Some(n % 0x40);
    assert n / 0x1000 == (n / 0x40) / 0x40;
    assert (n / 0x1000) * 0x1000 + ((n / 0x40) % 0x40) * 0x40 + n % 0x40 == n;
  }

  /** The escapes of a four-byte encoding decode to their character. */
  lemma DecodeFourBytes(c: char, rest: string)
    requires 0x10000 <= c as int
    ensures DecodeEscapes(PercentBytes(Utf8(c)) + rest) == Some((c, 12))
  {
    var bs := Utf8(c);
    var s := PercentBytes(bs) + rest;
    var n := c as int;
    EscapeOfByte(bs, 0, rest);
    EscapeOfByte(bs, 1, rest);
    EscapeOfByte(bs, 2, rest);
    EscapeOfByte(bs, 3, rest);
    assert Continuation(s, 3) == Some((n / 0x1000) % 0x40);
    assert Continuation(s, 6) == Some((n / 0x40) % 0x40);
    assert Continuation(s, 9) == Some(n % 0x40);
    assert n / 0x1000 == (n / 0x40) / 0x40;
    assert n / 0x40000 == (n / 0x1000) / 0x40;
    assert (n / 0x40000) * 0x40000 + ((n / 0x1000) % 0x40) * 0x1000
           + ((n / 0x40) % 0x40) * 0x40 + n % 0x40 == n;
  }

  lemma UnquoteQuoteChar(c: char, rest: string)
    ensures UnquotePlus(QuoteChar(c) + rest) == [c] + UnquotePlus(rest)
  {
    var s := QuoteChar(c) + rest;
    if AlwaysSafe(c) {
      assert s[1..] == rest;
    } else if c == ' ' {
      assert s[1..] == rest;
    } else {
      var n := c as int;
      var bs := Utf8(c);
      if n < 0x80 {
        EscapeOfByte(bs, 0, rest);
        assert DecodeEscapes(s) == Some((c, 3));
      } else if n < 0x800 {
        DecodeTwoBytes(c, rest);
      } else if n < 0x10000 {
        DecodeThreeBytes(c, rest);
      } else {
        DecodeFourBytes(c, rest);
      }
      assert s[3 * |bs|..] == rest;
    }
  }

  /** Decoding undoes `quote_plus`, for every text. */
  lemma {:induction false} UnquoteQuote(s: string)
    ensures UnquotePlus(QuotePlus(s)) == s
    decreases |s|
  {
    if s != [] {
      UnquoteQuote(s[1..]);
      UnquoteQuoteChar(s[0], QuotePlus(s[1..]));
      assert [s[0]] + s[1..] == s;
    }
  }

  /** `urlencode` loses nothing: parsing the query gives back every pair, in order. */
  lemma {:induction false} ParseUrlEncode(pairs: seq<(string, string)>)
    requires |pairs| >= 1
    ensures ParseQuery(UrlEncode(pairs)) == pairs
  {
    var items := seq(|pairs|, i requires 0 <= i < |pairs| => QuotePlus(pairs[i].0) + "=" + QuotePlus(pairs[i].1));
    forall k | 0 <= k < |items|
      ensures '&' !in items[k]
      ensures Split(items[k], '=') == [QuotePlus(pairs[k].0), QuotePlus(pairs[k].1)]
    {
      SplitConcat(QuotePlus(pairs[k].0), QuotePlus(pairs[k].1), '=');
      SplitNoSep(QuotePlus(pairs[k].1), '=');
    }
    SplitJoin(items, '&');
    ParseItemsOfEncoded(pairs, items);
  }

  lemma {:induction false} ParseItemsOfEncoded(pairs: seq<(string, string)>, items: seq<string>)
    requires |items| == |pairs|
    requires forall k :: 0 <= k < |items| ==> Split(items[k], '=') == [QuotePlus(pairs[k].0), QuotePlus(pairs[k].1)]
    ensures ParseItems(items) == pairs
    decreases |items|
  {
    if items != [] {
      UnquoteQuote(pairs[0].0);
      UnquoteQuote(pairs[0].1);
      ParseItemsOfEncoded(pairs[1..], items[1..]);
      assert [pairs[0]] + pairs[1..] == pairs;
    }
  }

  // ---------------------------------------------------------------- unescaped queries

  /** One `key=value` item of a query string. */
  function Item(p: (string, string)): string {
    p.0 + "=" + p.1
  }

  /** `k1=v1&k2=v2&...`. */
  function QueryOf(pairs: seq<(string, string)>): string {
    Join(seq(|pairs|, i requires 0 <= i < |pairs| => Item(pairs[i])), '&')
  }

  /** Text that cannot break a query item: neither '&' nor '='. */
  predicate NoDelimiters(v: string) {
    '&' !in v && '=' !in v
  }

  /** A query built from delimiter-free keys and values splits back into exactly its pairs. */
  lemma {:induction false} QueryOfSplits(pairs: seq<(string, string)>)
    requires |pairs| >= 1
    requires forall k :: 0 <= k < |pairs| ==> NoDelimiters(pairs[k].0) && NoDelimiters(pairs[k].1)
    ensures var items := Split(QueryOf(pairs), '&');
      |items| == |pairs| && forall k :: 0 <= k < |pairs| ==> Split(items[k], '=') == [pairs[k].0, pairs[k].1]
  {
    var items := seq(|pairs|, i requires 0 <= i < |pairs| => Item(pairs[i]));
    forall k | 0 <= k < |pairs| ensures '&' !in items[k] && Split(items[k], '=') == [pairs[k].0, pairs[k].1] {
      KeyValue(pairs[k].0, pairs[k].1);
    }
    SplitJoin(items, '&');
  }

  /** A `key=value` item with plain parts splits into exactly the two. */
  lemma KeyValue(k: string, v: string)
    requires '=' !in k && '=' !in v
    ensures Split(Item((k, v)), '=') == [k, v]
  {
    SplitConcat(k, v, '=');
    SplitNoSep(v, '=');
  }

  /** Adding a pair to a non-empty query appends '&' and its item. */
  lemma QueryOfAppend(pairs: seq<(string, string)>, p: (string, string))
    requires |pairs| >= 1
    ensures QueryOf(pairs + [p]) == QueryOf(pairs) + "&" + Item(p)
  {
    var items := seq(|pairs| + 1, i requires 0 <= i < |pairs| + 1 => Item((pairs + [p])[i]));
    JoinLast(items, '&');
    assert items[..|pairs|] == seq(|pairs|, i requires 0 <= i < |pairs| => Item(pairs[i]));
  }
}
