/** Form encoding and decoding as urllib.parse does it, at character level. */
module UrlQuery {
  import opened Prelude

  type Byte = b: int | 0 <= b < 256

  /** What Python supplies and this model does not spell out: str.lower, and UTF-8 decoding with
      replacement of malformed bytes. */
  datatype TextRules = TextRules(lower: string -> string, decode: seq<Byte> -> string)

  // ---- UTF-8 ---------------------------------------------------------------------------------

  function EncodeChar(c: char): (r: seq<Byte>)
    ensures r != [] && (c < '\U{80}' ==> r == [c as int])
  {
    var n := c as int;
    if n < 0x80 then [n]
    else if n < 0x800 then [0xC0 + n / 64, 0x80 + n % 64]
    else if n < 0x10000 then [0xE0 + n / 4096, 0x80 + n / 64 % 64, 0x80 + n % 64]
    else [0xF0 + n / 262144, 0x80 + n / 4096 % 64, 0x80 + n / 64 % 64, 0x80 + n % 64]
  }

  function Encode(s: string): seq<Byte> {
    if s == "" then [] else EncodeChar(s[0]) + Encode(s[1..])
  }

  /** Decoding undoes encoding. */
  ghost predicate Decodes(t: TextRules) {
    forall s: string :: t.decode(Encode(s)) == s
  }

  // ---- Quoting -------------------------------------------------------------------------------

  predicate IsUnreserved(b: Byte) {
    var c := b as char;
    b < 128 && ('A' <= c <= 'Z' || 'a' <= c <= 'z' || '0' <= c <= '9' || c in "_.-~")
  }

  function HexDigit(n: nat): (c: char)
    requires n < 16
    ensures HexValue(c) == Some(n)
    ensures '0' <= c <= '9' || 'A' <= c <= 'F'
  {
    if n < 10 then '0' + n as char else 'A' + (n - 10) as char
  }

  function HexValue(c: char): (r: Option<nat>)
    ensures r.Some? ==> r.value < 16
  {
    if '0' <= c <= '9' then Some(c as int - '0' as int)
    else if 'A' <= c <= 'F' then Some(c as int - 'A' as int + 10)
    else if 'a' <= c <= 'f' then Some(c as int - 'a' as int + 10)
    else None
  }

  function QuoteByte(b: Byte): (r: string)
    ensures r != "" && AllSafe(r)
  {
    if IsUnreserved(b) then [b as char] else ['%', HexDigit(b / 16), HexDigit(b % 16)]
  }

  /** The characters of a quoted name or value before spaces become '+'. */
  predicate IsSafe(c: char) {
    'A' <= c <= 'Z' || 'a' <= c <= 'z' || '0' <= c <= '9' || c in "_.-~%"
  }

  predicate AllSafe(s: string) { forall i :: 0 <= i < |s| ==> IsSafe(s[i]) }

  function QuoteBytes(bs: seq<Byte>): (r: string)
    ensures AllSafe(r)
  {
    if bs == [] then "" else QuoteByte(bs[0]) + QuoteBytes(bs[1..])
  }

  /** quote_plus */
  function QuotePlus(s: string): (r: string)
    ensures forall i :: 0 <= i < |r| ==> IsSafe(r[i]) || r[i] == '+'
  {
    if s == "" then ""
    else (if s[0] == ' ' then "+" else QuoteBytes(EncodeChar(s[0]))) + QuotePlus(s[1..])
  }

  function PlusToSpace(s: string): (r: string)
    ensures |r| == |s| && forall i :: 0 <= i < |s| ==> r[i] == if s[i] == '+' then ' ' else s[i]
  {
    seq(|s|, i requires 0 <= i < |s| => if s[i] == '+' then ' ' else s[i])
  }

  // ---- Unquoting -----------------------------------------------------------------------------

  predicate IsEscape(s: string) {
    |s| >= 3 && s[0] == '%' && HexValue(s[1]).Some? && HexValue(s[2]).Some?
  }

  /** unquote_to_bytes; a percent sign without two hex digits stands for itself. */
  function UnquoteBytes(s: string): seq<Byte> {
    if s == "" then []
    else if IsEscape(s) then [HexValue(s[1]).value * 16 + HexValue(s[2]).value] + UnquoteBytes(s[3..])
    else EncodeChar(s[0]) + UnquoteBytes(s[1..])
  }

  function AsciiPrefix(s: string): (n: nat)
    ensures n <= |s| && (forall i :: 0 <= i < n ==> s[i] < '\U{80}') && (n < |s| ==> s[n] >= '\U{80}')
  {
    if s == "" || s[0] >= '\U{80}' then 0 else 1 + AsciiPrefix(s[1..])
  }

  /** Runs of ASCII are decoded one by one, other characters are kept. */
  function UnquoteRuns(t: TextRules, s: string): string
    decreases |s|
  {
    if s == "" then ""
    else
      var n := AsciiPrefix(s);
      if n == 0 then [s[0]] + UnquoteRuns(t, s[1..]) else t.decode(UnquoteBytes(s[..n])) + UnquoteRuns(t, s[n..])
  }

  /** unquote_plus */
  function UnquotePlus(t: TextRules, s: string): string {
    var spaced := PlusToSpace(s);
    if '%' !in spaced then spaced else UnquoteRuns(t, spaced)
  }

  // ---- Round trip of one name or value ----------------------------------------------------------

  lemma UnquoteOne(b: Byte, tail: string)
    ensures UnquoteBytes(QuoteByte(b) + tail) == [b] + UnquoteBytes(tail)
  {
    var s := QuoteByte(b) + tail;
    if IsUnreserved(b) {
      assert s[0] == b as char && s[1..] == tail;
    } else {
      assert s[0] == '%' && s[1] == HexDigit(b / 16) && s[2] == HexDigit(b % 16) && s[3..] == tail;
    }
  }

  lemma {:induction false} UnquoteQuoted(bs: seq<Byte>, rest: string)
    ensures UnquoteBytes(QuoteBytes(bs) + rest) == bs + UnquoteBytes(rest)
  {
    if bs == [] {
      assert QuoteBytes(bs) + rest == rest;
    } else {
      UnquoteQuoted(bs[1..], rest);
      UnquoteOne(bs[0], QuoteBytes(bs[1..]) + rest);
      Append3(QuoteByte(bs[0]), QuoteBytes(bs[1..]), rest);
      Append3([bs[0]], bs[1..], UnquoteBytes(rest));
      assert [bs[0]] + bs[1..] == bs;
    }
  }

  lemma PlusToSpaceConcat(a: string, b: string)
    ensures PlusToSpace(a + b) == PlusToSpace(a) + PlusToSpace(b)
  {
  }

  lemma PlusToSpaceSame(a: string)
    requires '+' !in a
    ensures PlusToSpace(a) == a
  {
  }

  /** The bytes of an encoded name are those of the name. */
  lemma {:induction false} UnquoteQuotePlus(s: string)
    ensures UnquoteBytes(PlusToSpace(QuotePlus(s))) == Encode(s)
  {
    if s != "" {
      UnquoteQuotePlus(s[1..]);
      var first := if s[0] == ' ' then "+" else QuoteBytes(EncodeChar(s[0]));
      PlusToSpaceConcat(first, QuotePlus(s[1..]));
      var tail := PlusToSpace(QuotePlus(s[1..]));
      if s[0] == ' ' {
        assert PlusToSpace(first) == " ";
        assert (" " + tail)[1..] == tail;
      } else {
        PlusToSpaceSame(first);
        UnquoteQuoted(EncodeChar(s[0]), tail);
      }
    }
  }

  lemma {:induction false} AsciiIsOneRun(t: TextRules, s: string)
    requires s != "" && (forall i :: 0 <= i < |s| ==> s[i] < '\U{80}')
    ensures UnquoteRuns(t, s) == t.decode(UnquoteBytes(s))
  {
    assert AsciiPrefix(s) == |s|;
    assert s[..|s|] == s && s[|s|..] == "";
    var d := t.decode(UnquoteBytes(s));
    assert d + "" == d;
  }

  lemma {:induction false} NoPercentIsEncoded(s: string)
    requires '%' !in s
    ensures UnquoteBytes(s) == Encode(s)
  {
    if s != "" {
      NoPercentIsEncoded(s[1..]);
    }
  }

  lemma SpacedIsAscii(s: string)
    ensures var spaced := PlusToSpace(QuotePlus(s));
            forall i :: 0 <= i < |spaced| ==> spaced[i] < '\U{80}'
  {
    var q := QuotePlus(s);
    forall i | 0 <= i < |q|
      ensures PlusToSpace(q)[i] < '\U{80}'
    {
      assert IsSafe(q[i]) || q[i] == '+';
    }
  }

  lemma UnquotePlusAscii(t: TextRules, q: string)
    requires Decodes(t) && (forall i :: 0 <= i < |PlusToSpace(q)| ==> PlusToSpace(q)[i] < '\U{80}')
    ensures UnquotePlus(t, q) == t.decode(UnquoteBytes(PlusToSpace(q)))
  {
    var spaced := PlusToSpace(q);
    if '%' !in spaced {
      NoPercentIsEncoded(spaced);
      assert t.decode(Encode(spaced)) == spaced;
    } else {
      AsciiIsOneRun(t, spaced);
    }
  }

  /** Decoding an encoded name or value gives it back, whatever characters it has. */
  lemma QuoteRoundTrip(t: TextRules, s: string)
    requires Decodes(t)
    ensures UnquotePlus(t, QuotePlus(s)) == s
  {
    SpacedIsAscii(s);
    UnquotePlusAscii(t, QuotePlus(s));
    UnquoteQuotePlus(s);
    assert t.decode(Encode(s)) == s;
  }

  // ---- Pair lists --------------------------------------------------------------------------------

  type Pair = (string, string)

  /** One `name=value`; without '=' the value is blank. */
  function ParsePair(t: TextRules, s: string): Pair {
    var i := Find(s, '=');
    (UnquotePlus(t, s[..i]), if i < |s| then UnquotePlus(t, s[i + 1..]) else UnquotePlus(t, ""))
  }

  /** parse_qsl with keep_blank_values */
  function ParseQuery(t: TextRules, q: string): seq<Pair>
    decreases |q|
  {
    var i := Find(q, '&');
    var first := if i == 0 then [] else [ParsePair(t, q[..i])];
    if i < |q| then first + ParseQuery(t, q[i + 1..]) else first
  }

  function EncodePair(p: Pair): string { QuotePlus(p.0) + "=" + QuotePlus(p.1) }

  /** urlencode */
  function EncodeQuery(pairs: seq<Pair>): string {
    if pairs == [] then ""
    else if |pairs| == 1 then EncodePair(pairs[0])
    else EncodePair(pairs[0]) + "&" + EncodeQuery(pairs[1..])
  }

  lemma FindIn(a: string, c: char, b: string)
    requires forall i :: 0 <= i < |a| ==> a[i] != c
    ensures Find(a + [c] + b, c) == |a| && (a + [c] + b)[..|a|] == a && (a + [c] + b)[|a| + 1..] == b
  {
    assert (a + [c] + b)[|a|] == c;
  }

  lemma ParsePairOf(t: TextRules, name: string, value: string)
    requires forall i :: 0 <= i < |name| ==> name[i] != '='
    ensures ParsePair(t, name + "=" + value) == (UnquotePlus(t, name), UnquotePlus(t, value))
  {
    FindIn(name, '=', value);
    assert name + "=" == name + ['='];
  }

  lemma ParseEncodedPair(t: TextRules, p: Pair)
    requires Decodes(t)
    ensures ParsePair(t, EncodePair(p)) == p
  {
    var name, value := QuotePlus(p.0), QuotePlus(p.1);
    assert forall i :: 0 <= i < |name| ==> name[i] != '=';
    ParsePairOf(t, name, value);
    QuoteRoundTrip(t, p.0);
    QuoteRoundTrip(t, p.1);
  }

  lemma EncodedPairChars(p: Pair)
    ensures EncodePair(p) != ""
    ensures forall i :: 0 <= i < |EncodePair(p)| ==> IsQueryChar(EncodePair(p)[i]) && EncodePair(p)[i] != '&'
  {
    var name, value := QuotePlus(p.0), QuotePlus(p.1);
    assert forall i :: 0 <= i < |name| ==> name[i] != '&';
    assert forall i :: 0 <= i < |value| ==> value[i] != '&';
  }

  lemma ParseFirst(t: TextRules, first: string, rest: string)
    requires first != "" && forall i :: 0 <= i < |first| ==> first[i] != '&'
    ensures ParseQuery(t, first + "&" + rest) == [ParsePair(t, first)] + ParseQuery(t, rest)
    ensures ParseQuery(t, first) == [ParsePair(t, first)]
  {
    FindIn(first, '&', rest);
    assert first + "&" == first + ['&'];
    assert Find(first, '&') == |first| && first[..|first|] == first;
  }

  /** Every pair list survives encoding and decoding. */
  lemma {:induction false} QueryRoundTrip(t: TextRules, pairs: seq<Pair>)
    requires Decodes(t)
    ensures ParseQuery(t, EncodeQuery(pairs)) == pairs
  {
    if pairs != [] {
      ParseEncodedPair(t, pairs[0]);
      EncodedPairChars(pairs[0]);
      if |pairs| == 1 {
        ParseFirst(t, EncodePair(pairs[0]), "");
      } else {
        QueryRoundTrip(t, pairs[1..]);
        ParseFirst(t, EncodePair(pairs[0]), EncodeQuery(pairs[1..]));
      }
    }
  }

  // ---- Dropping tracking parameters -----------------------------------------------------------------

  const TRACKING_PARAMS := {
    "utm_source", "utm_medium", "utm_campaign", "utm_term", "utm_content", "utm_id", "gclid", "fbclid", "dclid",
    "msclkid", "mc_cid", "mc_eid", "ref", "ref_src", "referrer"}

  predicate IsTracking(t: TextRules, p: Pair) { t.lower(p.0) in TRACKING_PARAMS }

  function DropTracking(t: TextRules, pairs: seq<Pair>): seq<Pair> {
    if pairs == [] then []
    else (if IsTracking(t, pairs[0]) then [] else [pairs[0]]) + DropTracking(t, pairs[1..])
  }

  lemma {:induction false} DropTrackingTwice(t: TextRules, pairs: seq<Pair>)
    ensures DropTracking(t, DropTracking(t, pairs)) == DropTracking(t, pairs)
    ensures forall p :: p in DropTracking(t, pairs) <==> p in pairs && !IsTracking(t, p)
  {
    if pairs != [] {
      DropTrackingTwice(t, pairs[1..]);
      var rest := DropTracking(t, pairs[1..]);
      if !IsTracking(t, pairs[0]) {
        assert ([pairs[0]] + rest)[1..] == rest;
      } else {
        assert [] + rest == rest;
      }
    }
  }

  function CanonQuery(t: TextRules, q: string): string {
    EncodeQuery(DropTracking(t, ParseQuery(t, q)))
  }

  /** The canonical query parses to the non-tracking pairs of the original, in their order, and
      is its own canonical form. */
  lemma CanonQueryMeans(t: TextRules, q: string)
    requires Decodes(t)
    ensures ParseQuery(t, CanonQuery(t, q)) == DropTracking(t, ParseQuery(t, q))
    ensures CanonQuery(t, CanonQuery(t, q)) == CanonQuery(t, q)
  {
    QueryRoundTrip(t, DropTracking(t, ParseQuery(t, q)));
    DropTrackingTwice(t, ParseQuery(t, q));
  }

  predicate IsQueryChar(c: char) { IsSafe(c) || c in "+=&" }

  lemma {:induction false} EncodedChars(pairs: seq<Pair>)
    ensures forall i :: 0 <= i < |EncodeQuery(pairs)| ==> IsQueryChar(EncodeQuery(pairs)[i])
  {
    if pairs != [] {
      EncodedPairChars(pairs[0]);
      EncodedChars(pairs[1..]);
    }
  }
}
