/** What s2's canonicalization makes of a URL, part by part and text by text: laws that do not mention how
    it is computed. */
module UrlMeaning {
  import opened Prelude
  import opened UrlPath
  import opened UrlQuery
  import opened UrlCanonical

  // ---- Bytes and escapes -----------------------------------------------------------------------------

  predicate IsContinuation(b: int) { 0x80 <= b < 0xC0 }

  /** UTF-8 read back: the code point that a byte sequence of one character stands for. */
  function Utf8Value(bs: seq<int>): Option<int> {
    if |bs| == 1 && 0 <= bs[0] < 0x80 then Some(bs[0])
    else if |bs| == 2 && 0xC0 <= bs[0] < 0xE0 && IsContinuation(bs[1]) then
      Some((bs[0] - 0xC0) * 0x40 + (bs[1] - 0x80))
    else if |bs| == 3 && 0xE0 <= bs[0] < 0xF0 && IsContinuation(bs[1]) && IsContinuation(bs[2]) then
      Some((bs[0] - 0xE0) * 0x1000 + (bs[1] - 0x80) * 0x40 + (bs[2] - 0x80))
    else if |bs| == 4 && 0xF0 <= bs[0] < 0xF8
            && IsContinuation(bs[1]) && IsContinuation(bs[2]) && IsContinuation(bs[3]) then
      Some((bs[0] - 0xF0) * 0x40000 + (bs[1] - 0x80) * 0x1000 + (bs[2] - 0x80) * 0x40 + (bs[3] - 0x80))
    else None
  }

  /** Characters are encoded as UTF-8 and in no more bytes than needed. */
  lemma EncodingIsUtf8(c: char)
    ensures var n := c as int;
            && Utf8Value(EncodeChar(c)) == Some(n)
            && |EncodeChar(c)| == if n < 0x80 then 1 else if n < 0x800 then 2 else if n < 0x10000 then 3 else 4
  {
    var n := c as int;
    assert n < 0x110000;
    assert n / 4096 == n / 64 / 64 && n / 262144 == n / 4096 / 64;
  }

  /** Both cases of a hexadecimal digit count, and nothing else does. */
  lemma HexDigits(k: nat)
    requires k < 16
    ensures k < 10 ==> HexValue("0123456789"[k]) == Some(k)
    ensures k >= 10 ==> HexValue("ABCDEF"[k - 10]) == Some(k) && HexValue("abcdef"[k - 10]) == Some(k)
    ensures forall c: char :: HexValue(c).Some? <==> c in "0123456789ABCDEFabcdef"
  {
    if k >= 10 {
      assert "ABCDEF"[k - 10] == 'A' + (k - 10) as char && "abcdef"[k - 10] == 'a' + (k - 10) as char;
    } else {
      assert "0123456789"[k] == '0' + k as char;
    }
    forall c: char
      ensures HexValue(c).Some? <==> c in "0123456789ABCDEFabcdef"
    {
      HexChar(c);
    }
  }

  lemma HexChar(c: char)
    ensures HexValue(c).Some? <==> c in "0123456789ABCDEFabcdef"
  {
    var digits := "0123456789ABCDEFabcdef";
    if '0' <= c <= '9' {
      assert digits[c as int - '0' as int] == c;
    } else if 'A' <= c <= 'F' {
      assert digits[c as int - 'A' as int + 10] == c;
    } else if 'a' <= c <= 'f' {
      assert digits[c as int - 'a' as int + 16] == c;
    }
  }

  /** A complete escape is one byte; a percent sign that is none stands for itself, and so does every other
      character. */
  lemma Unquoting(c: char, d: char, rest: string, other: string)
    requires HexValue(c).Some? && HexValue(d).Some?
    ensures UnquoteBytes(['%', c, d] + rest) == [16 * HexValue(c).value + HexValue(d).value] + UnquoteBytes(rest)
    ensures other != ""
            && !(|other| >= 3 && other[0] == '%' && HexValue(other[1]).Some? && HexValue(other[2]).Some?) ==>
              UnquoteBytes(other) == EncodeChar(other[0]) + UnquoteBytes(other[1..])
    ensures UnquoteBytes("") == []
  {
    assert (['%', c, d] + rest)[3..] == rest;
  }

  /** Quoting leaves letters, digits and four signs alone, makes a space a plus, and everything else escapes. */
  lemma Quoting(s: string, rest: string)
    ensures QuotePlus("") == ""
    ensures s != "" ==>
      var c := s[0];
      QuotePlus(s) == (if c == ' ' then "+"
                       else if 'A' <= c <= 'Z' || 'a' <= c <= 'z' || '0' <= c <= '9' || c in {'_', '.', '-', '~'}
                       then [c]
                       else Escapes(EncodeChar(c))) + QuotePlus(s[1..])
  {
    if s != "" && s[0] != ' ' {
      QuotedByte(s[0]);
    }
  }

  /** `%XX` for each byte, with capital digits. */
  function Escapes(bs: seq<Byte>): string {
    if bs == [] then ""
    else ['%', "0123456789ABCDEF"[bs[0] / 16], "0123456789ABCDEF"[bs[0] % 16]] + Escapes(bs[1..])
  }

  lemma HexDigitIs(n: nat)
    requires n < 16
    ensures HexDigit(n) == "0123456789ABCDEF"[n]
  {
    if n < 10 {
      assert "0123456789ABCDEF"[n] == '0' + n as char;
    } else {
      assert "0123456789ABCDEF"[n] == 'A' + (n - 10) as char;
    }
  }

  lemma {:induction false} AllEscaped(bs: seq<Byte>)
    requires forall b <- bs :: !IsUnreserved(b)
    ensures QuoteBytes(bs) == Escapes(bs)
  {
    if bs != [] {
      HexDigitIs(bs[0] / 16);
      HexDigitIs(bs[0] % 16);
      assert bs[0] in bs && forall b <- bs[1..] :: b in bs;
      AllEscaped(bs[1..]);
    }
  }

  lemma HighBytes(c: char)
    requires c >= '\U{80}'
    ensures forall b <- EncodeChar(c) :: b >= 128
  {
  }

  lemma QuotedByte(c: char)
    ensures QuoteBytes(EncodeChar(c)) ==
            if 'A' <= c <= 'Z' || 'a' <= c <= 'z' || '0' <= c <= '9' || c in {'_', '.', '-', '~'} then [c]
            else Escapes(EncodeChar(c))
  {
    if c < '\U{80}' {
      assert EncodeChar(c) == [c as int] && [c as int][1..] == [];
      assert QuoteBytes([c as int]) == QuoteByte(c as int) + "" == QuoteByte(c as int);
      HexDigitIs(c as int / 16);
      HexDigitIs(c as int % 16);
      assert Escapes([c as int]) == ['%', HexDigit(c as int / 16), HexDigit(c as int % 16)] + "";
    } else {
      HighBytes(c);
      AllEscaped(EncodeChar(c));
    }
  }

  // ---- Tracking parameters ------------------------------------------------------------------------------

  /** Exactly these names, in whatever case, are tracking parameters. */
  lemma TrackingNames(t: TextRules, p: Pair)
    ensures DropTracking(t, [p]) ==
            if t.lower(p.0) in {"utm_source", "utm_medium", "utm_campaign", "utm_term", "utm_content", "utm_id",
                                "gclid", "fbclid", "dclid", "msclkid", "mc_cid", "mc_eid", "ref", "ref_src", "referrer"}
            then [] else [p]
  {
    assert [p][1..] == [];
  }

  lemma {:induction false} DropTrackingSplits(t: TextRules, a: seq<Pair>, b: seq<Pair>)
    ensures DropTracking(t, a + b) == DropTracking(t, a) + DropTracking(t, b)
  {
    if a == [] {
      assert a + b == b;
    } else {
      assert (a + b)[1..] == a[1..] + b;
      DropTrackingSplits(t, a[1..], b);
    }
  }

  /** Wherever a parameter stands: it goes if its name is a tracking name, and otherwise it stays, with its
      value and in its place. */
  lemma ParameterStays(t: TextRules, before: seq<Pair>, p: Pair, after: seq<Pair>)
    ensures DropTracking(t, before + [p] + after) ==
            DropTracking(t, before)
            + (if t.lower(p.0) in {"utm_source", "utm_medium", "utm_campaign", "utm_term", "utm_content", "utm_id",
                                   "gclid", "fbclid", "dclid", "msclkid", "mc_cid", "mc_eid", "ref", "ref_src",
                                   "referrer"} then [] else [p])
            + DropTracking(t, after)
  {
    DropTrackingSplits(t, before + [p], after);
    DropTrackingSplits(t, before, [p]);
    TrackingNames(t, p);
  }

  // ---- Reading a query --------------------------------------------------------------------------------------

  /** Parameters are separated by '&', name and value by the first '='; empty parameters do not count, a
      missing value is empty. */
  lemma ReadingQuery(t: TextRules, name: string, value: string, rest: string)
    requires Avoids(name, '&') && Avoids(name, '=') && Avoids(value, '&')
    ensures ParseQuery(t, "") == [] && ParseQuery(t, "&" + rest) == ParseQuery(t, rest)
    ensures ParseQuery(t, name + "=" + value) == [(UnquotePlus(t, name), UnquotePlus(t, value))]
    ensures ParseQuery(t, name + "=" + value + "&" + rest) ==
            [(UnquotePlus(t, name), UnquotePlus(t, value))] + ParseQuery(t, rest)
    ensures name != "" ==> ParseQuery(t, name + "&" + rest) == [(UnquotePlus(t, name), "")] + ParseQuery(t, rest)
  {
    FindIs("&" + rest, '&', 0);
    assert ("&" + rest)[1..] == rest;
    ParsePairOf(t, name, value);
    ParseFirst(t, name + "=" + value, rest);
    if name != "" {
      ParseFirst(t, name, rest);
      FindIs(name, '=', |name|);
      assert name[..|name|] == name && PlusToSpace("") == "";
    }
  }

  // ---- The path -----------------------------------------------------------------------------------------------

  function Slashes(n: nat): string { seq(n, _ => '/') }

  /** All trailing slashes go, unless nothing else is there: then one stays. */
  lemma TrailingSlashesGo(stem: string, n: nat)
    requires stem == "" || stem[|stem| - 1] != '/'
    ensures StripPath(stem + Slashes(n)) == if stem == "" && n > 0 then "/" else stem
  {
    var path := stem + Slashes(n);
    var r := DropSlashes(path);
    assert r <= path;
    assert stem != "" ==> path[|stem| - 1] == stem[|stem| - 1];
    assert forall k :: |stem| <= k < |path| ==> path[k] == '/';
    assert !(|r| < |stem|);
    assert r != "" ==> r[|r| - 1] == path[|r| - 1];
    assert !(|r| > |stem|);
    assert r == stem;
    if stem == "" && n > 0 {
      assert path[|path| - 1] == '/';
    } else if n > 0 {
      assert path[|path| - 1] == '/' && path != "/";
    } else {
      assert path == stem;
    }
  }

  /** Parameters start at the first ';' of the last segment and are kept as they are. */
  lemma PathIs(dir: string, seg: string, params: string, n: nat)
    requires (dir == "" || dir[|dir| - 1] == '/') && Avoids(seg, '/') && Avoids(seg, ';') && Avoids(params, '/')
    ensures params != "" ==> CanonPath(dir + (seg + ";" + params)) == StripPath(dir + seg) + ";" + params
    ensures CanonPath(dir + seg) == StripPath(dir + seg)
  {
    SplitOpen(dir, seg, params);
    SplitClosed(dir, seg);
  }

  // ---- The whole URL --------------------------------------------------------------------------------------------

  /** Tabs and line breaks go wherever they are, and nothing else. */
  lemma {:induction false} Cleaning(a: string, c: char, b: string)
    ensures Clean(a + [c] + b) == Clean(a) + (if c in {'\t', '\n', '\r'} then "" else [c]) + Clean(b)
  {
    if a == "" {
      assert (a + [c] + b)[1..] == b && Clean("") == "";
    } else {
      assert (a + [c] + b)[1..] == a[1..] + [c] + b;
      Cleaning(a[1..], c, b);
      assert Clean(a) == (if IsRemoved(a[0]) then "" else [a[0]]) + Clean(a[1..]);
    }
  }

  function Text(scheme: string, netloc: string, path: string, query: string, fragment: Option<string>): string {
    scheme + "://" + (netloc + (path + (if query == "" then "" else "?" + query)
                                + (match fragment case None => "" case Some(f) => "#" + f)))
  }

  lemma TailWithFragment(path: string, query: string, f: string)
    requires Free(path, {'?', '#'}) && Free(query, {'#'})
    ensures ParseTail(path + (if query == "" then "" else "?" + query) + ("#" + f)) == (path, query)
  {
    var tail := UnparseTail(path, query);
    ParseUnparseTail(path, query);
    FindIn(tail, '#', f);
    assert tail + ['#'] + f == tail + ("#" + f);
    assert (tail + ("#" + f))[..|tail|] == tail && tail[..|tail|] == tail;
    UrlCanonical.FindNone(tail, '#');
  }

  lemma TailIs(path: string, query: string, fragment: Option<string>)
    requires Free(path, {'?', '#'}) && Free(query, {'#'}) && (fragment.Some? ==> Free(fragment.value, {}))
    requires IsPath(path)
    ensures var tail := path + (if query == "" then "" else "?" + query)
                        + (match fragment case None => "" case Some(f) => "#" + f);
            ParseTail(tail) == (path, query) && Free(tail, {}) && (tail == "" || tail[0] in {'/', '?', '#'})
  {
    if fragment.Some? {
      TailWithFragment(path, query, fragment.value);
    } else {
      ParseUnparseTail(path, query);
      assert UnparseTail(path, query) + "" == UnparseTail(path, query);
    }
  }

  /** The parts are read off the text; the fragment is not among them. */
  lemma ReadingUrl(scheme: string, netloc: string, path: string, query: string, fragment: Option<string>)
    requires WellFormed(Parts(scheme, netloc, path, query)) && (fragment.Some? ==> Free(fragment.value, {}))
    ensures var raw := Text(scheme, netloc, path, query, fragment);
            HasScheme(raw) && Parse(raw) == Parts(scheme, netloc, path, query)
  {
    var tail := path + (if query == "" then "" else "?" + query)
                + (match fragment case None => "" case Some(f) => "#" + f);
    TailIs(path, query, fragment);
    SchemeText(scheme, netloc + tail);
    CleanKeeps(netloc + tail);
    HostEndIs(netloc, tail);
    assert (netloc + tail)[..|netloc|] == netloc && (netloc + tail)[|netloc|..] == tail;
  }

  /** Canonicalization from text to text: the scheme stays, the host is lower-cased, the path loses its
      trailing slashes, the query is what is left of the parameters, encoded anew, and the fragment goes. */
  lemma CanonicalText(t: TextRules, scheme: string, netloc: string, path: string, query: string,
                      fragment: Option<string>)
    requires SoundRules(t)
    requires WellFormed(Parts(scheme, netloc, path, query)) && (fragment.Some? ==> Free(fragment.value, {}))
    ensures var raw := Text(scheme, netloc, path, query, fragment);
            && HasScheme(raw)
            && Canonicalize(t, raw) ==
               Text(scheme, t.lower(netloc), CanonPath(path), EncodeQuery(DropTracking(t, ParseQuery(t, query))), None)
  {
    ReadingUrl(scheme, netloc, path, query, fragment);
    var q := EncodeQuery(DropTracking(t, ParseQuery(t, query)));
    assert UnparseTail(CanonPath(path), q) + "" == UnparseTail(CanonPath(path), q);
  }

  /** So the parameters of the canonical URL are exactly those of the URL that are not tracking parameters,
      with their values and in their order. */
  lemma CanonicalParameters(t: TextRules, raw: string)
    requires SoundRules(t) && HasScheme(raw)
    ensures HasScheme(Canonicalize(t, raw))
    ensures ParseQuery(t, Parse(Canonicalize(t, raw)).query) == DropTracking(t, ParseQuery(t, Parse(raw).query))
    ensures Parse(Canonicalize(t, raw)).scheme == Parse(raw).scheme
    ensures Parse(Canonicalize(t, raw)).netloc == t.lower(Parse(raw).netloc)
    ensures Parse(Canonicalize(t, raw)).path == CanonPath(Parse(raw).path)
  {
    CanonicalParts(t, raw);
    CanonQueryMeans(t, Parse(raw).query);
  }
}
