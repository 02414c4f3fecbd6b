/** The whole of s2's `_canonicalize_url`: when doing it twice is the same as doing it once, and
    what that means for the update loop of the migration. */
module UrlCanonical {
  import opened Prelude
  import opened UrlPath
  import opened UrlQuery
  import KeyTable

  /** The column's CHECK constraint admits only these. */
  predicate HasScheme(raw: string) { "http://" <= raw || "https://" <= raw }

  datatype Parts = Parts(scheme: string, netloc: string, path: string, query: string)

  // ---- urlparse and urlunparse ---------------------------------------------------------------

  predicate IsRemoved(c: char) { c == '\t' || c == '\r' || c == '\n' }

  /** urlsplit drops tabs and line breaks wherever they are. */
  function Clean(s: string): (r: string)
    ensures forall i :: 0 <= i < |r| ==> !IsRemoved(r[i])
  {
    if s == "" then "" else (if IsRemoved(s[0]) then "" else [s[0]]) + Clean(s[1..])
  }

  /** The host ends at the first of '/', '?' and '#'. */
  function HostEnd(s: string): (n: nat)
    ensures n <= |s| && (n < |s| ==> s[n] in {'/', '?', '#'}) && (forall i :: 0 <= i < n ==> s[i] !in {'/', '?', '#'})
  {
    if s == "" || s[0] in {'/', '?', '#'} then 0 else 1 + HostEnd(s[1..])
  }

  function Scheme(raw: string): string { if "https://" <= raw then "https" else "http" }

  /** The text after the host: fragment cut off first, then path and query. */
  function ParseTail(tail: string): (string, string) {
    var kept := tail[..Find(tail, '#')];
    var i := Find(kept, '?');
    (kept[..i], if i < |kept| then kept[i + 1..] else "")
  }

  function Parse(raw: string): Parts
    requires HasScheme(raw)
  {
    var rest := Clean(raw[|Scheme(raw)| + 3..]);
    var n := HostEnd(rest);
    Parts(Scheme(raw), rest[..n], ParseTail(rest[n..]).0, ParseTail(rest[n..]).1)
  }

  function UnparseTail(path: string, query: string): string {
    path + (if query == "" then "" else "?" + query)
  }

  function Unparse(p: Parts): string {
    p.scheme + "://" + (p.netloc + UnparseTail(p.path, p.query))
  }

  /** `_canonicalize_url` */
  function Canonicalize(t: TextRules, raw: string): string
    requires HasScheme(raw)
  {
    var p := Parse(raw);
    Unparse(Parts(p.scheme, t.lower(p.netloc), CanonPath(p.path), CanonQuery(t, p.query)))
  }

  // ---- Well-formed parts -----------------------------------------------------------------------

  predicate Free(s: string, stop: set<char>) {
    forall i :: 0 <= i < |s| ==> !IsRemoved(s[i]) && s[i] !in stop
  }

  predicate WellFormed(p: Parts) {
    && p.scheme in {"http", "https"} && Free(p.netloc, {'/', '?', '#'})
    && IsPath(p.path) && Free(p.path, {'?', '#'}) && Free(p.query, {'#'})
  }

  lemma TailIsFree(tail: string)
    requires Free(tail, {})
    ensures Free(ParseTail(tail).0, {'?', '#'}) && Free(ParseTail(tail).1, {'#'})
    ensures tail == "" || tail[0] in {'/', '?', '#'} ==> IsPath(ParseTail(tail).0)
  {
    var n := Find(tail, '#');
    var kept := tail[..n];
    assert Free(kept, {'#'});
    var i := Find(kept, '?');
    assert Free(kept[..i], {'?', '#'});
    if i < |kept| {
      assert Free(kept[i + 1..], {'#'});
    }
  }

  lemma ParseGivesWellFormed(raw: string)
    requires HasScheme(raw)
    ensures WellFormed(Parse(raw))
  {
    var rest := Clean(raw[|Scheme(raw)| + 3..]);
    var n := HostEnd(rest);
    assert Free(rest[n..], {});
    TailIsFree(rest[n..]);
  }

  lemma {:induction false} CleanKeeps(s: string)
    requires forall i :: 0 <= i < |s| ==> !IsRemoved(s[i])
    ensures Clean(s) == s
  {
    if s != "" {
      CleanKeeps(s[1..]);
    }
  }

  lemma HostEndIs(netloc: string, tail: string)
    requires Free(netloc, {'/', '?', '#'}) && (tail == "" || tail[0] in {'/', '?', '#'})
    ensures HostEnd(netloc + tail) == |netloc|
  {
    var s := netloc + tail;
    assert forall i :: 0 <= i < |netloc| ==> s[i] == netloc[i];
    if tail != "" {
      assert s[|netloc|] == tail[0];
    }
  }

  lemma FindNone(s: string, c: char)
    requires forall i :: 0 <= i < |s| ==> s[i] != c
    ensures Find(s, c) == |s| && s[..|s|] == s
  {
  }

  lemma ParseUnparseTail(path: string, query: string)
    requires Free(path, {'?', '#'}) && Free(query, {'#'})
    ensures ParseTail(UnparseTail(path, query)) == (path, query)
  {
    var tail := UnparseTail(path, query);
    FindNone(tail, '#');
    if query == "" {
      FindNone(path, '?');
      assert tail == path;
    } else {
      FindIn(path, '?', query);
      assert tail == path + ['?'] + query;
    }
  }

  lemma SchemeText(scheme: string, rest: string)
    requires scheme in {"http", "https"}
    ensures HasScheme(scheme + "://" + rest) && Scheme(scheme + "://" + rest) == scheme
    ensures (scheme + "://" + rest)[|scheme| + 3..] == rest
  {
    var raw := scheme + "://" + rest;
    if scheme == "http" {
      assert raw[..7] == "http://" && raw[4] == ':';
    } else {
      assert raw[..8] == "https://";
    }
  }

  /** Well-formed parts are read back from the text they make. */
  lemma ParseUnparse(p: Parts)
    requires WellFormed(p)
    ensures HasScheme(Unparse(p)) && Parse(Unparse(p)) == p
  {
    var tail := UnparseTail(p.path, p.query);
    var rest := p.netloc + tail;
    SchemeText(p.scheme, rest);
    assert Free(tail, {'#'});
    CleanKeeps(rest);
    HostEndIs(p.netloc, tail);
    assert rest[..|p.netloc|] == p.netloc && rest[|p.netloc|..] == tail;
    ParseUnparseTail(p.path, p.query);
  }

  // ---- Idempotence --------------------------------------------------------------------------------

  /** Decoding undoes encoding; lower-casing a host twice is the same as once and brings in no
      delimiter. */
  ghost predicate SoundRules(t: TextRules) {
    && Decodes(t)
    && (forall s :: t.lower(t.lower(s)) == t.lower(s))
    && (forall s :: Free(s, {'/', '?', '#'}) ==> Free(t.lower(s), {'/', '?', '#'}))
  }

  lemma SplitIsFree(path: string)
    requires IsPath(path) && Free(path, {'?', '#'})
    ensures IsPath(SplitParams(path).0) && Free(SplitParams(path).0, {'?', '#'})
    ensures Free(SplitParams(path).1, {'?', '#'}) && (SplitParams(path).0 == "" ==> SplitParams(path).1 == "")
  {
    SplitBySegment(path);
  }

  lemma StripIsFree(path: string)
    requires IsPath(path) && Free(path, {'?', '#'})
    ensures IsPath(StripPath(path)) && Free(StripPath(path), {'?', '#'}) && (StripPath(path) == "" ==> path == "")
  {
  }

  lemma JoinIsFree(path: string, params: string)
    requires IsPath(path) && Free(path, {'?', '#'}) && Free(params, {'?', '#'}) && (path == "" ==> params == "")
    ensures IsPath(JoinParams(path, params)) && Free(JoinParams(path, params), {'?', '#'})
  {
  }

  lemma StripJoinIsFree(first: string, params: string)
    requires IsPath(first) && Free(first, {'?', '#'}) && Free(params, {'?', '#'}) && (first == "" ==> params == "")
    ensures IsPath(JoinParams(StripPath(first), params)) && Free(JoinParams(StripPath(first), params), {'?', '#'})
  {
    StripIsFree(first);
    JoinIsFree(StripPath(first), params);
  }

  /** What holds of every path that comes out of Parse. */
  predicate PathText(path: string) { IsPath(path) && Free(path, {'?', '#'}) }

  lemma CanonPathWellFormed(path: string)
    requires PathText(path)
    ensures PathText(CanonPath(path))
  {
    SplitIsFree(path);
    StripJoinIsFree(SplitParams(path).0, SplitParams(path).1);
  }

  lemma CanonQueryWellFormed(t: TextRules, q: string)
    ensures Free(CanonQuery(t, q), {'#'})
  {
    var pairs := DropTracking(t, ParseQuery(t, q));
    EncodedChars(pairs);
    QueryCharsAreFree(EncodeQuery(pairs));
  }

  lemma QueryCharsAreFree(q: string)
    requires forall i :: 0 <= i < |q| ==> IsQueryChar(q[i])
    ensures Free(q, {'#'})
  {
  }

  lemma CanonicalParts(t: TextRules, raw: string)
    requires SoundRules(t) && HasScheme(raw)
    ensures HasScheme(Canonicalize(t, raw))
    ensures var p := Parse(raw);
            Parse(Canonicalize(t, raw)) == Parts(p.scheme, t.lower(p.netloc), CanonPath(p.path), CanonQuery(t, p.query))
  {
    var p := Parse(raw);
    ParseGivesWellFormed(raw);
    CanonPathWellFormed(p.path);
    CanonQueryWellFormed(t, p.query);
    ParseUnparse(Parts(p.scheme, t.lower(p.netloc), CanonPath(p.path), CanonQuery(t, p.query)));
  }

  /** On every URL of the column: canonicalizing twice equals canonicalizing once, exactly when
      stripping the path's trailing slashes does not reopen a parameter separator. */
  lemma IdempotentIff(t: TextRules, raw: string)
    requires SoundRules(t) && HasScheme(raw)
    ensures HasScheme(Canonicalize(t, raw))
    ensures Canonicalize(t, Canonicalize(t, raw)) == Canonicalize(t, raw) <==> !Unstable(Parse(raw).path)
  {
    CanonicalParts(t, raw);
    CanonicalParts(t, Canonicalize(t, raw));
    ParseGivesWellFormed(raw);
    CanonQueryMeans(t, Parse(raw).query);
    PathIdempotentIff(Parse(raw).path);
  }

  /** In particular whenever the path has no ';' at all. */
  lemma NoSemicolonIsStable(t: TextRules, raw: string)
    requires SoundRules(t) && HasScheme(raw) && Avoids(Parse(raw).path, ';')
    ensures HasScheme(Canonicalize(t, raw))
    ensures Canonicalize(t, Canonicalize(t, raw)) == Canonicalize(t, raw)
  {
    IdempotentIff(t, raw);
    NoSemicolonNotUnstable(Parse(raw).path);
  }

  lemma NothingReopened(first: string, path: string)
    requires first <= path && Avoids(path, ';')
    ensures ReopenedAt(first).None?
  {
    var s := DropSlashes(first);
    assert forall k :: 0 <= k < |s| ==> s[k] == path[k];
    DirSegment(s);
  }

  lemma NoSemicolonNotUnstable(path: string)
    requires Avoids(path, ';')
    ensures !Unstable(path)
  {
    SplitFacts(path);
    NothingReopened(SplitParams(path).0, path);
  }

  // ---- The update loop ------------------------------------------------------------------------------

  /** Defined on every string, so that a table can be mapped with it. */
  function Canon(t: TextRules): string -> string {
    (raw: string) => if HasScheme(raw) then Canonicalize(t, raw) else raw
  }

  /** If no stored URL is unstable, the s2 loop never meets the unique index part-way, in
      whatever order the rows come. */
  lemma LoopNeverConflicts(t: TextRules, rows: KeyTable.Rows, order: seq<int>)
    requires SoundRules(t) && KeyTable.Enumerates(order, rows)
    requires forall i <- rows :: HasScheme(rows[i]) && !Unstable(Parse(rows[i]).path)
    requires !KeyTable.S2Collide(rows, Canon(t))
    ensures !KeyTable.MeetsConflict(rows, order, Canon(t))
  {
    forall i | i in rows
      ensures Canon(t)(Canon(t)(rows[i])) == Canon(t)(rows[i])
    {
      IdempotentIff(t, rows[i]);
    }
    KeyTable.IdempotentNeverConflicts(rows, order, Canon(t));
  }

  function Page(host: string, path: string): string { Unparse(Parts("http", host, path, "")) }

  lemma PageCanon(t: TextRules, host: string, path: string)
    requires SoundRules(t) && Free(host, {'/', '?', '#'}) && t.lower(host) == host
    requires IsPath(path) && Free(path, {'?', '#'})
    ensures HasScheme(Page(host, path)) && Parse(Page(host, path)).path == path
    ensures Canon(t)(Page(host, path)) == Page(host, CanonPath(path))
  {
    ParseUnparse(Parts("http", host, path, ""));
    assert ParseQuery(t, "") == [] && CanonQuery(t, "") == "";
  }

  /** Two URLs on which it does: nothing collides, and the loop still stops half-way. */
  lemma LoopCanConflict(t: TextRules, host: string)
    requires SoundRules(t) && Free(host, {'/', '?', '#'}) && t.lower(host) == host
    ensures var rows := map[1 := Page(host, "/a;/"), 2 := Page(host, "/a;")];
            && KeyTable.Unique(rows) && KeyTable.Enumerates([1, 2], rows)
            && !KeyTable.S2Collide(rows, Canon(t))
            && KeyTable.MeetsConflict(rows, [1, 2], Canon(t))
  {
    ExamplePages(t, host);
    TwoRowsConflict(Page(host, "/a;/"), Page(host, "/a;"), Canon(t));
  }

  lemma ExamplePages(t: TextRules, host: string)
    requires SoundRules(t) && Free(host, {'/', '?', '#'}) && t.lower(host) == host
    ensures Canon(t)(Page(host, "/a;/")) == Page(host, "/a;") && Canon(t)(Page(host, "/a;")) == Page(host, "/a")
    ensures Page(host, "/a;/") != Page(host, "/a;") && Page(host, "/a") != Page(host, "/a;")
  {
    PathsOfExample();
    PageCanon(t, host, "/a;/");
    PageCanon(t, host, "/a;");
    assert |Page(host, "/a;/")| == |Page(host, "/a;")| + 1 == |Page(host, "/a")| + 2;
  }

  lemma TwoRowsConflict(first: string, second: string, canon: string -> string)
    requires canon(first) == second && canon(second) != second && first != second
    ensures var rows := map[1 := first, 2 := second];
            && KeyTable.Unique(rows) && KeyTable.Enumerates([1, 2], rows)
            && !KeyTable.S2Collide(rows, canon) && KeyTable.MeetsConflict(rows, [1, 2], canon)
  {
    var rows := map[1 := first, 2 := second];
    assert [1, 2][0] == 1 && [1, 2][1] == 2;
    assert KeyTable.Enumerates([1, 2], rows);
    assert KeyTable.RunsInto(rows, [1, 2], canon, 0, 1);
  }

  lemma PathsOfExample()
    ensures CanonPath("/a;/") == "/a;" && CanonPath("/a;") == "/a"
  {
    PathWithSlash();
    SplitOpen("/", "a", "");
    assert "/" + ("a" + ";" + "") == "/a;" && "/" + "a" == "/a";
  }

  lemma PathWithSlash()
    ensures CanonPath("/a;/") == "/a;"
  {
    SplitClosed("/a;/", "");
    assert "/a;/" + "" == "/a;/";
    assert DropSlashes("/a;/") == "/a;";
  }
}
