/** The path and parameters of a URL under s2's canonicalization, and exactly when doing it
    again changes nothing. */
module UrlPath {
  import opened Prelude

  function LastBefore(s: string, c: char, n: nat): (i: int)
    requires n <= |s|
    ensures -1 <= i < n && (i >= 0 ==> s[i] == c)
    ensures forall k :: i < k < n ==> s[k] != c
  {
    if n == 0 then -1 else if s[n - 1] == c then n - 1 else LastBefore(s, c, n - 1)
  }

  /** str.rfind */
  function LastOf(s: string, c: char): (i: int)
    ensures -1 <= i < |s| && (i >= 0 ==> s[i] == c)
    ensures forall k :: i < k < |s| ==> s[k] != c
  {
    LastBefore(s, c, |s|)
  }

  /** urllib.parse._splitparams: parameters start at the first ';' of the last segment. */
  function SplitParams(url: string): (r: (string, string))
  {
    var from := LastOf(url, '/') + 1;
    var i := from + Find(url[from..], ';');
    if i < |url| then (url[..i], url[i + 1..]) else (url, "")
  }

  predicate Avoids(s: string, c: char) { forall k :: 0 <= k < |s| ==> s[k] != c }

  /** Everything up to and including the last slash. */
  function Dir(s: string): string { s[..LastOf(s, '/') + 1] }

  function Segment(s: string): string { s[LastOf(s, '/') + 1..] }

  function JoinParams(path: string, params: string): string {
    if params == "" then path else path + ";" + params
  }

  function TrimmedLength(s: string, n: nat): (r: nat)
    requires n <= |s|
    ensures r <= n && (r > 0 ==> s[r - 1] != '/')
    ensures forall k :: r <= k < n ==> s[k] == '/'
  {
    if n > 0 && s[n - 1] == '/' then TrimmedLength(s, n - 1) else n
  }

  /** rstrip("/") */
  function DropSlashes(s: string): (r: string)
    ensures r <= s && (r == "" || r[|r| - 1] != '/')
    ensures forall k :: |r| <= k < |s| ==> s[k] == '/'
  {
    s[..TrimmedLength(s, |s|)]
  }

  function StripPath(path: string): string {
    if path != "/" && path != "" && path[|path| - 1] == '/' then
      if DropSlashes(path) == "" then "/" else DropSlashes(path)
    else path
  }

  /** What canonicalization makes of everything between the host and the query. */
  function CanonPath(url: string): string {
    JoinParams(StripPath(SplitParams(url).0), SplitParams(url).1)
  }

  predicate IsPath(url: string) { url == "" || url[0] == '/' }

  /** After its trailing slashes are gone, the path's last segment has a ';' at this position. */
  function ReopenedAt(path: string): (r: Option<nat>)
    ensures r.Some? ==> r.value < |DropSlashes(path)|
  {
    if path == "" || path == "/" || path[|path| - 1] != '/' then None
    else
      var s := DropSlashes(path);
      var i := Find(Segment(s), ';');
      if i < |Segment(s)| then Some(LastOf(s, '/') + 1 + i) else None
  }

  /** Stripping slashes uncovered a ';' that the next run reads as the start of parameters, and
      there is nothing after it, or a slash right before it that is not the root. */
  predicate Unstable(url: string) {
    var (path, params) := SplitParams(url);
    ReopenedAt(path).Some? && UnstableAt(DropSlashes(path), params, ReopenedAt(path).value)
  }

  predicate UnstableAt(s: string, params: string, i: nat)
    requires i < |s|
  {
    (i == |s| - 1 && params == "") || (i > 1 && s[i - 1] == '/')
  }

  // ---- Proof ------------------------------------------------------------------------------

  lemma DirSegment(s: string)
    ensures s == Dir(s) + Segment(s) && Avoids(Segment(s), '/')
    ensures Dir(s) == "" || Dir(s)[|Dir(s)| - 1] == '/'
  {
  }

  lemma LastOfIs(s: string, c: char, i: int)
    requires -1 <= i < |s| && (i >= 0 ==> s[i] == c) && (forall k :: i < k < |s| ==> s[k] != c)
    ensures LastOf(s, c) == i
  {
  }

  lemma FindIs(s: string, c: char, i: nat)
    requires i <= |s| && (i < |s| ==> s[i] == c) && (forall k :: 0 <= k < i ==> s[k] != c)
    ensures Find(s, c) == i
  {
  }

  lemma DirOfConcat(dir: string, tail: string)
    requires (dir == "" || dir[|dir| - 1] == '/') && Avoids(tail, '/')
    ensures LastOf(dir + tail, '/') == |dir| - 1
    ensures Dir(dir + tail) == dir && Segment(dir + tail) == tail
  {
    LastOfIs(dir + tail, '/', |dir| - 1);
  }

  lemma OpenSlices(dir: string, seg: string, rest: string)
    ensures var url := dir + (seg + ";" + rest);
            && url[|dir|..] == seg + ";" + rest
            && url[..|dir| + |seg|] == dir + seg && url[|dir| + |seg| + 1..] == rest
  {
  }

  lemma OpenTail(seg: string, rest: string)
    requires Avoids(seg, '/') && Avoids(seg, ';') && Avoids(rest, '/')
    ensures Avoids(seg + ";" + rest, '/') && Find(seg + ";" + rest, ';') == |seg|
  {
    FindIs(seg + ";" + rest, ';', |seg|);
  }

  /** A split is determined by the last slash and the first ';' after it. */
  lemma SplitOpen(dir: string, seg: string, rest: string)
    requires (dir == "" || dir[|dir| - 1] == '/') && Avoids(seg, '/') && Avoids(seg, ';') && Avoids(rest, '/')
    ensures SplitParams(dir + (seg + ";" + rest)) == (dir + seg, rest)
  {
    OpenTail(seg, rest);
    DirOfConcat(dir, seg + ";" + rest);
    OpenSlices(dir, seg, rest);
  }

  lemma SplitClosed(dir: string, seg: string)
    requires (dir == "" || dir[|dir| - 1] == '/') && Avoids(seg, '/') && Avoids(seg, ';')
    ensures SplitParams(dir + seg) == (dir + seg, "")
  {
    DirOfConcat(dir, seg);
    FindIs(seg, ';', |seg|);
    assert (dir + seg)[|dir|..] == seg;
  }

  lemma Slices(s: string, from: nat, i: nat)
    requires from + i < |s|
    ensures s[..from + i] == s[..from] + s[from..][..i]
    ensures s[from + i + 1..] == s[from..][i + 1..]
  {
  }

  /** SplitParams in terms of the segment alone. */
  lemma SplitBySegment(s: string)
    ensures var i := Find(Segment(s), ';');
            SplitParams(s) == if i < |Segment(s)| then (Dir(s) + Segment(s)[..i], Segment(s)[i + 1..]) else (s, "")
  {
    var from := LastOf(s, '/') + 1;
    var i := Find(s[from..], ';');
    if i < |s| - from {
      Slices(s, from, i);
    }
  }

  lemma CutSegment(segment: string)
    requires Avoids(segment, '/')
    ensures var i := Find(segment, ';');
            && Avoids(segment[..i], '/') && Avoids(segment[..i], ';')
            && (i < |segment| ==> segment == segment[..i] + ";" + segment[i + 1..] && Avoids(segment[i + 1..], '/'))
  {
  }

  lemma SplitFacts(url: string)
    ensures var (path, params) := SplitParams(url);
            path <= url && Avoids(params, '/') && Avoids(Segment(path), ';')
  {
    DirSegment(url);
    SplitBySegment(url);
    CutSegment(Segment(url));
    var i := Find(Segment(url), ';');
    DirOfConcat(Dir(url), Segment(url)[..i]);
  }

  lemma StripFacts(path: string)
    ensures StripPath(StripPath(path)) == StripPath(path)
    ensures StripPath(path) == path <==> path == "" || path == "/" || path[|path| - 1] != '/'
    ensures |StripPath(path)| <= |path|
  {
  }

  /** A path whose last segment has no ';' is split off again as it was put together. */
  lemma SplitJoined(path: string, params: string)
    requires Avoids(Segment(path), ';') && Avoids(params, '/')
    ensures SplitParams(JoinParams(path, params)) == (path, params)
  {
    var dir, seg := Dir(path), Segment(path);
    DirSegment(path);
    if params == "" {
      SplitClosed(dir, seg);
    } else {
      SplitOpen(dir, seg, params);
      assert dir + (seg + ";" + params) == path + ";" + params;
    }
  }

  /** If stripping uncovers no ';', the next run splits at the same place. */
  lemma NotReopened(url: string)
    ensures ReopenedAt(SplitParams(url).0).None? ==> CanonPath(CanonPath(url)) == CanonPath(url)
  {
    SplitFacts(url);
    var (path, params) := SplitParams(url);
    if ReopenedAt(path).None? {
      StripFacts(path);
      NoOpenSegment(path);
      SplitJoined(StripPath(path), params);
    }
  }

  lemma NoOpenSegment(path: string)
    requires ReopenedAt(path).None? && Avoids(Segment(path), ';')
    ensures Avoids(Segment(StripPath(path)), ';')
  {
    var s := DropSlashes(path);
    if StripPath(path) == path {
    } else if s == "" {
      SlashHasEmptySegment();
    } else {
      FindNone(Segment(s), ';');
    }
  }

  lemma SlashHasEmptySegment()
    ensures Segment("/") == ""
  {
    LastOfIs("/", '/', 0);
  }

  lemma FindNone(s: string, c: char)
    requires Find(s, c) == |s|
    ensures Avoids(s, c)
  {
  }

  /** The pieces around the first ';' of the last segment. */
  lemma CutAt(s: string) returns (dir: string, seg: string, tail: string)
    requires Find(Segment(s), ';') < |Segment(s)|
    ensures dir == "" || dir[|dir| - 1] == '/'
    ensures Avoids(seg, '/') && Avoids(seg, ';') && Avoids(tail, '/')
    ensures s == dir + (seg + ";" + tail)
    ensures |dir| == LastOf(s, '/') + 1 && |seg| == Find(Segment(s), ';')
  {
    DirSegment(s);
    CutSegment(Segment(s));
    var n := Find(Segment(s), ';');
    dir, seg, tail := Dir(s), Segment(s)[..n], Segment(s)[n + 1..];
  }

  /** If it does, the next run takes the uncovered ';' for the start of the parameters. */
  lemma Reopened(dir: string, seg: string, tail: string, params: string)
    requires (dir == "" || dir[|dir| - 1] == '/') && Avoids(seg, '/') && Avoids(seg, ';')
    requires Avoids(tail, '/') && Avoids(params, '/')
    ensures var rest := JoinParams(tail, params);
            && JoinParams(dir + (seg + ";" + tail), params) == (dir + seg) + ";" + rest
            && SplitParams((dir + seg) + ";" + rest) == (dir + seg, rest)
  {
    var rest := JoinParams(tail, params);
    SplitOpen(dir, seg, rest);
    PutTogether(dir, seg, tail, params);
  }

  lemma PutTogether(dir: string, seg: string, tail: string, params: string)
    ensures JoinParams(dir + (seg + ";" + tail), params) == (dir + seg) + ";" + JoinParams(tail, params)
    ensures dir + (seg + ";" + JoinParams(tail, params)) == (dir + seg) + ";" + JoinParams(tail, params)
  {
  }

  lemma JoinSame(x: string, y: string, rest: string)
    requires |y| <= |x|
    ensures JoinParams(y, rest) == x + ";" + rest <==> y == x && rest != ""
  {
    if rest != "" && y + ";" + rest == x + ";" + rest {
      assert |y| == |x| && (y + ";" + rest)[..|y|] == y && (x + ";" + rest)[..|x|] == x;
    }
  }

  /** The text that ends in parameters reopened at `x` is a fixed point iff `x` is stripped
      already and something follows it. */
  lemma FixedAt(x: string, rest: string)
    requires x != "" && SplitParams(x + ";" + rest) == (x, rest)
    ensures CanonPath(x + ";" + rest) == x + ";" + rest <==> (x == "/" || x[|x| - 1] != '/') && rest != ""
  {
    StripFacts(x);
    JoinSame(x, StripPath(x), rest);
  }

  lemma ReopenedCase(url: string, s: string, params: string, i: nat)
    requires SplitParams(url).1 == params && CanonPath(url) == JoinParams(s, params) && Avoids(params, '/')
    requires s != "" && s[0] == '/'
    requires i < |s| && i == LastOf(s, '/') + 1 + Find(Segment(s), ';')
    ensures CanonPath(CanonPath(url)) == CanonPath(url) <==> !UnstableAt(s, params, i)
  {
    var dir, seg, tail := CutAt(s);
    Reopened(dir, seg, tail, params);
    var x, rest := dir + seg, JoinParams(tail, params);
    assert |x| == i && (forall k :: 0 <= k < i ==> x[k] == s[k]);
    assert |tail| == |s| - i - 1;
    FixedAt(x, rest);
    assert x == "/" <==> i == 1;
  }

  /** Canonicalizing twice gives the same as once, exactly when the path is not unstable. */
  lemma PathIdempotentIff(url: string)
    requires IsPath(url)
    ensures CanonPath(CanonPath(url)) == CanonPath(url) <==> !Unstable(url)
  {
    var path, params := SplitParams(url).0, SplitParams(url).1;
    if ReopenedAt(path).None? {
      NotReopened(url);
    } else {
      SplitFacts(url);
      var s := DropSlashes(path);
      ReopenedCase(url, s, params, ReopenedAt(path).value);
    }
  }
}
