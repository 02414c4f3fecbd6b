/** Citation markers in an answer: the regular expression, a linear scanner for it, and what parsing
    and stripping do. */
module CitationMarkers {
  import opened Prelude

  predicate IsDigit(c: char) {
    '0' <= c <= '9'
  }

  predicate IsBlank(c: char) {
    c == ' ' || c == '\t'
  }

  predicate AllDigits(s: string) {
    forall i :: 0 <= i < |s| ==> IsDigit(s[i])
  }

  predicate AllBlank(s: string) {
    forall i :: 0 <= i < |s| ==> IsBlank(s[i])
  }

  // ---- the regular expression -------------------------------------------------------------

  /** What group 1 of the expression matches: references separated by `],` blanks `[`. */
  datatype Group = One(ref: string) | More(ref: string, gap: string, rest: Group) {
    predicate Valid() {
      && ref != "" && AllDigits(ref)
      && (More? ==> AllBlank(gap) && rest.Valid())
    }

    function Text(): string {
      if One? then ref else ref + "]," + gap + "[" + rest.Text()
    }

    function Gaps(): seq<string> {
      if One? then [] else [gap] + rest.Gaps()
    }

    function Refs(): seq<string> {
      if One? then [ref] else [ref] + rest.Refs()
    }
  }

  /** The marker with this group, followed by t. */
  function Marked(group: string, t: string): string {
    "[[" + (group + "]]" + t)
  }

  predicate IsRef(r: string) { r != "" && forall c <- r :: c in "0123456789" }

  predicate IsGap(gap: string) { forall c <- gap :: c in " \t" }

  lemma CharactersMean(s: string)
    ensures IsRef(s) <==> s != "" && AllDigits(s)
    ensures IsGap(s) <==> AllBlank(s)
  {
    forall c
      ensures IsDigit(c) <==> c in "0123456789"
      ensures IsBlank(c) <==> c in " \t"
    {
    }
  }

  /** A group is valid exactly if its references are non-empty runs of the ten digits and its gaps hold nothing
      but spaces and tabs. */
  lemma {:induction false} ValidIff(g: Group)
    ensures g.Valid() <==> (forall r <- g.Refs() :: IsRef(r)) && (forall gap <- g.Gaps() :: IsGap(gap))
  {
    CharactersMean(g.ref);
    assert g.Refs()[0] == g.ref && (g.One? ==> |g.Refs()| == 1);
    if g.More? {
      CharactersMean(g.gap);
      ValidIff(g.rest);
      assert g.Gaps()[0] == g.gap;
      forall r
        ensures r in g.Refs() <==> r == g.ref || r in g.rest.Refs()
        ensures r in g.Gaps() <==> r == g.gap || r in g.rest.Gaps()
      {
      }
    }
  }

  /** The expression matches at the start of s and leaves t. */
  ghost predicate Matches(s: string, g: Group, t: string) {
    g.Valid() && s == Marked(g.Text(), t)
  }

  // ---- a deterministic scanner ------------------------------------------------------------

  /** Where the scanner is inside a marker. */
  datatype Place = RefOpen | Digits | Close | RefSeparator

  datatype Next = Go(place: Place) | Complete | Dead

  function Step(at: Place, c: char): Next {
    match at
    case RefOpen => if IsDigit(c) then Go(Digits) else Dead
    case Digits => if IsDigit(c) then Go(Digits) else if c == ']' then Go(Close) else Dead
    case Close => if c == ']' then Complete else if c == ',' then Go(RefSeparator) else Dead
    case RefSeparator => if IsBlank(c) then Go(RefSeparator) else if c == '[' then Go(RefOpen) else Dead
  }

  /** What is left of s once the marker is complete. */
  function Tail(at: Place, s: string): (r: Option<string>)
    ensures r.Some? ==> |r.value| < |s| && r.value == s[|s| - |r.value|..]
    decreases |s|
  {
    if s == "" then None
    else match Step(at, s[0])
      case Go(next) => Tail(next, s[1..])
      case Complete => Some(s[1..])
      case Dead => None
  }

  predicate OpensMarker(s: string) {
    |s| >= 2 && s[0] == '[' && s[1] == '['
  }

  /** What is left of s after a marker at its start. */
  function Match(s: string): (r: Option<string>)
    ensures r.Some? ==> |r.value| < |s| - 2 && r.value == s[|s| - |r.value|..]
  {
    if OpensMarker(s) then Tail(RefOpen, s[2..]) else None
  }

  // ---- the scanner meets the expression ---------------------------------------------------

  lemma FirstOf(c: char, s: string)
    ensures ([c] + s)[0] == c && ([c] + s)[1..] == s
  {
  }

  lemma {:induction false} DigitsRun(d: string, s: string)
    requires AllDigits(d)
    ensures Tail(Digits, d + s) == Tail(Digits, s)
  {
    if d == "" {
      assert d + s == s;
    } else {
      assert d + s == [d[0]] + (d[1..] + s);
      FirstOf(d[0], d[1..] + s);
      DigitsRun(d[1..], s);
    }
  }

  lemma RefRun(d: string, s: string)
    requires AllDigits(d) && d != ""
    ensures Tail(RefOpen, d + s) == Tail(Digits, s)
  {
    assert d + s == [d[0]] + (d[1..] + s);
    FirstOf(d[0], d[1..] + s);
    DigitsRun(d[1..], s);
  }

  lemma {:induction false} BlankRun(gap: string, s: string)
    requires AllBlank(gap)
    ensures Tail(RefSeparator, gap + "[" + s) == Tail(RefOpen, s)
  {
    if gap == "" {
      assert gap + "[" + s == ['['] + s;
      FirstOf('[', s);
    } else {
      assert gap + "[" + s == [gap[0]] + (gap[1..] + "[" + s);
      FirstOf(gap[0], gap[1..] + "[" + s);
      BlankRun(gap[1..], s);
    }
  }

  lemma ClosesMarker(s: string)
    ensures Tail(Digits, "]]" + s) == Some(s)
  {
    assert "]]" + s == [']'] + ("]" + s);
    FirstOf(']', "]" + s);
    assert "]" + s == [']'] + s;
    FirstOf(']', s);
  }

  lemma ClosesRef(s: string)
    ensures Tail(Digits, "]," + s) == Tail(RefSeparator, s)
  {
    assert "]," + s == [']'] + ("," + s);
    FirstOf(']', "," + s);
    assert "," + s == [','] + s;
    FirstOf(',', s);
  }

  lemma {:induction false} GroupRun(g: Group, t: string)
    requires g.Valid()
    ensures Tail(RefOpen, g.Text() + "]]" + t) == Some(t)
  {
    match g
    case One(ref) =>
      assert g.Text() + "]]" + t == ref + ("]]" + t);
      RefRun(ref, "]]" + t);
      ClosesMarker(t);
    case More(ref, gap, rest) =>
      var after := rest.Text() + "]]" + t;
      assert g.Text() + "]]" + t == ref + ("]," + (gap + "[" + after));
      RefRun(ref, "]," + (gap + "[" + after));
      ClosesRef(gap + "[" + after);
      BlankRun(gap, after);
      GroupRun(rest, t);
  }

  function DigitCount(s: string): (n: nat)
    ensures n <= |s| && AllDigits(s[..n]) && (n < |s| ==> !IsDigit(s[n]))
  {
    if s == "" || !IsDigit(s[0]) then 0 else 1 + DigitCount(s[1..])
  }

  function BlankCount(s: string): (n: nat)
    ensures n <= |s| && AllBlank(s[..n]) && (n < |s| ==> !IsBlank(s[n]))
  {
    if s == "" || !IsBlank(s[0]) then 0 else 1 + BlankCount(s[1..])
  }

  /** What can follow a complete reference. */
  lemma {:induction false} AfterRef(s: string, t: string)
    requires Tail(Digits, s) == Some(t) && (s == "" || !IsDigit(s[0]))
    ensures |s| >= 2 && s[0] == ']'
    ensures if s[1] == ']' then t == s[2..] else s[1] == ',' && Tail(RefSeparator, s[2..]) == Some(t)
  {
    var u := s[1..];
    assert Tail(Close, u) == Some(t);
    assert u[1..] == s[2..];
  }

  lemma {:induction false} AfterGap(s: string, t: string)
    requires Tail(RefSeparator, s) == Some(t)
    ensures BlankCount(s) < |s| && s[BlankCount(s)] == '['
    ensures Tail(RefOpen, s[BlankCount(s) + 1..]) == Some(t)
    decreases |s|
  {
    if IsBlank(s[0]) {
      var u := s[1..];
      AfterGap(u, t);
      assert u[BlankCount(u) + 1..] == s[BlankCount(s) + 1..];
    }
  }

  lemma Closed(s: string)
    requires |s| >= 2 && s[0] == ']' && s[1] == ']'
    ensures s == "]]" + s[2..]
  {
  }

  lemma CommaOf(s: string)
    requires |s| >= 2 && s[0] == ']' && s[1] == ','
    ensures s == "]," + s[2..]
  {
  }

  lemma GapOf(s: string, m: nat)
    requires m < |s| && s[m] == '['
    ensures s == s[..m] + "[" + s[m + 1..]
  {
  }

  lemma Regroup(ref: string, gap: string, rest: string, t: string)
    ensures ref + ("]," + (gap + "[" + (rest + "]]" + t))) == (ref + "]," + gap + "[" + rest) + "]]" + t
  {
  }

  /** Blanks and the next reference, once `],` is read. */
  lemma {:induction false} ScanMeansRest(s: string, t: string) returns (gap: string, rest: string)
    requires Tail(RefSeparator, s) == Some(t)
    ensures AllBlank(gap) && s == gap + "[" + rest && Tail(RefOpen, rest) == Some(t) && |rest| < |s|
  {
    AfterGap(s, t);
    gap, rest := s[..BlankCount(s)], s[BlankCount(s) + 1..];
    GapOf(s, BlankCount(s));
  }

  lemma {:induction false} ScanMeansGroup(s: string, t: string) returns (g: Group)
    requires Tail(RefOpen, s) == Some(t)
    ensures g.Valid() && s == g.Text() + "]]" + t
    decreases |s|
  {
    var ref, after := s[..DigitCount(s)], s[DigitCount(s)..];
    assert s == ref + after;
    assert ref != "";
    RefRun(ref, after);
    AfterRef(after, t);
    if after[1] == ']' {
      Closed(after);
      g := One(ref);
      Append3(ref, "]]", t);
    } else {
      CommaOf(after);
      var gap, rest := ScanMeansRest(after[2..], t);
      var tail := ScanMeansGroup(rest, t);
      g := More(ref, gap, tail);
      Regroup(ref, gap, tail.Text(), t);
    }
  }

  lemma Brackets(s: string)
    requires OpensMarker(s)
    ensures s == "[[" + s[2..]
  {
  }

  /** The scanner leaves t exactly when the expression matches and leaves t. Hence there is at most one
      match at a position, whatever the order in which alternatives are tried. */
  lemma ScannerIsExpression(s: string, t: string)
    ensures Match(s) == Some(t) <==> exists g :: Matches(s, g, t)
  {
    if Match(s) == Some(t) {
      var g := ScanMeansGroup(s[2..], t);
      Brackets(s);
      assert s == Marked(g.Text(), t);
      assert Matches(s, g, t);
    }
    if g :| Matches(s, g, t) {
      MarkedMatches(g, t);
    }
  }

  lemma Opens(s: string)
    ensures OpensMarker("[[" + s) && ("[[" + s)[2..] == s
  {
  }

  lemma MarkedMatches(g: Group, t: string)
    requires g.Valid()
    ensures Match(Marked(g.Text(), t)) == Some(t)
  {
    GroupRun(g, t);
    Opens(g.Text() + "]]" + t);
  }

  // ---- the references inside a group ------------------------------------------------------

  /** `findall("[0-9]+")` */
  function FindAll(s: string): seq<string>
    decreases |s|
  {
    if s == "" then []
    else if IsDigit(s[0]) then
      assert DigitCount(s) == 1 + DigitCount(s[1..]);
      [s[..DigitCount(s)]] + FindAll(s[DigitCount(s)..])
    else FindAll(s[1..])
  }

  lemma {:induction false} DigitCountIs(d: string, s: string)
    requires AllDigits(d) && (s == "" || !IsDigit(s[0]))
    ensures DigitCount(d + s) == |d|
  {
    if d == "" {
      assert d + s == s;
    } else {
      assert (d + s)[1..] == d[1..] + s;
      DigitCountIs(d[1..], s);
    }
  }

  lemma FindRef(d: string, s: string)
    requires AllDigits(d) && d != "" && (s == "" || !IsDigit(s[0]))
    ensures FindAll(d + s) == [d] + FindAll(s)
  {
    DigitCountIs(d, s);
    assert (d + s)[..|d|] == d && (d + s)[|d|..] == s;
  }

  lemma {:induction false} FindSkips(u: string, s: string)
    requires forall i :: 0 <= i < |u| ==> !IsDigit(u[i])
    ensures FindAll(u + s) == FindAll(s)
  {
    if u == "" {
      assert u + s == s;
    } else {
      assert (u + s)[1..] == u[1..] + s;
      FindSkips(u[1..], s);
    }
  }

  /** The digits found in a group are its references, in the order written. */
  lemma {:induction false} FindAllRefs(g: Group)
    requires g.Valid()
    ensures FindAll(g.Text()) == g.Refs()
  {
    match g
    case One(ref) =>
      assert ref == ref + "";
      FindRef(ref, "");
    case More(ref, gap, rest) =>
      var sep := "]," + gap + "[";
      assert g.Text() == ref + (sep + rest.Text());
      FindRef(ref, sep + rest.Text());
      FindSkips(sep, rest.Text());
      FindAllRefs(rest);
  }
}
