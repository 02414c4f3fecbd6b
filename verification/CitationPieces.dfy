/** Parsing and stripping citation markers: one left-to-right scan cuts the text into literals and markers. */
module CitationPieces {
  import opened Prelude
  import opened CitationMarkers

  /** A character between matches, or a match with its group 1. */
  datatype Piece = Literal(c: char) | Marker(group: string) {
    function Text(): string {
      if Literal? then [c] else "[[" + group + "]]"
    }
  }

  /** The matches `finditer` reports: at the leftmost position where the expression matches, then on from
      its end. */
  ghost predicate IsScan(s: string, p: seq<Piece>)
    decreases |p|
  {
    if p == [] then s == ""
    else if p[0].Literal? then
      s != "" && s[0] == p[0].c && !(exists g, t :: Matches(s, g, t)) && IsScan(s[1..], p[1..])
    else
      exists g, t :: Matches(s, g, t) && p[0].group == g.Text() && IsScan(t, p[1..])
  }

  function Pieces(s: string): seq<Piece>
    decreases |s|
  {
    if s == "" then []
    else match Match(s)
      case Some(t) => [Marker(s[2..|s| - |t| - 2])] + Pieces(t)
      case None => [Literal(s[0])] + Pieces(s[1..])
  }

  lemma GroupOf(s: string, g: Group, t: string)
    requires Matches(s, g, t)
    ensures s[2..|s| - |t| - 2] == g.Text()
  {
  }

  lemma AtMarker(s: string, g: Group, t: string)
    requires Matches(s, g, t)
    ensures Pieces(s) == [Marker(g.Text())] + Pieces(t)
  {
    MarkedMatches(g, t);
    GroupOf(s, g, t);
  }

  lemma AtLiteral(s: string)
    requires s != "" && !exists g, t :: Matches(s, g, t)
    ensures Pieces(s) == [Literal(s[0])] + Pieces(s[1..])
  {
    if Match(s).Some? {
      ScannerIsExpression(s, Match(s).value);
    }
  }

  lemma {:induction false} ScanIsPieces(s: string, p: seq<Piece>)
    requires IsScan(s, p)
    ensures p == Pieces(s)
    decreases |p|
  {
    if p == [] {
    } else if p[0].Literal? {
      AtLiteral(s);
      ScanIsPieces(s[1..], p[1..]);
      assert p == [p[0]] + p[1..];
    } else {
      var g, t :| Matches(s, g, t) && p[0].group == g.Text() && IsScan(t, p[1..]);
      AtMarker(s, g, t);
      ScanIsPieces(t, p[1..]);
      assert p == [p[0]] + p[1..];
    }
  }

  lemma {:induction false} PiecesAreScan(s: string)
    ensures IsScan(s, Pieces(s))
    decreases |s|
  {
    if s == "" {
    } else if g, t :| Matches(s, g, t) {
      AtMarker(s, g, t);
      PiecesAreScan(t);
      assert Pieces(s)[1..] == Pieces(t);
    } else {
      AtLiteral(s);
      PiecesAreScan(s[1..]);
      assert Pieces(s)[1..] == Pieces(s[1..]);
    }
  }

  /** The linear scan finds exactly the matches of the expression. */
  lemma PiecesAreTheMatches(s: string, p: seq<Piece>)
    ensures IsScan(s, p) <==> p == Pieces(s)
  {
    PiecesAreScan(s);
    if IsScan(s, p) {
      ScanIsPieces(s, p);
    }
  }

  // ---- strip and parse --------------------------------------------------------------------

  function Rebuild(p: seq<Piece>): string {
    if p == [] then "" else p[0].Text() + Rebuild(p[1..])
  }

  function Literals(p: seq<Piece>): string {
    if p == [] then "" else (if p[0].Literal? then [p[0].c] else "") + Literals(p[1..])
  }

  function FoundRefs(p: seq<Piece>): seq<string> {
    if p == [] then [] else (if p[0].Marker? then FindAll(p[0].group) else []) + FoundRefs(p[1..])
  }

  /** `strip_citation_markers` */
  function Strip(text: string): string {
    Literals(Pieces(text))
  }

  method OrderedUnique(values: seq<string>) returns (result: seq<string>)
    ensures result == Dedup(values)
  {
    result := [];
    var seen: set<string> := {};
    for n := 0 to |values|
      invariant result == Dedup(values[..n])
      invariant forall v :: v in seen <==> v in values[..n]
    {
      var prefix := values[..n + 1];
      assert prefix[..n] == values[..n] && prefix[n] == values[n];
      if values[n] !in seen {
        result := result + [values[n]];
        seen := seen + {values[n]};
      }
      assert prefix == values[..n] + [values[n]];
    }
    assert values[..|values|] == values;
  }

  /** `parse_citation_refs` */
  method ParseCitationRefs(text: string) returns (refs: seq<string>)
    ensures refs == Dedup(FoundRefs(Pieces(text)))
  {
    refs := OrderedUnique(FoundRefs(Pieces(text)));
  }

  lemma {:induction false} Cons(x: Piece, p: seq<Piece>)
    ensures Rebuild([x] + p) == x.Text() + Rebuild(p)
    ensures Literals([x] + p) == (if x.Literal? then [x.c] else "") + Literals(p)
    ensures FoundRefs([x] + p) == (if x.Marker? then FindAll(x.group) else []) + FoundRefs(p)
  {
    assert ([x] + p)[0] == x && ([x] + p)[1..] == p;
  }

  lemma {:induction false} PiecesOfMarker(s: string, t: string)
    requires Match(s) == Some(t)
    ensures Pieces(s) == [Marker(s[2..|s| - |t| - 2])] + Pieces(t)
  {
  }

  lemma {:induction false} PiecesOfLiteral(s: string)
    requires s != "" && Match(s).None?
    ensures Pieces(s) == [Literal(s[0])] + Pieces(s[1..])
  {
  }

  lemma HeadAndRest(s: string)
    requires s != ""
    ensures s == [s[0]] + s[1..]
  {
  }

  // ---- what they promise ------------------------------------------------------------------

  lemma SplitMarker(s: string, t: string)
    requires Match(s) == Some(t)
    ensures s == "[[" + s[2..|s| - |t| - 2] + "]]" + t
    ensures FindAll(s[2..|s| - |t| - 2]) != []
  {
    ScannerIsExpression(s, t);
    var g :| Matches(s, g, t);
    GroupOf(s, g, t);
    FindAllRefs(g);
  }

  /** Literals and matches together are the text. */
  lemma {:induction false} RebuildsText(s: string)
    ensures Rebuild(Pieces(s)) == s
    decreases |s|
  {
    if s == "" {
    } else if Match(s).Some? {
      var t := Match(s).value;
      var m := Marker(s[2..|s| - |t| - 2]);
      PiecesOfMarker(s, t);
      Cons(m, Pieces(t));
      RebuildsText(t);
      SplitMarker(s, t);
    } else {
      PiecesOfLiteral(s);
      Cons(Literal(s[0]), Pieces(s[1..]));
      RebuildsText(s[1..]);
      HeadAndRest(s);
    }
  }

  lemma {:induction false} StripLength(s: string)
    ensures |Strip(s)| <= |s|
    ensures |Strip(s)| == |s| <==> FoundRefs(Pieces(s)) == []
    ensures |Strip(s)| == |s| ==> Strip(s) == s
    decreases |s|
  {
    if s == "" {
    } else if Match(s).Some? {
      var t := Match(s).value;
      PiecesOfMarker(s, t);
      Cons(Marker(s[2..|s| - |t| - 2]), Pieces(t));
      StripLength(t);
      SplitMarker(s, t);
    } else {
      PiecesOfLiteral(s);
      Cons(Literal(s[0]), Pieces(s[1..]));
      StripLength(s[1..]);
      HeadAndRest(s);
    }
  }

  /** Stripping changes nothing exactly when parsing finds nothing. */
  lemma StripKeepsIff(s: string)
    ensures Strip(s) == s <==> Dedup(FoundRefs(Pieces(s))) == []
  {
    StripLength(s);
    DedupEmpty(FoundRefs(Pieces(s)));
  }

  lemma {:induction false} TailExtends(at: Place, s: string, x: string)
    requires Tail(at, s).Some?
    ensures Tail(at, s + x) == Some(Tail(at, s).value + x)
    decreases |s|
  {
    assert (s + x)[0] == s[0] && (s + x)[1..] == s[1..] + x;
    if Step(at, s[0]).Go? {
      TailExtends(Step(at, s[0]).place, s[1..], x);
    }
  }

  lemma TailRefusesOpening(at: Place, x: string)
    ensures Tail(at, "[[" + x) == None
  {
    assert "[[" + x == ['['] + ("[" + x);
    FirstOf('[', "[" + x);
    assert "[" + x == ['['] + x;
    FirstOf('[', x);
  }

  lemma {:induction false} TailBlocked(at: Place, s: string, x: string)
    requires Tail(at, s).None?
    ensures Tail(at, s + ("[[" + x)) == None
    decreases |s|
  {
    if s == "" {
      assert s + ("[[" + x) == "[[" + x;
      TailRefusesOpening(at, x);
    } else {
      var y := "[[" + x;
      assert (s + y)[0] == s[0] && (s + y)[1..] == s[1..] + y;
      if Step(at, s[0]).Go? {
        TailBlocked(Step(at, s[0]).place, s[1..], x);
      }
    }
  }

  /** A marker behind s neither completes nor shortens what matches at the start of s. */
  lemma MatchBeside(s: string, x: string)
    requires s != ""
    ensures Match(s + ("[[" + x)) == match Match(s) case Some(t) => Some(t + ("[[" + x)) case None => None
  {
    var y := "[[" + x;
    if |s| >= 2 {
      assert (s + y)[2..] == s[2..] + y;
      if OpensMarker(s) {
        if Match(s).Some? {
          TailExtends(RefOpen, s[2..], y);
        } else {
          TailBlocked(RefOpen, s[2..], x);
        }
      }
    } else if s[0] == '[' {
      assert (s + y)[2..] == ['['] + x;
      FirstOf('[', x);
    }
  }

  lemma GroupBeside(s: string, t: string, y: string)
    requires Match(s) == Some(t)
    ensures |s + y| - |t + y| - 2 >= 2
    ensures (s + y)[2..|s + y| - |t + y| - 2] == s[2..|s| - |t| - 2]
  {
    SplitMarker(s, t);
  }

  lemma {:induction false} BesideMarker(a: string, t: string, y: string, after: seq<Piece>)
    requires Match(a) == Some(t) && Match(a + y) == Some(t + y) && Pieces(t + y) == Pieces(t) + after
    ensures Pieces(a + y) == Pieces(a) + after
  {
    GroupBeside(a, t, y);
    PiecesOfMarker(a + y, t + y);
    PiecesOfMarker(a, t);
    Append3([Marker(a[2..|a| - |t| - 2])], Pieces(t), after);
  }

  lemma FirstBeside(a: string, y: string)
    requires a != ""
    ensures (a + y)[0] == a[0] && (a + y)[1..] == a[1..] + y
  {
  }

  lemma {:induction false} BesideLiteral(a: string, y: string, after: seq<Piece>)
    requires a != "" && Match(a).None? && Match(a + y).None? && Pieces(a[1..] + y) == Pieces(a[1..]) + after
    ensures Pieces(a + y) == Pieces(a) + after
  {
    FirstBeside(a, y);
    PiecesOfLiteral(a + y);
    PiecesOfLiteral(a);
    Append3([Literal(a[0])], Pieces(a[1..]), after);
  }

  lemma {:induction false} PiecesBefore(a: string, g: Group, b: string)
    requires g.Valid()
    ensures Pieces(a + Marked(g.Text(), b)) == Pieces(a) + Pieces(Marked(g.Text(), b))
    decreases |a|
  {
    var y := Marked(g.Text(), b);
    if a == "" {
      assert a + y == y;
      assert Pieces(a) + Pieces(y) == Pieces(y);
    } else {
      MatchBeside(a, g.Text() + "]]" + b);
      if Match(a).Some? {
        PiecesBefore(Match(a).value, g, b);
        BesideMarker(a, Match(a).value, y, Pieces(y));
      } else {
        PiecesBefore(a[1..], g, b);
        BesideLiteral(a, y, Pieces(y));
      }
    }
  }

  /** A marker is found as such between any two texts, and nothing around it changes. */
  lemma PiecesAround(a: string, g: Group, b: string)
    requires g.Valid()
    ensures Pieces(a + Marked(g.Text(), b)) == Pieces(a) + ([Marker(g.Text())] + Pieces(b))
  {
    PiecesBefore(a, g, b);
    AtMarker(Marked(g.Text(), b), g, b);
  }

  lemma FirstPiece(p: seq<Piece>, q: seq<Piece>)
    requires p != []
    ensures p == [p[0]] + p[1..] && p + q == [p[0]] + (p[1..] + q)
  {
  }

  lemma {:induction false} OverConcat(p: seq<Piece>, q: seq<Piece>)
    ensures Literals(p + q) == Literals(p) + Literals(q)
    ensures FoundRefs(p + q) == FoundRefs(p) + FoundRefs(q)
  {
    if p == [] {
      assert p + q == q;
    } else {
      var x, rest := p[0], p[1..];
      OverConcat(rest, q);
      FirstPiece(p, q);
      Cons(x, rest);
      Cons(x, rest + q);
      Append3(if x.Literal? then [x.c] else "", Literals(rest), Literals(q));
      Append3(if x.Marker? then FindAll(x.group) else [], FoundRefs(rest), FoundRefs(q));
    }
  }

  /** What a marker contributes between any two texts. */
  lemma {:induction false} RefsAround(a: string, g: Group, b: string)
    requires g.Valid()
    ensures FoundRefs(Pieces(a + Marked(g.Text(), b))) == FoundRefs(Pieces(a)) + (g.Refs() + FoundRefs(Pieces(b)))
    ensures Strip(a + Marked(g.Text(), b)) == Strip(a) + Strip(b)
  {
    PiecesAround(a, g, b);
    FindAllRefs(g);
    Contribution(Pieces(a), Marker(g.Text()), Pieces(b));
  }

  lemma {:induction false} Contribution(p: seq<Piece>, m: Piece, q: seq<Piece>)
    requires m.Marker?
    ensures FoundRefs(p + ([m] + q)) == FoundRefs(p) + (FindAll(m.group) + FoundRefs(q))
    ensures Literals(p + ([m] + q)) == Literals(p) + Literals(q)
  {
    OverConcat(p, [m] + q);
    Cons(m, q);
    assert "" + Literals(q) == Literals(q);
  }

  /** Each reference in brackets of its own. */
  function Separate(g: Group): string {
    if g.One? then "[[" + g.ref + "]]" else "[[" + g.ref + "]]" + Separate(g.rest)
  }

  lemma SeparateMore(ref: string, rest: string, b: string)
    ensures "[[" + ref + "]]" + rest + b == Marked(ref, rest + b)
  {
  }

  lemma {:induction false} SeparateAround(a: string, g: Group, b: string)
    requires g.Valid()
    ensures FoundRefs(Pieces(a + (Separate(g) + b))) == FoundRefs(Pieces(a)) + (g.Refs() + FoundRefs(Pieces(b)))
    ensures Strip(a + (Separate(g) + b)) == Strip(a) + Strip(b)
    decreases g
  {
    if g.One? {
      assert Separate(g) + b == Marked(g.Text(), b);
      RefsAround(a, g, b);
    } else {
      SeparateStep(a, g.ref, Separate(g.rest) + b);
      SeparateMore(g.ref, Separate(g.rest), b);
      SeparateAround("", g.rest, b);
      EmptyBefore(Separate(g.rest) + b, Strip(b), g.rest.Refs() + FoundRefs(Pieces(b)));
      Append3([g.ref], g.rest.Refs(), FoundRefs(Pieces(b)));
    }
  }

  lemma EmptyBefore(s: string, u: string, refs: seq<string>)
    ensures "" + s == s && Strip("") + u == u && FoundRefs(Pieces("")) + refs == refs
  {
  }

  lemma SeparateStep(a: string, ref: string, rest: string)
    requires ref != "" && AllDigits(ref)
    ensures FoundRefs(Pieces(a + Marked(ref, rest))) == FoundRefs(Pieces(a)) + ([ref] + FoundRefs(Pieces(rest)))
    ensures Strip(a + Marked(ref, rest)) == Strip(a) + Strip(rest)
  {
    RefsAround(a, One(ref), rest);
  }

  /** In any context the grouped form and separate markers give the same references and the same text. */
  lemma GroupedIsSeparate(a: string, g: Group, b: string)
    requires g.Valid()
    ensures Dedup(FoundRefs(Pieces(a + Marked(g.Text(), b)))) == Dedup(FoundRefs(Pieces(a + (Separate(g) + b))))
    ensures Strip(a + Marked(g.Text(), b)) == Strip(a + (Separate(g) + b))
  {
    RefsAround(a, g, b);
    SeparateAround(a, g, b);
  }

  lemma {:induction false} NoOpeningStays(s: string)
    requires forall k :: 0 <= k < |s| - 1 ==> s[k] != '[' || s[k + 1] != '['
    ensures Strip(s) == s
  {
    if s != "" {
      NoOpeningStays(s[1..]);
      PiecesOfLiteral(s);
      Cons(Literal(s[0]), Pieces(s[1..]));
      HeadAndRest(s);
    }
  }

  lemma BareOpeningStays()
    ensures Strip("[[") == "[["
  {
    var s := "[[";
    assert Match(s) == None;
    NoOpeningStays(s[1..]);
    PiecesOfLiteral(s);
    Cons(Literal(s[0]), Pieces(s[1..]));
    HeadAndRest(s);
  }

  /** Stripping can leave a marker behind: what it removes may sit inside one, as in [[[[1]]1]]. */
  lemma {:induction false} StripTwiceDiffers(g: Group, ref: string)
    requires g.Valid() && ref != "" && AllDigits(ref)
    ensures Strip("[[" + Marked(g.Text(), ref + "]]")) == Marked(ref, "") != ""
    ensures Strip(Marked(ref, "")) == ""
  {
    RefsAround("[[", g, ref + "]]");
    BareOpeningStays();
    NoOpeningStays(ref + "]]");
    assert Marked(ref, "") == "[[" + (ref + "]]");
    SeparateStep("", ref, "");
    EmptyBefore(Marked(ref, ""), "", []);
  }
}
