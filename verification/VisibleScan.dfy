/** The incremental marker filter as a machine: one character, one or more moves. */
module VisibleScan {
  import opened Prelude
  import opened CitationMarkers
  import opened CitationPieces

  datatype MarkerState = Text | Open | Inside(place: Place)

  /** literals: every character released as literal text so far. */
  datatype Config = Config(state: MarkerState, candidate: string, literals: string) {

    /** Before the first character and after every marker. */
    function Released(text: string): Config {
      Config(Text, "", literals + text)
    }

    function Rank(): nat {
      match state case Text => 0 case Open => 1 case Inside(_) => 2
    }

    /** The candidate is the beginning of a marker that leads to this state. */
    ghost predicate Valid() {
      match state
      case Text => candidate == ""
      case Open => candidate == "["
      case Inside(place) =>
        && OpensMarker(candidate)
        && Reach(RefOpen, candidate[2..]) == Some(place)
        && (forall k :: 1 <= k < |candidate| - 1 && candidate[k] == '[' ==> candidate[k + 1] != '[')
        && (candidate[|candidate| - 1] == '[' <==> place == RefOpen)
    }
  }

  const START := Config(Text, "", "")

  /** Where the scanner is after p, if it can still be inside the marker. */
  function Reach(at: Place, p: string): Option<Place>
    decreases |p|
  {
    if p == "" then Some(at)
    else match Step(at, p[0])
      case Go(next) => Reach(next, p[1..])
      case _ => None
  }

  /** One pass of the loop body: the new configuration and whether c is used up. */
  function Move(conf: Config, c: char): (Config, bool)
    requires conf.state.Inside? ==> conf.candidate != ""
  {
    match conf.state
    case Text =>
      if c == '[' then (Config(Open, "[", conf.literals), true) else (conf.Released([c]), true)
    case Open =>
      if c == '[' then (Config(Inside(RefOpen), conf.candidate + [c], conf.literals), true)
      else (conf.Released(conf.candidate), false)
    case Inside(place) =>
      match Step(place, c)
      case Go(next) => (Config(Inside(next), conf.candidate + [c], conf.literals), true)
      case Complete => (conf.Released(""), true)
      case Dead =>
        if place == RefOpen then
          (Config(Open, "[", conf.literals + conf.candidate[..|conf.candidate| - 1]), false)
        else (conf.Released(conf.candidate), false)
  }

  // ---- a move keeps the stripped text -------------------------------------------------------

  lemma {:induction false} ReachThenTail(at: Place, p: string, x: string)
    requires Reach(at, p).Some?
    ensures Tail(at, p + x) == Tail(Reach(at, p).value, x)
    decreases |p|
  {
    if p == "" {
      assert p + x == x;
    } else {
      FirstBeside(p, x);
      ReachThenTail(Step(at, p[0]).place, p[1..], x);
    }
  }

  lemma {:induction false} ReachMore(at: Place, p: string, c: char)
    requires Reach(at, p).Some? && Step(Reach(at, p).value, c).Go?
    ensures Reach(at, p + [c]) == Some(Step(Reach(at, p).value, c).place)
    decreases |p|
  {
    if p == "" {
      assert p + [c] == [c];
      assert [c][1..] == "";
    } else {
      FirstBeside(p, [c]);
      ReachMore(Step(at, p[0]).place, p[1..], c);
    }
  }

  lemma MatchInside(conf: Config, x: string)
    requires conf.Valid() && conf.state.Inside?
    ensures Match(conf.candidate + x) == Tail(conf.state.place, x)
  {
    var p := conf.candidate[2..];
    assert (conf.candidate + x)[2..] == p + x;
    ReachThenTail(RefOpen, p, x);
  }

  lemma {:induction false} StripLiteral(c: char, x: string)
    requires Match([c] + x).None?
    ensures Strip([c] + x) == [c] + Strip(x)
  {
    FirstOf(c, x);
    PiecesOfLiteral([c] + x);
    Cons(Literal(c), Pieces(x));
  }

  /** Text in which no two brackets open together, not even with what follows. */
  ghost predicate NothingOpens(e: string) {
    forall k :: 0 <= k < |e| && e[k] == '[' ==> k + 1 < |e| && e[k + 1] != '['
  }

  lemma {:induction false} LiteralRun(e: string, x: string)
    requires NothingOpens(e)
    ensures Strip(e + x) == e + Strip(x)
    decreases |e|
  {
    if e == "" {
      assert e + x == x && e + Strip(x) == Strip(x);
    } else {
      RestOpensNothing(e);
      LiteralRun(e[1..], x);
      LeadingLiteral(e, x);
    }
  }

  lemma RestOpensNothing(e: string)
    requires e != "" && NothingOpens(e)
    ensures NothingOpens(e[1..]) && (|e| > 1 ==> !OpensMarker(e)) && (|e| == 1 ==> e[0] != '[')
  {
  }

  lemma LeadingLiteral(e: string, x: string)
    requires e != "" && Match(e + x).None? && Strip(e[1..] + x) == e[1..] + Strip(x)
    ensures Strip(e + x) == e + Strip(x)
  {
    FirstBeside(e, x);
    HeadAndRest(e + x);
    StripLiteral(e[0], e[1..] + x);
    HeadAndRest(e);
    Append3([e[0]], e[1..], Strip(x));
  }

  lemma InnerOpensNothing(conf: Config)
    requires conf.Valid() && conf.state.Inside?
    ensures var n := |conf.candidate|;
            if conf.state.place == RefOpen then NothingOpens(conf.candidate[1..n - 1])
            else NothingOpens(conf.candidate[1..])
  {
  }

  /** A candidate that the next character kills is literal text, except that a last bracket may open anew. */
  lemma DeadCandidate(conf: Config, c: char, u: string)
    requires conf.Valid() && conf.state.Inside? && Step(conf.state.place, c) == Dead
    ensures var n := |conf.candidate|;
            Strip(conf.candidate + ([c] + u)) == if conf.state.place == RefOpen
              then conf.candidate[..n - 1] + Strip("[" + ([c] + u))
              else conf.candidate + Strip([c] + u)
  {
    var n, x := |conf.candidate|, [c] + u;
    FirstOf(c, u);
    MatchInside(conf, x);
    InnerOpensNothing(conf);
    if conf.state.place == RefOpen {
      var e := conf.candidate[..n - 1];
      LastApart(conf.candidate, x);
      assert e[1..] == conf.candidate[1..n - 1];
      LiteralRun(e[1..], "[" + x);
      LeadingLiteral(e, "[" + x);
    } else {
      LiteralRun(conf.candidate[1..], x);
      LeadingLiteral(conf.candidate, x);
    }
  }

  lemma LastApart(e: string, x: string)
    requires e != "" && e[|e| - 1] == '['
    ensures e + x == e[..|e| - 1] + ("[" + x)
  {
  }

  lemma CompleteCandidate(conf: Config, c: char, u: string)
    requires conf.Valid() && conf.state.Inside? && Step(conf.state.place, c) == Complete
    ensures Strip(conf.candidate + ([c] + u)) == Strip(u)
  {
    var s := conf.candidate + ([c] + u);
    FirstOf(c, u);
    MatchInside(conf, [c] + u);
    PiecesOfMarker(s, u);
    Cons(Marker(s[2..|s| - |u| - 2]), Pieces(u));
    assert "" + Strip(u) == Strip(u);
  }

  /** What a move releases is the next part of the stripped text, whatever text follows. */
  lemma MoveKeeps(conf: Config, c: char, u: string)
    requires conf.Valid()
    ensures var (next, used) := Move(conf, c);
            && next.Valid() && (!used ==> next.Rank() < conf.Rank())
            && conf.literals + Strip(conf.candidate + ([c] + u))
               == next.literals + Strip(next.candidate + (if used then u else [c] + u))
  {
    MoveIsValid(conf, c);
    var x := [c] + u;
    match conf.state
    case Text =>
      assert conf.candidate + x == x && "" + u == u;
      if c != '[' {
        StripLiteral(c, u);
        Append3(conf.literals, [c], Strip(u));
      }
    case Open =>
      if c == '[' {
        Append3("[", "[", u);
      } else {
        StripLiteral('[', x);
        Append3(conf.literals, "[", Strip(x));
        assert "" + x == x;
      }
    case Inside(place) =>
      var n := |conf.candidate|;
      if Step(place, c).Go? {
        Append3(conf.candidate, [c], u);
      } else if Step(place, c).Complete? {
        CompleteCandidate(conf, c, u);
        assert "" + u == u && conf.literals + "" == conf.literals;
      } else {
        DeadCandidate(conf, c, u);
        if place == RefOpen {
          Append3(conf.literals, conf.candidate[..n - 1], Strip("[" + x));
        } else {
          Append3(conf.literals, conf.candidate, Strip(x));
          assert "" + x == x;
        }
      }
  }

  lemma MoveIsValid(conf: Config, c: char)
    requires conf.Valid()
    ensures Move(conf, c).0.Valid() && (!Move(conf, c).1 ==> Move(conf, c).0.Rank() < conf.Rank())
  {
    if conf.state.Inside? && Step(conf.state.place, c).Go? {
      var longer := conf.candidate + [c];
      assert longer[2..] == conf.candidate[2..] + [c];
      ReachMore(RefOpen, conf.candidate[2..], c);
    } else if conf.state.Open? && c == '[' {
      assert (conf.candidate + [c])[2..] == "";
    }
  }

  /** An unfinished candidate holds no marker. */
  lemma CandidateIsLiteral(conf: Config)
    requires conf.Valid()
    ensures Strip(conf.candidate) == conf.candidate
  {
    var p := conf.candidate;
    if conf.state.Inside? {
      assert p + "" == p;
      MatchInside(conf, "");
      NoOpeningStays(p[1..]);
      assert p[1..] + "" == p[1..];
      LeadingLiteral(p, "");
    } else {
      NoOpeningStays(p);
    }
  }
}
