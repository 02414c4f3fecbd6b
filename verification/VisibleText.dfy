/** AnswerVisibleTextFilter: what a reader sees while an answer streams in. */
module VisibleText {
  import opened Prelude
  import opened CitationMarkers
  import opened CitationPieces
  import opened VisibleScan
  import opened SqlText

  // ---- outer white space ------------------------------------------------------------------

  function DropTrailing(s: string): string {
    if s != "" && IsSpace(s[|s| - 1]) then DropTrailing(s[..|s| - 1]) else s
  }

  /** str.strip() */
  function Trim(s: string): string {
    DropTrailing(DropSpaces(s))
  }

  ghost predicate AllSpace(s: string) {
    forall i :: 0 <= i < |s| ==> IsSpace(s[i])
  }

  /** shown is the text up to its last visible character, pending the white space behind that. */
  ghost predicate Trimmed(text: string, shown: string, pending: string) {
    && shown + pending == DropSpaces(text)
    && AllSpace(pending)
    && (shown == "" || !IsSpace(shown[|shown| - 1]))
    && (shown == "" ==> pending == "")
  }

  lemma {:induction false} DropSpacesMore(s: string, x: string)
    ensures DropSpaces(s) != "" ==> DropSpaces(s + x) == DropSpaces(s) + x
    ensures DropSpaces(s) == "" ==> DropSpaces(s + x) == DropSpaces(x)
  {
    if s == "" {
      assert s + x == x;
    } else {
      FirstBeside(s, x);
      if IsSpace(s[0]) {
        DropSpacesMore(s[1..], x);
      }
    }
  }

  lemma {:induction false} DropTrailingSpaces(s: string, pending: string)
    requires AllSpace(pending) && (s == "" || !IsSpace(s[|s| - 1]))
    ensures DropTrailing(s + pending) == s
  {
    if pending == "" {
      assert s + pending == s;
    } else {
      var n := |pending| - 1;
      assert (s + pending)[..|s + pending| - 1] == s + pending[..n];
      DropTrailingSpaces(s, pending[..n]);
    }
  }

  lemma {:induction false} DropTrailingKeeps(s: string, x: string)
    requires s == "" || !IsSpace(s[|s| - 1])
    ensures s <= DropTrailing(s + x)
  {
    if x == "" {
      assert s + x == s;
    } else {
      var n := |x| - 1;
      assert (s + x)[..|s + x| - 1] == s + x[..n];
      DropTrailingKeeps(s, x[..n]);
    }
  }

  lemma OneSpace(c: char)
    ensures DropSpaces([c]) == if IsSpace(c) then "" else [c]
  {
    assert [c][1..] == "";
  }

  lemma AllSpaceMore(pending: string, c: char)
    requires AllSpace(pending) && IsSpace(c)
    ensures AllSpace(pending + [c])
  {
  }

  lemma TrimmedSpace(text: string, shown: string, pending: string, c: char)
    requires Trimmed(text, shown, pending) && IsSpace(c)
    ensures Trimmed(text + [c], shown, if shown == "" then "" else pending + [c])
  {
    DropSpacesMore(text, [c]);
    OneSpace(c);
    AllSpaceMore(pending, c);
    Append3(shown, pending, [c]);
  }

  lemma TrimmedVisible(text: string, shown: string, pending: string, c: char)
    requires Trimmed(text, shown, pending) && !IsSpace(c)
    ensures Trimmed(text + [c], shown + pending + [c], "")
  {
    DropSpacesMore(text, [c]);
    OneSpace(c);
    var longer := shown + pending + [c];
    NothingBehind(longer);
    assert longer[|longer| - 1] == c;
  }

  lemma NothingBehind(s: string)
    ensures s + "" == s && "" + s == s
  {
  }

  lemma TrimmedIsTrim(text: string, shown: string, pending: string)
    requires Trimmed(text, shown, pending)
    ensures Trim(text) == shown
  {
    DropTrailingSpaces(shown, pending);
  }

  /** Nothing shown is ever taken back. */
  lemma ShownStays(text: string, shown: string, pending: string, x: string)
    requires Trimmed(text, shown, pending)
    ensures shown <= Trim(text + x)
  {
    if shown != "" {
      DropSpacesMore(text, x);
      Append3(shown, pending, x);
      DropTrailingKeeps(shown, pending + x);
    }
  }

  // ---- reading a text -----------------------------------------------------------------------

  /** Moves until c is used up. */
  function Feed(conf: Config, c: char): (r: Config)
    requires conf.Valid()
    ensures r.Valid()
    decreases conf.Rank()
  {
    MoveIsValid(conf, c);
    var (next, used) := Move(conf, c);
    if used then next else Feed(next, c)
  }

  function ReadAll(conf: Config, text: string): (r: Config)
    requires conf.Valid()
    ensures r.Valid()
    decreases |text|
  {
    if text == "" then conf else ReadAll(Feed(conf, text[0]), text[1..])
  }

  lemma {:induction false} ReadMore(conf: Config, text: string, more: string)
    requires conf.Valid()
    ensures ReadAll(conf, text + more) == ReadAll(ReadAll(conf, text), more)
    decreases |text|
  {
    if text == "" {
      assert text + more == more;
    } else {
      FirstBeside(text, more);
      ReadMore(Feed(conf, text[0]), text[1..], more);
    }
  }

  /** One move, whether or not it uses up the character, is on the way to the same end. */
  lemma MoveReads(conf: Config, text: string)
    requires conf.Valid() && text != ""
    ensures var (next, used) := Move(conf, text[0]);
            && next.Valid() && (!used ==> next.Rank() < conf.Rank())
            && ReadAll(next, if used then text[1..] else text) == ReadAll(conf, text)
  {
    MoveIsValid(conf, text[0]);
  }

  lemma {:induction false} FeedKeeps(conf: Config, c: char, u: string)
    requires conf.Valid()
    ensures conf.literals + Strip(conf.candidate + ([c] + u))
         == Feed(conf, c).literals + Strip(Feed(conf, c).candidate + u)
    decreases conf.Rank()
  {
    MoveKeeps(conf, c, u);
    var (next, used) := Move(conf, c);
    if !used {
      FeedKeeps(next, c, u);
    }
  }

  /** Whatever follows, the literals released and the candidate carry the stripped text. */
  lemma {:induction false} ReadKeeps(conf: Config, text: string, u: string)
    requires conf.Valid()
    ensures var r := ReadAll(conf, text);
            conf.literals + Strip(conf.candidate + (text + u)) == r.literals + Strip(r.candidate + u)
    decreases |text|
  {
    if text == "" {
      assert text + u == u;
    } else {
      HeadAndRest(text);
      Append3([text[0]], text[1..], u);
      FeedKeeps(conf, text[0], text[1..] + u);
      ReadKeeps(Feed(conf, text[0]), text[1..], u);
    }
  }

  lemma StartKeeps(text: string, u: string)
    ensures START.Valid()
    ensures Strip(text + u) == ReadAll(START, text).literals + Strip(ReadAll(START, text).candidate + u)
  {
    ReadKeeps(START, text, u);
    NothingBehind(text + u);
    NothingBehind(Strip(text + u));
  }

  /** At the end of the text the candidate is literal. */
  lemma EndsLiteral(text: string)
    ensures START.Valid()
    ensures Strip(text) == ReadAll(START, text).literals + ReadAll(START, text).candidate
  {
    StartKeeps(text, "");
    NothingBehind(text);
    NothingBehind(ReadAll(START, text).candidate);
    CandidateIsLiteral(ReadAll(START, text));
  }

  lemma TakeOne(before: string, text: string, n: nat)
    requires n < |text|
    ensures before + text[..n] + [text[n]] == before + text[..n + 1]
  {
    assert text[..n + 1] == text[..n] + [text[n]];
  }

  class AnswerVisibleTextFilter {
    var markerState: MarkerState
    var markerCandidate: string
    var pendingWhitespace: string
    var hasVisibleText: bool
    var finished: bool

    /** All text appended, the literals among it, and all fragments returned. */
    ghost var consumed: string
    ghost var literals: string
    ghost var shown: string

    ghost function Conf(): Config
      reads this
    {
      Config(markerState, markerCandidate, literals)
    }

    ghost predicate Valid()
      reads this
    {
      if finished then shown == Trim(Strip(consumed))
      else
        && Conf() == ReadAll(START, consumed)
        && Trimmed(literals, shown, pendingWhitespace) && hasVisibleText == (shown != "")
    }

    constructor ()
      ensures Valid() && !finished && consumed == "" && shown == ""
    {
      markerState, markerCandidate, pendingWhitespace := Text, "", "";
      hasVisibleText, finished := false, false;
      consumed, literals, shown := "", "", "";
    }

    method AppendCharacter(character: char) returns (visible: string)
      requires Trimmed(literals, shown, pendingWhitespace) && hasVisibleText == (shown != "")
      modifies this`pendingWhitespace, this`hasVisibleText, this`literals, this`shown
      ensures Trimmed(literals, shown, pendingWhitespace) && hasVisibleText == (shown != "")
      ensures literals == old(literals) + [character] && shown == old(shown) + visible
    {
      visible := "";
      if IsSpace(character) {
        TrimmedSpace(literals, shown, pendingWhitespace, character);
        if hasVisibleText {
          pendingWhitespace := pendingWhitespace + [character];
        }
      } else {
        TrimmedVisible(literals, shown, pendingWhitespace, character);
        visible := pendingWhitespace + [character];
        pendingWhitespace := "";
        hasVisibleText := true;
      }
      Append3(shown, old(pendingWhitespace), [character]);
      literals := literals + [character];
      shown := shown + visible;
    }

    method AppendLiteral(text: string) returns (visible: string)
      requires Trimmed(literals, shown, pendingWhitespace) && hasVisibleText == (shown != "")
      modifies this`pendingWhitespace, this`hasVisibleText, this`literals, this`shown
      ensures Trimmed(literals, shown, pendingWhitespace) && hasVisibleText == (shown != "")
      ensures literals == old(literals) + text && shown == old(shown) + visible
    {
      visible := "";
      for n := 0 to |text|
        invariant Trimmed(literals, shown, pendingWhitespace) && hasVisibleText == (shown != "")
        invariant literals == old(literals) + text[..n] && shown == old(shown) + visible
      {
        var more := AppendCharacter(text[n]);
        TakeOne(old(literals), text, n);
        Append3(old(shown), visible, more);
        visible := visible + more;
      }
      assert text[..|text|] == text;
    }

    method ResetMarker()
      modifies this`markerState, this`markerCandidate
      ensures markerState == Text && markerCandidate == ""
    {
      markerState, markerCandidate := Text, "";
    }

    /** The candidate was no marker: it is literal text. */
    method ReleaseCandidate() returns (visible: string)
      requires Trimmed(literals, shown, pendingWhitespace) && hasVisibleText == (shown != "")
      modifies this`markerState, this`markerCandidate, this`pendingWhitespace, this`hasVisibleText
      modifies this`literals, this`shown
      ensures Conf() == old(Conf()).Released(old(markerCandidate))
      ensures Trimmed(literals, shown, pendingWhitespace) && hasVisibleText == (shown != "")
      ensures shown == old(shown) + visible
    {
      visible := AppendLiteral(markerCandidate);
      ResetMarker();
    }

    /** One pass of the loop in `append`: moves on in text, or settles the candidate and looks at the
        same character again. */
    method Advance(text: string, index: nat) returns (next: nat, visible: string)
      requires index < |text| && (markerState.Text? <==> markerCandidate == "")
      requires Trimmed(literals, shown, pendingWhitespace) && hasVisibleText == (shown != "")
      modifies this`markerState, this`markerCandidate, this`pendingWhitespace, this`hasVisibleText
      modifies this`literals, this`shown
      ensures Move(old(Conf()), text[index]) == (Conf(), next == index + 1) && index <= next <= index + 1
      ensures Trimmed(literals, shown, pendingWhitespace) && hasVisibleText == (shown != "")
      ensures shown == old(shown) + visible
    {
      next, visible := index, "";
      var character := text[index];
      assert literals + "" == literals && shown + "" == shown;
      match markerState
      case Text =>
        if character == '[' {
          markerCandidate, markerState := [character], Open;
        } else {
          visible := AppendLiteral([character]);
        }
        next := index + 1;
      case Open =>
        if character == '[' {
          markerCandidate, markerState := markerCandidate + [character], Inside(RefOpen);
          next := index + 1;
        } else {
          visible := ReleaseCandidate();
        }
      case Inside(RefOpen) =>
        if IsDigit(character) {
          markerCandidate, markerState := markerCandidate + [character], Inside(Digits);
          next := index + 1;
        } else {
          visible := AppendLiteral(markerCandidate[..|markerCandidate| - 1]);
          markerCandidate, markerState := "[", Open;
        }
      case Inside(Digits) =>
        if IsDigit(character) {
          markerCandidate := markerCandidate + [character];
          next := index + 1;
        } else if character == ']' {
          markerCandidate, markerState := markerCandidate + [character], Inside(Close);
          next := index + 1;
        } else {
          visible := ReleaseCandidate();
        }
      case Inside(Close) =>
        if character == ']' {
          ResetMarker();
          next := index + 1;
        } else if character == ',' {
          markerCandidate, markerState := markerCandidate + [character], Inside(RefSeparator);
          next := index + 1;
        } else {
          visible := ReleaseCandidate();
        }
      case Inside(RefSeparator) =>
        if IsBlank(character) {
          markerCandidate := markerCandidate + [character];
          next := index + 1;
        } else if character == '[' {
          markerCandidate, markerState := markerCandidate + [character], Inside(RefOpen);
          next := index + 1;
        } else {
          visible := ReleaseCandidate();
        }
    }

    /** The loop of `append`. */
    method Consume(text: string) returns (visible: string)
      requires Conf().Valid()
      requires Trimmed(literals, shown, pendingWhitespace) && hasVisibleText == (shown != "")
      modifies this`markerState, this`markerCandidate, this`pendingWhitespace, this`hasVisibleText
      modifies this`literals, this`shown
      ensures Conf() == ReadAll(old(Conf()), text)
      ensures Trimmed(literals, shown, pendingWhitespace) && hasVisibleText == (shown != "")
      ensures shown == old(shown) + visible
    {
      visible := "";
      var index := 0;
      NothingBehind(shown);
      assert text[0..] == text;
      while index < |text|
        invariant index <= |text|
        invariant Conf().Valid() && ReadAll(Conf(), text[index..]) == ReadAll(old(Conf()), text)
        invariant Trimmed(literals, shown, pendingWhitespace) && hasVisibleText == (shown != "")
        invariant shown == old(shown) + visible
        decreases |text| - index, Conf().Rank()
      {
        var next, fragment := AdvanceIn(text, index);
        Append3(old(shown), visible, fragment);
        index, visible := next, visible + fragment;
      }
      assert text[index..] == "";
    }

    /** One pass keeps what the rest of the text will come to. */
    method AdvanceIn(text: string, index: nat) returns (next: nat, visible: string)
      requires index < |text| && Conf().Valid()
      requires Trimmed(literals, shown, pendingWhitespace) && hasVisibleText == (shown != "")
      modifies this`markerState, this`markerCandidate, this`pendingWhitespace, this`hasVisibleText
      modifies this`literals, this`shown
      ensures index <= next <= index + 1 && Conf().Valid() && (next == index ==> Conf().Rank() < old(Conf()).Rank())
      ensures ReadAll(Conf(), text[next..]) == ReadAll(old(Conf()), text[index..])
      ensures Trimmed(literals, shown, pendingWhitespace) && hasVisibleText == (shown != "")
      ensures shown == old(shown) + visible
    {
      MoveReads(Conf(), text[index..]);
      assert text[index..][0] == text[index] && text[index..][1..] == text[index + 1..];
      next, visible := Advance(text, index);
    }

    /** None: the RuntimeError of a finished filter. */
    method Append(text: string) returns (visible: Option<string>)
      requires Valid()
      modifies this
      ensures Valid() && finished == old(finished)
      ensures visible.None? <==> old(finished)
      ensures consumed == if old(finished) then old(consumed) else old(consumed) + text
      ensures shown == old(shown) + visible.GetOr("")
    {
      if finished {
        NothingBehind(shown);
        return None;
      }
      ReadMore(START, consumed, text);
      consumed := consumed + text;
      var out := Consume(text);
      visible := Some(out);
    }

    /** What has been shown in the end is the stripped text without outer white space. */
    method Finish() returns (visible: string)
      requires Valid()
      modifies this
      ensures Valid() && finished && consumed == old(consumed)
      ensures shown == old(shown) + visible == Trim(Strip(consumed))
      ensures old(finished) ==> visible == ""
    {
      visible := "";
      NothingBehind(shown);
      if finished {
        return;
      }
      EndsLiteral(consumed);
      visible := SettleCandidate();
      TrimmedIsTrim(literals, shown, pendingWhitespace);
      pendingWhitespace := "";
      finished := true;
    }

    /** An unfinished marker is literal text. */
    method SettleCandidate() returns (visible: string)
      requires Trimmed(literals, shown, pendingWhitespace) && hasVisibleText == (shown != "")
      modifies this`markerState, this`markerCandidate, this`pendingWhitespace, this`hasVisibleText
      modifies this`literals, this`shown
      ensures Trimmed(literals, shown, pendingWhitespace)
      ensures literals == old(literals) + old(markerCandidate) && shown == old(shown) + visible
    {
      visible := "";
      NothingBehind(shown);
      NothingBehind(literals);
      if markerCandidate != "" {
        visible := ReleaseCandidate();
      }
    }

    /** What has been shown is a first part of whatever the whole answer will show. */
    lemma NothingTakenBack(rest: string)
      requires Valid() && !finished
      ensures shown <= Trim(Strip(consumed + rest))
    {
      StartKeeps(consumed, rest);
      ShownStays(literals, shown, pendingWhitespace, Strip(markerCandidate + rest));
    }
  }

  function Joined(chunks: seq<string>): string {
    if chunks == [] then "" else Joined(chunks[..|chunks| - 1]) + chunks[|chunks| - 1]
  }

  /** A live draft: every fragment goes through the filter and the visible ones to the reader. However the
      answer is cut into fragments, the reader ends up with the stripped answer without outer white space. */
  method ShowDraft(fragments: seq<string>) returns (deltas: seq<string>)
    ensures Joined(deltas) == Trim(Strip(Joined(fragments)))
    ensures forall i :: 0 <= i < |deltas| ==> deltas[i] != ""
  {
    var filter := new AnswerVisibleTextFilter();
    deltas := [];
    for n := 0 to |fragments|
      invariant fresh(filter) && filter.Valid() && !filter.finished
      invariant filter.consumed == Joined(fragments[..n]) && filter.shown == Joined(deltas)
      invariant forall i :: 0 <= i < |deltas| ==> deltas[i] != ""
    {
      JoinedMore(fragments[..n], fragments[n]);
      assert fragments[..n + 1] == fragments[..n] + [fragments[n]];
      deltas := ShowFragment(filter, deltas, fragments[n]);
    }
    assert fragments[..|fragments|] == fragments;
    var tail := filter.Finish();
    deltas := Report(deltas, tail);
  }

  method ShowFragment(filter: AnswerVisibleTextFilter, deltas: seq<string>, fragment: string) returns (r: seq<string>)
    requires filter.Valid() && !filter.finished && filter.shown == Joined(deltas)
    requires forall i :: 0 <= i < |deltas| ==> deltas[i] != ""
    modifies filter
    ensures filter.Valid() && !filter.finished && filter.shown == Joined(r)
    ensures filter.consumed == old(filter.consumed) + fragment
    ensures forall i :: 0 <= i < |r| ==> r[i] != ""
  {
    var visible := filter.Append(fragment);
    r := Report(deltas, visible.value);
  }

  /** Deltas are sent only when there is something to show. */
  function Report(deltas: seq<string>, visible: string): (r: seq<string>)
    ensures Joined(r) == Joined(deltas) + visible
    ensures (forall i :: 0 <= i < |deltas| ==> deltas[i] != "") ==> forall i :: 0 <= i < |r| ==> r[i] != ""
  {
    JoinedMore(deltas, visible);
    if visible == "" then deltas else deltas + [visible]
  }

  lemma {:induction false} JoinedMore(chunks: seq<string>, x: string)
    ensures Joined(chunks + [x]) == Joined(chunks) + x
    ensures Joined(chunks) + "" == Joined(chunks)
  {
    assert (chunks + [x])[..|chunks|] == chunks;
  }
}
