/** The patterns the gate applies to raw SQL text. */
module SqlText {

  /** What `\s` and str.isspace accept. */
  predicate IsSpace(c: char) {
    || '\t' <= c <= '\r' || '\U{1C}' <= c <= ' '
    || c in {'\U{85}', '\U{A0}', '\U{1680}', '\U{2028}', '\U{2029}', '\U{202F}', '\U{205F}', '\U{3000}'}
    || '\U{2000}' <= c <= '\U{200A}'
  }

  /** What `\w` accepts; outside ASCII everything but white space is taken for a word character. */
  predicate IsWord(c: char) {
    || '0' <= c <= '9' || 'A' <= c <= 'Z' || 'a' <= c <= 'z' || c == '_'
    || (c > '\U{7F}' && !IsSpace(c))
  }

  /** IGNORECASE against an upper-case ASCII letter; the long s folds to S, the two Turkish i to I. */
  predicate SameLetter(c: char, upper: char) {
    || c == upper || c as int == upper as int + 32
    || (upper == 'S' && c == '\U{17F}') || (upper == 'I' && c in {'\U{130}', '\U{131}'})
  }

  predicate StartsWithWord(sql: string, word: string)
  {
    && |sql| >= |word|
    && (forall i :: 0 <= i < |word| ==> SameLetter(sql[i], word[i]))
    && (|sql| == |word| || !IsWord(sql[|word|]))
  }

  /** `\b` word `\b` at position `i`. */
  predicate WordAt(sql: string, i: nat, word: string)
    requires i <= |sql|
  {
    (i == 0 || !IsWord(sql[i - 1])) && StartsWithWord(sql[i..], word)
  }

  predicate HasWordFrom(sql: string, from: nat, word: string) {
    exists i | from <= i < |sql| :: WordAt(sql, i, word)
  }

  /** `\b(DROP|TRUNCATE|DELETE|UPDATE|ALTER)\b|\bINSERT\b[\s\S]*\bSELECT\b` */
  predicate IsDestructive(sql: string) {
    || HasWordFrom(sql, 0, "DROP") || HasWordFrom(sql, 0, "TRUNCATE") || HasWordFrom(sql, 0, "DELETE")
    || HasWordFrom(sql, 0, "UPDATE") || HasWordFrom(sql, 0, "ALTER")
    || exists i | 0 <= i < |sql| :: WordAt(sql, i, "INSERT") && HasWordFrom(sql, i + 6, "SELECT")
  }

  function DropSpaces(s: string): string {
    if s != "" && IsSpace(s[0]) then DropSpaces(s[1..]) else s
  }

  /** It drops white space only, and all of it. */
  lemma {:induction false} DropSpacesMeaning(s: string)
    ensures var r := DropSpaces(s);
            && |r| <= |s| && r == s[|s| - |r|..]
            && (forall i :: 0 <= i < |s| - |r| ==> IsSpace(s[i]))
            && (r == "" || !IsSpace(r[0]))
  {
    if s != "" && IsSpace(s[0]) {
      var u, r := s[1..], DropSpaces(s[1..]);
      DropSpacesMeaning(u);
      assert u[|u| - |r|..] == s[|s| - |r|..];
      forall i | 0 <= i < |s| - |r|
        ensures IsSpace(s[i])
      {
        assert i > 0 ==> s[i] == u[i - 1];
      }
    } else {
      assert s[0..] == s;
    }
  }

  /** `^\s*(SET|COMMENT)\b` */
  predicate StartsAllowed(sql: string) {
    var rest := DropSpaces(sql);
    StartsWithWord(rest, "SET") || StartsWithWord(rest, "COMMENT")
  }

  /** `;\s*\S` somewhere: a semicolon, white space, then something else. */
  predicate HasSecondStatement(sql: string) {
    sql != "" && ((sql[0] == ';' && DropSpaces(sql[1..]) != "") || HasSecondStatement(sql[1..]))
  }

  predicate IsAllowlistedSql(sql: string) {
    StartsAllowed(sql) && !HasSecondStatement(sql)
  }

  /** White space, then SET or COMMENT in any case as a word of its own, and nothing but white space after
      a semicolon. */
  ghost predicate IsSetOrComment(sql: string) {
    && (exists i | 0 <= i <= |sql| ::
          && (forall k :: 0 <= k < i ==> IsSpace(sql[k]))
          && (IsWordAt(sql, i, "SET") || IsWordAt(sql, i, "COMMENT")))
    && (forall i, k :: 0 <= i < k < |sql| && sql[i] == ';' ==> IsSpace(sql[k]))
  }

  ghost predicate IsWordAt(sql: string, i: nat, word: string) {
    && i + |word| <= |sql|
    && (forall k :: 0 <= k < |word| ==> SameLetter(sql[i + k], word[k]))
    && (i + |word| == |sql| || !IsWord(sql[i + |word|]))
  }

  /** The texts that pass are exactly these. */
  lemma AllowlistedMeans(sql: string)
    ensures IsAllowlistedSql(sql) <==> IsSetOrComment(sql)
  {
    SingleStatement(sql);
    DropSpacesMeaning(sql);
    var rest := DropSpaces(sql);
    var n := |sql| - |rest|;
    StartsIsWordAt(sql, n, "SET");
    StartsIsWordAt(sql, n, "COMMENT");
    if i :| 0 <= i <= |sql| && (forall k :: 0 <= k < i ==> IsSpace(sql[k]))
            && (IsWordAt(sql, i, "SET") || IsWordAt(sql, i, "COMMENT")) {
      assert SameLetter(sql[i + 0], 'S') || SameLetter(sql[i + 0], 'C');
      LettersAreNoSpace(sql[i]);
      assert rest != "" ==> sql[n] == rest[0];
      assert i == n;
    }
  }

  lemma StartsIsWordAt(sql: string, i: nat, word: string)
    requires i <= |sql|
    ensures StartsWithWord(sql[i..], word) <==> IsWordAt(sql, i, word)
  {
  }

  lemma LettersAreNoSpace(c: char)
    ensures SameLetter(c, 'S') || SameLetter(c, 'C') ==> !IsSpace(c)
  {
  }

  /** The gate's "single statement" test is exact: it passes the texts in which only white space
      follows a semicolon. So at most one semicolon gets through, with nothing after it. */
  lemma {:induction false} SingleStatement(sql: string)
    ensures !HasSecondStatement(sql) <==>
      (forall i, k :: 0 <= i < k < |sql| && sql[i] == ';' ==> IsSpace(sql[k]))
    ensures !HasSecondStatement(sql) ==>
      (forall i, k :: 0 <= i < k < |sql| && sql[i] == ';' ==> sql[k] != ';')
  {
    if sql != "" {
      var tail := sql[1..];
      SingleStatement(tail);
      var rest := DropSpaces(tail);
      DropSpacesMeaning(tail);
      if HasSecondStatement(tail) {
        var i, k :| 0 <= i < k < |tail| && tail[i] == ';' && !IsSpace(tail[k]);
        assert sql[i + 1] == ';' && sql[k + 1] == tail[k];
      } else if sql[0] == ';' && rest != "" {
        assert sql[1 + |tail| - |rest|] == rest[0];
      } else {
        forall i, k | 0 <= i < k < |sql| && sql[i] == ';'
          ensures IsSpace(sql[k])
        {
          if i > 0 {
            assert tail[i - 1] == ';' && tail[k - 1] == sql[k];
          } else {
            assert IsSpace(tail[k - 1]);
          }
        }
      }
    }
  }
}
