/** w4: briefing key_articles move from article ids to assessment ids, and back. */
module ArticleIdRemap {
  import opened Prelude
  import opened JsonArrays

  /** article_curations: id -> article_id; in_scope_assessments: id -> curation_id. */
  datatype Ids = Ids(curations: map<int, int>, assessments: map<int, int>)

  predicate IsInt4(n: int) {
    -0x8000_0000 <= n < 0x8000_0000
  }

  /** Both references are UNIQUE, and every column is a 32-bit integer. */
  ghost predicate Keyed(ids: Ids) {
    && (forall c, d :: c in ids.curations && d in ids.curations && ids.curations[c] == ids.curations[d] ==> c == d)
    && (forall s, t :: s in ids.assessments && t in ids.assessments && ids.assessments[s] == ids.assessments[t] ==>
          s == t)
    && (forall c <- ids.curations :: IsInt4(ids.curations[c]))
    && (forall s <- ids.assessments :: IsInt4(s))
  }

  /** The joined rows: assessment s belongs to the article. */
  predicate Joined(ids: Ids, s: int, article: int) {
    s in ids.assessments && ids.assessments[s] in ids.curations && ids.curations[ids.assessments[s]] == article
  }

  datatype Direction = Upgrade | Downgrade {
    function From(): string { if Upgrade? then "article_id" else "assessment_id" }
    function To(): string { if Upgrade? then "assessment_id" else "article_id" }
    function Back(): Direction { if Upgrade? then Downgrade else Upgrade }
  }

  lemma KeysDiffer(dir: Direction)
    ensures dir.From() != dir.To()
  {
    assert "article_id"[1] == 'r' && "assessment_id"[1] == 's';
  }

  /** The correlated subquery for an id. */
  function Lookup(dir: Direction, ids: Ids, n: int): (r: Option<int>)
    requires Keyed(ids)
    ensures dir.Upgrade? ==>
      (if r.Some? then Joined(ids, r.value, n) else forall s <- ids.assessments :: !Joined(ids, s, n))
    ensures dir.Downgrade? ==> (if r.Some? then Joined(ids, n, r.value) else forall a :: !Joined(ids, n, a))
  {
    if dir.Upgrade? then
      if s :| s in ids.assessments && Joined(ids, s, n) then Some(s) else None
    else if n in ids.assessments && ids.assessments[n] in ids.curations then Some(ids.curations[ids.assessments[n]])
    else None
  }

  /** How the server reads a JSON string as a whole number, None for a syntax error. */
  type Reader = string -> Option<int>

  datatype Resolution = Found(id: int) | Missing | CastError

  /** `(elem->>key)::int` handed to the subquery; a JSON null gives SQL NULL, which matches no row. */
  function Resolve(dir: Direction, ids: Ids, reader: Reader, v: Json): Resolution
    requires Keyed(ids)
  {
    var n := if v.Int? then Some(v.number) else if v.Str? then reader(v.text) else None;
    if v.Null? then Missing
    else if n.None? || !IsInt4(n.value) then CastError
    else match Lookup(dir, ids, n.value) case Some(m) => Found(m) case None => Missing
  }

  /** The cast fails exactly on what is neither null nor a whole number of four bytes, written as a number or as
      a text. */
  lemma CastErrorIff(dir: Direction, ids: Ids, reader: Reader, v: Json)
    requires Keyed(ids)
    ensures Resolve(dir, ids, reader, v) == CastError <==>
      !v.Null? && !exists n :: -2147483648 <= n <= 2147483647 && (v == Int(n) || (v.Str? && reader(v.text) == Some(n)))
  {
    if Resolve(dir, ids, reader, v) != CastError && !v.Null? {
      var n := if v.Int? then v.number else reader(v.text).value;
      assert -2147483648 <= n <= 2147483647 && (v == Int(n) || (v.Str? && reader(v.text) == Some(n)));
    }
  }

  /** `(elem - from) || {to: (subquery)}`; no row makes it a JSON null. */
  function RemapElement(dir: Direction, ids: Ids, reader: Reader, elem: Json): Json
    requires Keyed(ids)
  {
    if !Carries(elem, dir.From()) then elem
    else
      var found := Resolve(dir, ids, reader, elem.fields[dir.From()]);
      Obj((elem.fields - {dir.From()}) + map[dir.To() := if found.Found? then Int(found.id) else Null])
  }

  /** The statement on one row, with its guards. */
  function RemapColumn(dir: Direction, ids: Ids, reader: Reader, column: Column): Column
    requires Keyed(ids)
  {
    if IsArray(column) && column.value.items != [] && Selected(column, dir.From()) then
      Some(Arr(seq(|column.value.items|, i requires 0 <= i < |column.value.items| =>
        RemapElement(dir, ids, reader, column.value.items[i]))))
    else column
  }

  type Rows = map<int, Column>

  function RemapRows(dir: Direction, ids: Ids, reader: Reader, rows: Rows): Rows
    requires Keyed(ids)
  {
    map b <- rows :: RemapColumn(dir, ids, reader, rows[b])
  }

  /** Some element of the row's array carries the key with this outcome. */
  predicate Meets(dir: Direction, ids: Ids, reader: Reader, column: Column, i: nat, outcome: Resolution)
    requires Keyed(ids)
  {
    && IsArray(column) && i < |column.value.items| && Carries(column.value.items[i], dir.From())
    && Resolve(dir, ids, reader, column.value.items[i].fields[dir.From()]) == outcome
  }

  predicate SomeCastFails(dir: Direction, ids: Ids, reader: Reader, rows: Rows)
    requires Keyed(ids)
  {
    exists b, i :: b in rows && IsArray(rows[b]) && 0 <= i < |rows[b].value.items|
                   && Meets(dir, ids, reader, rows[b], i, CastError)
  }

  predicate AllFound(dir: Direction, ids: Ids, reader: Reader, rows: Rows)
    requires Keyed(ids)
  {
    forall b <- rows :: IsArray(rows[b]) ==>
      forall i :: 0 <= i < |rows[b].value.items| && Carries(rows[b].value.items[i], dir.From()) ==>
        Resolve(dir, ids, reader, rows[b].value.items[i].fields[dir.From()]).Found?
  }

  // ---- what the remap does to a row -------------------------------------------------------

  /** after is before with its id replaced, by JSON null if no row matches; every other field as it was. */
  ghost predicate Replaced(dir: Direction, ids: Ids, reader: Reader, before: Json, after: Json)
    requires Keyed(ids)
  {
    && Carries(before, dir.From()) && after.Obj?
    && after.fields.Keys == before.fields.Keys - {dir.From()} + {dir.To()}
    && after.fields[dir.To()] == (match Resolve(dir, ids, reader, before.fields[dir.From()])
                                  case Found(n) => Int(n)
                                  case _ => Null)
    && forall k :: k in before.fields && k != dir.From() && k != dir.To() ==> after.fields[k] == before.fields[k]
  }

  /** Length and order stay, and so does every element that does not carry the key. */
  ghost predicate Remapped(dir: Direction, ids: Ids, reader: Reader, before: Column, after: Column)
    requires Keyed(ids)
  {
    if !IsArray(before) then after == before
    else
      && IsArray(after) && |after.value.items| == |before.value.items|
      && forall i :: 0 <= i < |before.value.items| ==>
           var elem := before.value.items[i];
           if Carries(elem, dir.From()) then Replaced(dir, ids, reader, elem, after.value.items[i])
           else after.value.items[i] == elem
  }

  lemma ElementReplaced(dir: Direction, ids: Ids, reader: Reader, elem: Json)
    requires Keyed(ids) && Carries(elem, dir.From())
    ensures Replaced(dir, ids, reader, elem, RemapElement(dir, ids, reader, elem))
  {
    KeysDiffer(dir);
    var after := RemapElement(dir, ids, reader, elem);
    assert after.fields.Keys == elem.fields.Keys - {dir.From()} + {dir.To()};
  }

  /** With or without the guards of the statement, every element of an array is treated on its own. */
  lemma ByElement(dir: Direction, ids: Ids, reader: Reader, column: Column)
    requires Keyed(ids)
    ensures !IsArray(column) ==> RemapColumn(dir, ids, reader, column) == column
    ensures IsArray(column) ==>
              var after := RemapColumn(dir, ids, reader, column);
              && IsArray(after) && |after.value.items| == |column.value.items|
              && forall i :: 0 <= i < |column.value.items| ==>
                   after.value.items[i] == RemapElement(dir, ids, reader, column.value.items[i])
  {
  }

  lemma RowRemapped(dir: Direction, ids: Ids, reader: Reader, column: Column)
    requires Keyed(ids)
    ensures Remapped(dir, ids, reader, column, RemapColumn(dir, ids, reader, column))
  {
    ByElement(dir, ids, reader, column);
    if IsArray(column) {
      var items := column.value.items;
      forall i | 0 <= i < |items| && Carries(items[i], dir.From())
        ensures Replaced(dir, ids, reader, items[i], RemapElement(dir, ids, reader, items[i]))
      {
        ElementReplaced(dir, ids, reader, items[i]);
      }
    }
  }

  // ---- the migration ----------------------------------------------------------------------

  datatype Outcome = Done | Aborted(unresolved: nat) | DatabaseError

  class Briefings {
    const ids: Ids
    const reader: Reader
    var rows: Rows

    constructor (ids: Ids, reader: Reader, rows: Rows)
      ensures this.ids == ids && this.reader == reader && this.rows == rows
    {
      this.ids, this.reader, this.rows := ids, reader, rows;
    }

    /** The count of `_unresolved_count_sql`, None when a cast fails. */
    function Unresolved(dir: Direction): Option<nat>
      requires Keyed(ids)
      reads this
    {
      if SomeCastFails(dir, ids, reader, rows) then None
      else Some(|set b, i | b in rows && IsArray(rows[b]) && 0 <= i < |rows[b].value.items|
                            && Meets(dir, ids, reader, rows[b], i, Missing) :: (b, i)|)
    }

    lemma UnresolvedIsZeroIff(dir: Direction)
      requires Keyed(ids) && !SomeCastFails(dir, ids, reader, rows)
      ensures Unresolved(dir) == Some(0) <==> AllFound(dir, ids, reader, rows)
    {
      var missing := set b, i | b in rows && IsArray(rows[b]) && 0 <= i < |rows[b].value.items|
                                && Meets(dir, ids, reader, rows[b], i, Missing) :: (b, i);
      if AllFound(dir, ids, reader, rows) {
        assert forall p <- missing :: false;
        assert missing == {};
      } else {
        var b, i :| b in rows && IsArray(rows[b]) && 0 <= i < |rows[b].value.items|
                    && Carries(rows[b].value.items[i], dir.From())
                    && !Resolve(dir, ids, reader, rows[b].value.items[i].fields[dir.From()]).Found?;
        assert !Meets(dir, ids, reader, rows[b], i, CastError);
        assert (b, i) in missing;
      }
    }

    /** `_guard_unresolved`, which raises unless the count is zero. */
    method GuardUnresolved(dir: Direction) returns (outcome: Outcome)
      requires Keyed(ids)
      ensures outcome == DatabaseError <==> SomeCastFails(dir, ids, reader, rows)
      ensures outcome == Done <==> AllFound(dir, ids, reader, rows)
      ensures outcome.Aborted? ==> outcome.unresolved > 0
    {
      var count := Unresolved(dir);
      if count.None? {
        return DatabaseError;
      }
      UnresolvedIsZeroIff(dir);
      outcome := if count.value != 0 then Aborted(count.value) else Done;
    }

    /** The UPDATE of `_remap_sql`. */
    method Remap(dir: Direction) returns (failed: bool)
      requires Keyed(ids)
      modifies this
      ensures failed <==> SomeCastFails(dir, ids, reader, old(rows))
      ensures rows == if failed then old(rows) else RemapRows(dir, ids, reader, old(rows))
      // Each row is rewritten on its own; without the guard a null is written exactly where no row matches.
      ensures !failed ==> rows.Keys == old(rows).Keys
                          && forall b <- old(rows) :: Remapped(dir, ids, reader, old(rows)[b], rows[b])
    {
      failed := SomeCastFails(dir, ids, reader, rows);
      if !failed {
        forall b | b in rows
          ensures Remapped(dir, ids, reader, rows[b], RemapColumn(dir, ids, reader, rows[b]))
        {
          RowRemapped(dir, ids, reader, rows[b]);
        }
        rows := RemapRows(dir, ids, reader, rows);
      }
    }

    /** `upgrade` and `downgrade`. */
    method Migrate(dir: Direction) returns (outcome: Outcome)
      requires Keyed(ids)
      modifies this
      ensures outcome == Done <==> AllFound(dir, ids, reader, old(rows))
      ensures outcome == DatabaseError <==> SomeCastFails(dir, ids, reader, old(rows))
      ensures rows == if outcome.Done? then RemapRows(dir, ids, reader, old(rows)) else old(rows)
    {
      outcome := GuardUnresolved(dir);
      if outcome.Done? {
        var failed := Remap(dir);
        assert !failed;
      }
    }
  }

  // ---- past the guard ---------------------------------------------------------------------

  /** after is before with its id translated; every other field as it was. */
  ghost predicate Translated(dir: Direction, ids: Ids, reader: Reader, before: Json, after: Json)
    requires Keyed(ids)
  {
    && Carries(before, dir.From()) && after.Obj?
    && after.fields.Keys == before.fields.Keys - {dir.From()} + {dir.To()}
    && Resolve(dir, ids, reader, before.fields[dir.From()]).Found?
    && after.fields[dir.To()] == Int(Resolve(dir, ids, reader, before.fields[dir.From()]).id)
    && forall k :: k in before.fields && k != dir.From() && k != dir.To() ==> after.fields[k] == before.fields[k]
  }

  /** Past the guard: length and order stay, elements without the key stay, every other one gets a real id
      in place of the old one, and never a null. */
  lemma GuardedRemap(dir: Direction, ids: Ids, reader: Reader, rows: Rows, b: int)
    requires Keyed(ids) && AllFound(dir, ids, reader, rows) && b in rows
    ensures !IsArray(rows[b]) ==> RemapRows(dir, ids, reader, rows)[b] == rows[b]
    ensures IsArray(rows[b]) ==>
              var before, after := rows[b].value, RemapRows(dir, ids, reader, rows)[b];
              && IsArray(after) && |after.value.items| == |before.items|
              && forall i :: 0 <= i < |before.items| ==>
                   if Carries(before.items[i], dir.From())
                   then Translated(dir, ids, reader, before.items[i], after.value.items[i])
                   else after.value.items[i] == before.items[i]
  {
    RowRemapped(dir, ids, reader, rows[b]);
  }

  /** A second run passes the guard and changes nothing, whatever the first one met. */
  lemma SecondRunIsIdle(dir: Direction, ids: Ids, reader: Reader, rows: Rows)
    requires Keyed(ids)
    ensures AllFound(dir, ids, reader, RemapRows(dir, ids, reader, rows))
    ensures RemapRows(dir, ids, reader, RemapRows(dir, ids, reader, rows)) == RemapRows(dir, ids, reader, rows)
  {
    KeysDiffer(dir);
    var after := RemapRows(dir, ids, reader, rows);
    forall b | b in rows
      ensures !Selected(after[b], dir.From()) && RemapColumn(dir, ids, reader, after[b]) == after[b]
    {
      ByElement(dir, ids, reader, rows[b]);
    }
    var again := RemapRows(dir, ids, reader, after);
    assert forall b <- after :: again[b] == after[b];
    assert again == after;
  }

  /** The two directions look up inverse relations. */
  lemma LookupBack(dir: Direction, ids: Ids, n: int)
    requires Keyed(ids)
    ensures Lookup(dir, ids, n).Some? ==>
              IsInt4(Lookup(dir, ids, n).value) && Lookup(dir.Back(), ids, Lookup(dir, ids, n).value) == Some(n)
  {
    if Lookup(dir, ids, n).Some? {
      var m := Lookup(dir, ids, n).value;
      if dir.Upgrade? {
        assert m in ids.assessments && IsInt4(m);
      } else {
        var c := ids.assessments[n];
        assert c in ids.curations && ids.curations[c] == m;
      }
    }
  }

  /** What the way back restores: no target key beforehand, and ids that are JSON integers. */
  predicate Restorable(dir: Direction, elem: Json) {
    elem.Obj? ==> dir.To() !in elem.fields && (dir.From() in elem.fields ==> elem.fields[dir.From()].Int?)
  }

  lemma ElementBackIff(dir: Direction, ids: Ids, reader: Reader, elem: Json)
    requires Keyed(ids)
    requires Carries(elem, dir.From()) ==> Resolve(dir, ids, reader, elem.fields[dir.From()]).Found?
    ensures var there := RemapElement(dir, ids, reader, elem);
            var back := dir.Back();
            (&& (Carries(there, back.From()) ==> Resolve(back, ids, reader, there.fields[back.From()]).Found?)
             && RemapElement(back, ids, reader, there) == elem)
            <==> Restorable(dir, elem)
  {
    KeysDiffer(dir);
    var from, to := dir.From(), dir.To();
    var there := RemapElement(dir, ids, reader, elem);
    var home := RemapElement(dir.Back(), ids, reader, there);
    if Carries(elem, from) {
      var id := Resolve(dir, ids, reader, elem.fields[from]).id;
      assert there.fields[to] == Int(id);
      assert exists n :: Lookup(dir, ids, n) == Some(id) && (elem.fields[from].Int? ==> elem.fields[from] == Int(n));
      var n :| Lookup(dir, ids, n) == Some(id) && (elem.fields[from].Int? ==> elem.fields[from] == Int(n));
      LookupBack(dir, ids, n);
      assert Resolve(dir.Back(), ids, reader, there.fields[to]) == Found(n);
      assert home.fields[from] == Int(n);
      if Restorable(dir, elem) {
        assert home.fields.Keys == elem.fields.Keys;
        assert home.fields == elem.fields;
      } else if to in elem.fields {
        assert to !in home.fields;
      }
    } else if Carries(elem, to) {
      assert there == elem && to !in home.fields;
    }
  }

  /** After a completed upgrade the downgrade completes and restores the table exactly when no object
      carried the target key and every remapped id was a JSON integer (and the same the other way round). */
  lemma UndoneIff(dir: Direction, ids: Ids, reader: Reader, rows: Rows)
    requires Keyed(ids) && AllFound(dir, ids, reader, rows)
    ensures (&& AllFound(dir.Back(), ids, reader, RemapRows(dir, ids, reader, rows))
             && RemapRows(dir.Back(), ids, reader, RemapRows(dir, ids, reader, rows)) == rows)
       <==> forall b <- rows :: IsArray(rows[b]) ==>
              forall i :: 0 <= i < |rows[b].value.items| ==> Restorable(dir, rows[b].value.items[i])
  {
    var there := RemapRows(dir, ids, reader, rows);
    var home := RemapRows(dir.Back(), ids, reader, there);
    forall b | b in rows
      ensures IsArray(there[b]) == IsArray(home[b]) == IsArray(rows[b])
      ensures !IsArray(rows[b]) ==> home[b] == rows[b]
      ensures IsArray(rows[b]) ==> |there[b].value.items| == |home[b].value.items| == |rows[b].value.items|
      ensures IsArray(rows[b]) ==> forall i :: 0 <= i < |rows[b].value.items| ==>
                && there[b].value.items[i] == RemapElement(dir, ids, reader, rows[b].value.items[i])
                && home[b].value.items[i] == RemapElement(dir.Back(), ids, reader, there[b].value.items[i])
    {
      ByElement(dir, ids, reader, rows[b]);
      ByElement(dir.Back(), ids, reader, there[b]);
    }
    forall b, i | b in rows && IsArray(rows[b]) && 0 <= i < |rows[b].value.items|
      ensures (&& (Carries(there[b].value.items[i], dir.To()) ==>
                     Resolve(dir.Back(), ids, reader, there[b].value.items[i].fields[dir.To()]).Found?)
               && home[b].value.items[i] == rows[b].value.items[i])
              <==> Restorable(dir, rows[b].value.items[i])
    {
      ElementBackIff(dir, ids, reader, rows[b].value.items[i]);
    }
    if forall b <- rows :: IsArray(rows[b]) ==>
         forall i :: 0 <= i < |rows[b].value.items| ==> home[b].value.items[i] == rows[b].value.items[i]
    {
      forall b | b in rows
        ensures home[b] == rows[b]
      {
        if IsArray(rows[b]) {
          assert home[b].value.items == rows[b].value.items;
        }
      }
      assert home == rows;
    }
  }
}
