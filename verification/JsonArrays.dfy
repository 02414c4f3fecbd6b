/** jsonb values, and the rewrites that rename a key inside the elements of an array column. */
module JsonArrays {
  import opened Prelude

  /** Fraction: a number whose text is not a plain integer. */
  datatype Json =
    | Null
    | Bool(flag: bool)
    | Int(number: int)
    | Fraction(digits: string)
    | Str(text: string)
    | Arr(items: seq<Json>)
    | Obj(fields: map<string, Json>)

  /** A nullable jsonb column of one row. */
  type Column = Option<Json>

  /** `jsonb_typeof(elem) = 'object' AND elem ? key` */
  predicate Carries(elem: Json, key: string) {
    elem.Obj? && key in elem.fields
  }

  predicate IsArray(column: Column) {
    column.Some? && column.value.Arr?
  }

  /** The row survives `HAVING bool_or(...)`. */
  predicate Selected(column: Column, key: string) {
    IsArray(column) && exists i :: 0 <= i < |column.value.items| && Carries(column.value.items[i], key)
  }

  /** `(elem - from - to) || {to: elem->from}` */
  function RenameDropping(elem: Json, from: string, to: string): Json {
    if Carries(elem, from) then Obj((elem.fields - {from} - {to}) + map[to := elem.fields[from]]) else elem
  }

  /** `(elem - from) || {to: elem->from}` */
  function Rename(elem: Json, from: string, to: string): Json {
    if Carries(elem, from) then Obj((elem.fields - {from}) + map[to := elem.fields[from]]) else elem
  }

  /** z15's statement on one row. */
  function RenameColumnDropping(column: Column, from: string, to: string): Column {
    if IsArray(column) && column.value.items != [] && Selected(column, from) then
      Some(Arr(seq(|column.value.items|, i requires 0 <= i < |column.value.items| =>
        RenameDropping(column.value.items[i], from, to))))
    else column
  }

  /** x6's statement on one row. */
  function RenameColumn(column: Column, from: string, to: string): Column {
    if Selected(column, from) then
      Some(Arr(seq(|column.value.items|, i requires 0 <= i < |column.value.items| =>
        Rename(column.value.items[i], from, to))))
    else column
  }

  // ---- what both formulas mean ------------------------------------------------------------

  /** after is before with from's value moved to to; every other field as it was. */
  ghost predicate Moves(before: Json, after: Json, from: string, to: string) {
    && after.Obj? && before.Obj? && from in before.fields
    && after.fields.Keys == before.fields.Keys - {from} + {to}
    && after.fields[to] == before.fields[from]
    && forall k :: k in before.fields && k != from && k != to ==> after.fields[k] == before.fields[k]
  }

  /** What a rename makes of a column: length and order stay, objects with the key have it moved, and
      everything else is as it was. Nothing is left open. */
  ghost predicate Renamed(before: Column, after: Column, from: string, to: string) {
    if !IsArray(before) then after == before
    else
      && IsArray(after) && |after.value.items| == |before.value.items|
      && forall i :: 0 <= i < |before.value.items| ==>
           var elem := before.value.items[i];
           if Carries(elem, from) then Moves(elem, after.value.items[i], from, to) else after.value.items[i] == elem
  }

  lemma RenameMoves(elem: Json, from: string, to: string)
    requires Carries(elem, from)
    ensures Moves(elem, Rename(elem, from, to), from, to)
    ensures RenameDropping(elem, from, to) == Rename(elem, from, to)
  {
    var moved := Rename(elem, from, to);
    assert moved.fields.Keys == elem.fields.Keys - {from} + {to};
    assert RenameDropping(elem, from, to).fields == moved.fields;
  }

  /** The two formulas are one function on every column and pair of keys. The result keeps length and
      order, touches only objects carrying the key, and leaves none of those behind. */
  lemma FormsAgree(column: Column, from: string, to: string)
    ensures RenameColumnDropping(column, from, to) == RenameColumn(column, from, to)
    ensures Renamed(column, RenameColumn(column, from, to), from, to)
    ensures from != to ==> !Selected(RenameColumn(column, from, to), from)
  {
    if IsArray(column) {
      var items := column.value.items;
      forall i | 0 <= i < |items| && Carries(items[i], from)
        ensures Moves(items[i], Rename(items[i], from, to), from, to)
        ensures RenameDropping(items[i], from, to) == Rename(items[i], from, to)
      {
        RenameMoves(items[i], from, to);
      }
      if Selected(column, from) {
        var left := RenameColumnDropping(column, from, to).value.items;
        var right := RenameColumn(column, from, to).value.items;
        assert forall i :: 0 <= i < |items| ==> left[i] == right[i];
        assert left == right;
      }
    }
  }

  /** Running the statement again changes nothing. */
  lemma RenameTwice(column: Column, from: string, to: string)
    ensures RenameColumn(RenameColumn(column, from, to), from, to) == RenameColumn(column, from, to)
  {
    FormsAgree(column, from, to);
    if from == to && Selected(column, from) {
      var items := column.value.items;
      forall i | 0 <= i < |items|
        ensures Rename(items[i], from, to) == items[i]
      {
        if Carries(items[i], from) {
          assert Rename(items[i], from, to).fields == items[i].fields;
        }
      }
      assert RenameColumn(column, from, to).value.items == items;
    }
  }

  lemma ElementUndone(elem: Json, from: string, to: string)
    requires from != to
    ensures Rename(Rename(elem, from, to), to, from) == elem <==> !Carries(elem, to)
  {
    if Carries(elem, from) {
      RenameMoves(elem, from, to);
      var there := Rename(elem, from, to);
      RenameMoves(there, to, from);
      var back := Rename(there, to, from);
      if to in elem.fields {
        assert to !in back.fields;
      } else {
        assert back.fields.Keys == elem.fields.Keys;
        assert back.fields == elem.fields;
      }
    } else if Carries(elem, to) {
      RenameMoves(elem, to, from);
      assert to !in Rename(elem, to, from).fields;
    }
  }

  /** The reverse rename restores the column exactly when no object element carried the target key. */
  lemma RenameUndoneIff(column: Column, from: string, to: string)
    requires from != to
    ensures RenameColumn(RenameColumn(column, from, to), to, from) == column <==> !Selected(column, to)
  {
    FormsAgree(column, from, to);
    var there := RenameColumn(column, from, to);
    FormsAgree(there, to, from);
    var back := RenameColumn(there, to, from);
    if IsArray(column) {
      var items := column.value.items;
      forall i | 0 <= i < |items|
        ensures there.value.items[i] == Rename(items[i], from, to)
        ensures back.value.items[i] == Rename(there.value.items[i], to, from)
        ensures back.value.items[i] == items[i] <==> !Carries(items[i], to)
      {
        ElementUndone(items[i], from, to);
      }
      if !Selected(column, to) {
        assert back.value.items == items;
      }
    }
  }
}
