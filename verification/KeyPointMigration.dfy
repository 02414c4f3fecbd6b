/** z15: events[].description becomes key_points[].content, and the audit codes follow. */
module KeyPointMigration {
  import opened Prelude
  import opened JsonArrays

  /** Columns by name, each a value per row id. */
  type Table = map<string, map<int, Column>>

  type Tables = map<string, Table>

  type Code = Option<string>

  type Renames = seq<(string, string)>

  const TABLES := ["in_scope_assessments", "out_of_scope_assessments"]

  const OUTCOME_CODE_RENAMES: Renames := [
    ("assessment_response_events_key_missing", "assessment_response_key_points_key_missing"),
    ("assessment_response_events_wrong_type", "assessment_response_key_points_wrong_type"),
    ("assessment_response_events_too_many", "assessment_response_key_points_too_many"),
    ("assessment_response_event_invalid", "assessment_response_key_point_invalid")
  ]

  function Swapped(renames: Renames): Renames {
    seq(|renames|, k requires 0 <= k < |renames| => (renames[k].1, renames[k].0))
  }

  // ---- what the two directions amount to --------------------------------------------------

  function RenameInner(rows: map<int, Column>, from: string, to: string): map<int, Column> {
    map i <- rows :: RenameColumnDropping(rows[i], from, to)
  }

  ghost predicate RowsRenamed(before: map<int, Column>, after: map<int, Column>, from: string, to: string) {
    after.Keys == before.Keys && forall i <- before :: Renamed(before[i], after[i], from, to)
  }

  lemma InnerIsRenamed(rows: map<int, Column>, from: string, to: string)
    ensures RowsRenamed(rows, RenameInner(rows, from, to), from, to)
  {
    forall i | i in rows
      ensures Renamed(rows[i], RenameColumnDropping(rows[i], from, to), from, to)
    {
      FormsAgree(rows[i], from, to);
    }
  }

  /** Whether the table is in the shape the direction starts from. */
  predicate Ready(table: Table, column: string, renamed: string) {
    column in table && renamed !in table
  }

  function UpgradedTable(table: Table): Table
    requires Ready(table, "events", "key_points")
  {
    (table - {"events"})["key_points" := RenameInner(table["events"], "description", "content")]
  }

  function DowngradedTable(table: Table): Table
    requires Ready(table, "key_points", "events")
  {
    (table - {"key_points"})["events" := RenameInner(table["key_points"], "content", "description")]
  }

  predicate AllReady(tables: Tables, column: string, renamed: string) {
    forall name <- TABLES :: name in tables && Ready(tables[name], column, renamed)
  }

  function UpgradedTables(tables: Tables): Tables
    requires AllReady(tables, "events", "key_points")
  {
    map name <- tables :: if name in TABLES then UpgradedTable(tables[name]) else tables[name]
  }

  function DowngradedTables(tables: Tables): Tables
    requires AllReady(tables, "key_points", "events")
  {
    map name <- tables :: if name in TABLES then DowngradedTable(tables[name]) else tables[name]
  }

  /** All renames at once: no renamed code is looked at again. */
  function Recode(code: Code, renames: Renames): (r: Code)
    ensures (forall k :: 0 <= k < |renames| ==> code != Some(renames[k].0)) ==> r == code
  {
    if renames == [] then code
    else if code == Some(renames[0].0) then Some(renames[0].1)
    else Recode(code, renames[1..])
  }

  function RecodeAll(codes: map<int, Code>, renames: Renames): map<int, Code> {
    map i <- codes :: Recode(codes[i], renames)
  }

  lemma RecodeNothing(codes: map<int, Code>)
    ensures RecodeAll(codes, []) == codes
  {
    forall i | i in codes
      ensures RecodeAll(codes, [])[i] == codes[i]
    {
      assert Recode(codes[i], []) == codes[i];
    }
  }

  /** Old codes are distinct, new codes are distinct, and no code is both. */
  ghost predicate Separate(renames: Renames) {
    forall j, k :: 0 <= j < |renames| && 0 <= k < |renames| ==>
      && renames[j].0 != renames[k].1
      && (j != k ==> renames[j].0 != renames[k].0 && renames[j].1 != renames[k].1)
  }

  lemma {:induction false} RecodeAt(renames: Renames, k: nat)
    requires k < |renames| && Separate(renames)
    ensures Recode(Some(renames[k].0), renames) == Some(renames[k].1)
  {
    if k > 0 {
      RecodeAt(renames[1..], k - 1);
    }
  }

  /** One more UPDATE after the first n is the same as n + 1 renames at once. */
  lemma {:induction false} RecodeStep(code: Code, renames: Renames, n: nat)
    requires n < |renames| && Separate(renames)
    ensures Recode(code, renames[..n + 1])
         == if Recode(code, renames[..n]) == Some(renames[n].0) then Some(renames[n].1)
            else Recode(code, renames[..n])
  {
    var before, upTo := renames[..n], renames[..n + 1];
    if k :| 0 <= k < |before| && code == Some(before[k].0) {
      RecodeAt(before, k);
      RecodeAt(upTo, k);
    } else if code == Some(renames[n].0) {
      RecodeAt(upTo, n);
    } else {
      assert forall k :: 0 <= k < |upTo| ==> k == n || upTo[k] == before[k];
    }
  }

  // ---- the migration ----------------------------------------------------------------------

  class Database {
    var tables: Tables
    var outcomeCodes: map<int, Code>

    constructor (tables: Tables, outcomeCodes: map<int, Code>)
      ensures this.tables == tables && this.outcomeCodes == outcomeCodes
    {
      this.tables, this.outcomeCodes := tables, outcomeCodes;
    }

    /** The UPDATE of `_rename_inner_key_sql`; it names the column events. */
    method RenameInnerKey(name: string, from: string, to: string) returns (ok: bool)
      modifies this`tables
      ensures ok <==> name in old(tables) && "events" in old(tables)[name]
      ensures tables == if !ok then old(tables)
                        else var table := old(tables)[name];
                          old(tables)[name := table["events" := RenameInner(table["events"], from, to)]]
      // Every row is renamed in place, and no other row, column or table changes.
      ensures ok ==> RowsRenamed(old(tables)[name]["events"], tables[name]["events"], from, to)
    {
      ok := name in tables && "events" in tables[name];
      if ok {
        var table := tables[name];
        InnerIsRenamed(table["events"], from, to);
        tables := tables[name := table["events" := RenameInner(table["events"], from, to)]];
      }
    }

    method AlterColumn(name: string, column: string, renamed: string) returns (ok: bool)
      modifies this`tables
      ensures ok <==> name in old(tables) && Ready(old(tables)[name], column, renamed)
      ensures tables == if !ok then old(tables)
                        else var table := old(tables)[name];
                          old(tables)[name := (table - {column})[renamed := table[column]]]
    {
      ok := name in tables && column in tables[name] && renamed !in tables[name];
      if ok {
        var table := tables[name];
        tables := tables[name := (table - {column})[renamed := table[column]]];
      }
    }

    method UpgradeTable(name: string) returns (ok: bool)
      modifies this`tables
      ensures ok <==> name in old(tables) && Ready(old(tables)[name], "events", "key_points")
      ensures ok ==> tables == old(tables)[name := UpgradedTable(old(tables)[name])]
    {
      KeysDiffer();
      ok := RenameInnerKey(name, "description", "content");
      if ok {
        ok := AlterColumn(name, "events", "key_points");
        if ok {
          assert tables[name] == UpgradedTable(old(tables)[name]);
        }
      }
    }

    method DowngradeTable(name: string) returns (ok: bool)
      modifies this`tables
      ensures ok <==> name in old(tables) && Ready(old(tables)[name], "key_points", "events")
      ensures ok ==> tables == old(tables)[name := DowngradedTable(old(tables)[name])]
    {
      KeysDiffer();
      ok := AlterColumn(name, "key_points", "events");
      if ok {
        ok := RenameInnerKey(name, "content", "description");
        assert tables[name] == DowngradedTable(old(tables)[name]);
      }
    }

    method RewriteOutcomeCode(was: string, becomes: string)
      modifies this`outcomeCodes
      ensures outcomeCodes == map i | i in old(outcomeCodes) ::
                                if old(outcomeCodes)[i] == Some(was) then Some(becomes) else old(outcomeCodes)[i]
    {
      outcomeCodes := map i | i in outcomeCodes ::
        if outcomeCodes[i] == Some(was) then Some(becomes) else outcomeCodes[i];
    }

    method RewriteOutcomeCodes(renames: Renames)
      requires Separate(renames)
      modifies this`outcomeCodes
      ensures outcomeCodes == RecodeAll(old(outcomeCodes), renames)
    {
      assert renames[..0] == [] && RecodeAll(outcomeCodes, []) == outcomeCodes by {
        RecodeNothing(outcomeCodes);
      }
      for n := 0 to |renames|
        invariant outcomeCodes == RecodeAll(old(outcomeCodes), renames[..n])
      {
        RewriteOutcomeCode(renames[n].0, renames[n].1);
        forall i | i in old(outcomeCodes)
          ensures outcomeCodes[i] == Recode(old(outcomeCodes)[i], renames[..n + 1])
        {
          RecodeStep(old(outcomeCodes)[i], renames, n);
        }
      }
      assert renames[..|renames|] == renames;
    }

    method UpgradeTables() returns (ok: bool)
      modifies this`tables
      ensures ok <==> AllReady(old(tables), "events", "key_points")
      ensures ok ==> tables == UpgradedTables(old(tables))
    {
      var before := tables;
      for n := 0 to |TABLES|
        invariant forall k :: 0 <= k < n ==> TABLES[k] in before && Ready(before[TABLES[k]], "events", "key_points")
        invariant tables.Keys == before.Keys
        invariant forall name <- before ::
                    tables[name] == if name in TABLES[..n] then UpgradedTable(before[name]) else before[name]
      {
        TablesDiffer();
        var name := TABLES[n];
        assert TABLES[..n + 1] == TABLES[..n] + [name] && name !in TABLES[..n];
        ok := UpgradeTable(name);
        if !ok {
          return;
        }
      }
      assert TABLES[..|TABLES|] == TABLES;
      ok := true;
    }

    method DowngradeTables() returns (ok: bool)
      modifies this`tables
      ensures ok <==> AllReady(old(tables), "key_points", "events")
      ensures ok ==> tables == DowngradedTables(old(tables))
    {
      var before := tables;
      for n := 0 to |TABLES|
        invariant forall k :: 0 <= k < n ==> TABLES[k] in before && Ready(before[TABLES[k]], "key_points", "events")
        invariant tables.Keys == before.Keys
        invariant forall name <- before ::
                    tables[name] == if name in TABLES[..n] then DowngradedTable(before[name]) else before[name]
      {
        TablesDiffer();
        var name := TABLES[n];
        assert TABLES[..n + 1] == TABLES[..n] + [name] && name !in TABLES[..n];
        ok := DowngradeTable(name);
        if !ok {
          return;
        }
      }
      assert TABLES[..|TABLES|] == TABLES;
      ok := true;
    }

    /** One transaction: a refused statement leaves everything as it was. */
    method Upgrade() returns (ok: bool)
      modifies this
      ensures ok <==> AllReady(old(tables), "events", "key_points")
      ensures ok ==> tables == UpgradedTables(old(tables))
      ensures ok ==> outcomeCodes == RecodeAll(old(outcomeCodes), OUTCOME_CODE_RENAMES)
      ensures !ok ==> tables == old(tables) && outcomeCodes == old(outcomeCodes)
    {
      var before := tables;
      ok := UpgradeTables();
      if ok {
        CodesAreSeparate();
        RewriteOutcomeCodes(OUTCOME_CODE_RENAMES);
      } else {
        tables := before;
      }
    }

    method Downgrade() returns (ok: bool)
      modifies this
      ensures ok <==> AllReady(old(tables), "key_points", "events")
      ensures ok ==> tables == DowngradedTables(old(tables))
      ensures ok ==> outcomeCodes == RecodeAll(old(outcomeCodes), Swapped(OUTCOME_CODE_RENAMES))
      ensures !ok ==> tables == old(tables) && outcomeCodes == old(outcomeCodes)
    {
      var before, codes := tables, outcomeCodes;
      CodesAreSeparate();
      RewriteOutcomeCodes(Swapped(OUTCOME_CODE_RENAMES));
      ok := DowngradeTables();
      if !ok {
        tables, outcomeCodes := before, codes;
      }
    }
  }

  lemma TablesDiffer()
    ensures TABLES[0] != TABLES[1]
  {
    assert TABLES[0][0] == 'i' && TABLES[1][0] == 'o';
  }

  lemma CodesAreSeparate()
    ensures Separate(OUTCOME_CODE_RENAMES) && Separate(Swapped(OUTCOME_CODE_RENAMES))
  {
    var r := OUTCOME_CODE_RENAMES;
    assert forall k :: 0 <= k < |r| ==> r[k].0[20] == 'e' && r[k].1[20] == 'k';
    assert |r[0].0| == 38 && |r[1].0| == 37 && |r[2].0| == 35 && |r[3].0| == 33;
    assert |r[0].1| == 42 && |r[1].1| == 41 && |r[2].1| == 39 && |r[3].1| == 37;
  }

  // ---- up and down again ------------------------------------------------------------------

  predicate Untouched(rows: map<int, Column>) {
    forall i <- rows :: !Selected(rows[i], "content")
  }

  lemma KeysDiffer()
    ensures "description" != "content" && "events" != "key_points"
  {
    assert "description"[0] == 'd' && "events"[0] == 'e';
  }

  lemma TableUndoneIff(table: Table)
    requires Ready(table, "events", "key_points")
    ensures Ready(UpgradedTable(table), "key_points", "events")
    ensures DowngradedTable(UpgradedTable(table)) == table <==> Untouched(table["events"])
  {
    KeysDiffer();
    var rows := table["events"];
    var back := DowngradedTable(UpgradedTable(table));
    forall i | i in rows
      ensures back["events"][i] == rows[i] <==> !Selected(rows[i], "content")
    {
      FormsAgree(rows[i], "description", "content");
      FormsAgree(RenameColumn(rows[i], "description", "content"), "content", "description");
      RenameUndoneIff(rows[i], "description", "content");
    }
    assert back.Keys == table.Keys;
    if Untouched(rows) {
      var restored := back["events"];
      assert restored.Keys == rows.Keys;
      assert forall i <- rows :: restored[i] == rows[i];
      assert restored == rows;
      assert back == table;
    }
  }

  lemma CodeUndoneIff(code: Code, renames: Renames)
    requires Separate(renames) && Separate(Swapped(renames))
    ensures Recode(Recode(code, renames), Swapped(renames)) == code
       <==> forall k :: 0 <= k < |renames| ==> code != Some(renames[k].1)
  {
    var back := Swapped(renames);
    if k :| 0 <= k < |renames| && code == Some(renames[k].0) {
      RecodeAt(renames, k);
      assert back[k] == (renames[k].1, renames[k].0);
      RecodeAt(back, k);
    } else if k :| 0 <= k < |renames| && code == Some(renames[k].1) {
      assert back[k] == (renames[k].1, renames[k].0);
      RecodeAt(back, k);
    }
  }

  lemma CodesUndoneIff(codes: map<int, Code>, renames: Renames)
    requires Separate(renames) && Separate(Swapped(renames))
    ensures RecodeAll(RecodeAll(codes, renames), Swapped(renames)) == codes
       <==> forall i <- codes, k :: 0 <= k < |renames| ==> codes[i] != Some(renames[k].1)
  {
    var back := RecodeAll(RecodeAll(codes, renames), Swapped(renames));
    assert back.Keys == codes.Keys;
    forall i | i in codes
      ensures back[i] == codes[i] <==> forall k :: 0 <= k < |renames| ==> codes[i] != Some(renames[k].1)
    {
      CodeUndoneIff(codes[i], renames);
    }
    if forall i <- codes :: back[i] == codes[i] {
      assert back == codes;
    }
  }

  lemma TablesUndoneIff(tables: Tables)
    requires AllReady(tables, "events", "key_points")
    ensures AllReady(UpgradedTables(tables), "key_points", "events")
    ensures DowngradedTables(UpgradedTables(tables)) == tables <==>
            forall name <- TABLES :: Untouched(tables[name]["events"])
  {
    forall name | name in TABLES
      ensures Ready(UpgradedTable(tables[name]), "key_points", "events")
      ensures DowngradedTable(UpgradedTable(tables[name])) == tables[name] <==> Untouched(tables[name]["events"])
    {
      TableUndoneIff(tables[name]);
    }
    var back := DowngradedTables(UpgradedTables(tables));
    assert back.Keys == tables.Keys;
  }

  /** Downgrading right after an upgrade always goes through; it restores tables and codes exactly when
      no object in an events array had a content key and no row carried one of the new codes. */
  lemma UpgradeUndoneIff(tables: Tables, codes: map<int, Code>)
    requires AllReady(tables, "events", "key_points")
    ensures AllReady(UpgradedTables(tables), "key_points", "events")
    ensures DowngradedTables(UpgradedTables(tables)) == tables
       <==> forall name <- TABLES :: Untouched(tables[name]["events"])
    ensures RecodeAll(RecodeAll(codes, OUTCOME_CODE_RENAMES), Swapped(OUTCOME_CODE_RENAMES)) == codes
       <==> forall i <- codes, k :: 0 <= k < |OUTCOME_CODE_RENAMES| ==> codes[i] != Some(OUTCOME_CODE_RENAMES[k].1)
  {
    TablesUndoneIff(tables);
    CodesAreSeparate();
    CodesUndoneIff(codes, OUTCOME_CODE_RENAMES);
  }
}
