/** A table whose key column is UNIQUE, rewritten in place by a normalization rule. */
module KeyTable {
  import opened Prelude

  type Rows = map<int, string>

  /** None: the rule raises ValueError. */
  type Rule = string -> Option<string>

  ghost predicate Unique(rows: Rows) {
    forall i, j :: i in rows && j in rows && rows[i] == rows[j] ==> i == j
  }

  /** SELECT returns every row once, in some order. */
  ghost predicate Enumerates(order: seq<int>, rows: Rows) {
    && (forall i <- rows :: i in order)
    && (forall a :: 0 <= a < |order| ==> order[a] in rows)
    && (forall a, b :: 0 <= a < b < |order| ==> order[a] != order[b])
  }

  class Table {
    var rows: Rows

    constructor (rows: Rows)
      ensures this.rows == rows
    {
      this.rows := rows;
    }

    /** UPDATE ... SET key = new WHERE id = :id. The unique index refuses a taken key. */
    method Update(id: int, new': string) returns (refused: bool)
      requires id in rows
      modifies this
      ensures refused <==> exists j :: j in old(rows) && j != id && old(rows)[j] == new'
      ensures rows == if refused then old(rows) else old(rows)[id := new']
      ensures old(Unique(rows)) ==> Unique(rows)
    {
      refused := exists j :: j in rows && j != id && rows[j] == new';
      if !refused {
        rows := rows[id := new'];
      }
    }

    method Delete(ids: set<int>) returns (count: nat)
      modifies this
      ensures rows == old(rows) - ids && count == |old(rows).Keys * ids|
    {
      count := |rows.Keys * ids|;
      rows := rows - ids;
    }
  }

  // ---- z32: what the rewrite amounts to -----------------------------------------------------

  predicate Normalizable(rows: Rows, rule: Rule) {
    forall i <- rows :: rule(rows[i]).Some?
  }

  predicate Changes(rows: Rows, rule: Rule, i: int) {
    i in rows && rule(rows[i]).Some? && rule(rows[i]).value != rows[i]
  }

  ghost predicate Collide(rows: Rows, rule: Rule) {
    exists i, j :: i in rows && j in rows && i != j && Changes(rows, rule, i) && Changes(rows, rule, j)
                   && rule(rows[i]) == rule(rows[j])
  }

  ghost predicate Refuses(rows: Rows, rule: Rule) {
    !Normalizable(rows, rule) || Collide(rows, rule)
  }

  function Keys(rows: Rows): set<string> {
    set i <- rows :: rows[i]
  }

  predicate Held(rows: Rows, key: string) {
    exists j :: j in rows && rows[j] == key
  }

  /** The normalized form is already some row's key. */
  predicate Superseded(rows: Rows, rule: Rule, i: int) {
    Changes(rows, rule, i) && Held(rows, rule(rows[i]).value)
  }

  /** The table afterwards: superseded rows go (or stay as they are), the others get their
      normalized key. */
  function Normalized(rows: Rows, rule: Rule, deleting: bool): Rows {
    map i | i in rows && !(deleting && Superseded(rows, rule, i)) ::
      if Changes(rows, rule, i) && !Superseded(rows, rule, i) then rule(rows[i]).value else rows[i]
  }

  datatype Outcome = Done | CannotNormalize(id: int) | Collision

  /** `_changes`: the new value of every row that changes, in row order. */
  method FindChanges(rows: Rows, order: seq<int>, rule: Rule)
    returns (bad: Option<int>, ids: seq<int>, changes: map<int, string>)
    requires Enumerates(order, rows)
    ensures bad.None? <==> Normalizable(rows, rule)
    ensures bad.None? ==> (forall i :: i in ids <==> Changes(rows, rule, i)) && changes.Keys == set i <- ids
    ensures bad.None? ==> forall i <- changes :: i in rows && Some(changes[i]) == rule(rows[i])
    ensures bad.None? ==> forall a, b :: 0 <= a < b < |ids| ==> ids[a] != ids[b]
  {
    ids, changes := [], map[];
    for n := 0 to |order|
      invariant forall k :: 0 <= k < n ==> rule(rows[order[k]]).Some?
      invariant forall i :: i in ids <==> Changes(rows, rule, i) && i in order[..n]
      invariant changes.Keys == set i <- ids
      invariant forall i <- changes :: i in rows && Some(changes[i]) == rule(rows[i])
      invariant forall a, b :: 0 <= a < b < |ids| ==> ids[a] != ids[b]
    {
      var id := order[n];
      assert order[..n + 1] == order[..n] + [id];
      assert id !in order[..n];
      var normalized := rule(rows[id]);
      if normalized.None? {
        return Some(id), ids, changes;
      }
      if normalized.value != rows[id] {
        ids, changes := ids + [id], changes[id := normalized.value];
      }
    }
    assert order[..|order|] == order;
    forall i | i in rows
      ensures rule(rows[i]).Some?
    {
      var k :| 0 <= k < |order| && order[k] == i;
    }
    return None, ids, changes;
  }

  /** `_reject_legacy_collisions`: group the changing rows by their new value. */
  method RejectCollisions(ids: seq<int>, changes: map<int, string>) returns (collided: bool)
    requires forall i <- ids :: i in changes
    requires forall a, b :: 0 <= a < b < |ids| ==> ids[a] != ids[b]
    ensures collided <==> exists i, j :: i in ids && j in ids && i != j && changes[i] == changes[j]
  {
    var byValue: map<string, seq<int>> := map[];
    for n := 0 to |ids|
      invariant forall v :: v in byValue <==> exists i <- ids[..n] :: changes[i] == v
      invariant forall v <- byValue :: forall i :: i in byValue[v] <==> i in ids[..n] && changes[i] == v
      invariant forall v <- byValue :: forall a, b :: 0 <= a < b < |byValue[v]| ==> byValue[v][a] != byValue[v][b]
    {
      var id := ids[n];
      assert ids[..n + 1] == ids[..n] + [id];
      assert id !in ids[..n];
      var value := changes[id];
      byValue := byValue[value := (if value in byValue then byValue[value] else []) + [id]];
    }
    assert ids[..|ids|] == ids;
    collided := exists v <- byValue :: |byValue[v]| > 1;
    if collided {
      var v :| v in byValue && |byValue[v]| > 1;
      var i, j := byValue[v][0], byValue[v][1];
      assert i in byValue[v] && j in byValue[v] && i != j;
    } else {
      forall i, j | i in ids && j in ids && i != j
        ensures changes[i] != changes[j]
      {
        assert i in byValue[changes[i]] && |byValue[changes[i]]| <= 1;
      }
    }
  }

  /** The key of row `i` once the rows in `done` have been dealt with. */
  function PartWay(was: Rows, rule: Rule, done: seq<int>, i: int): string
    requires i in was
  {
    if i in done && Changes(was, rule, i) && !Superseded(was, rule, i) then rule(was[i]).value else was[i]
  }

  /** One UPDATE per changing row whose new key is free. No update ever meets a taken key, so the
      source's "did not apply" error never fires. */
  method RewriteChanged(table: Table, ids: seq<int>, changes: map<int, string>, rule: Rule)
    requires Unique(table.rows) && !Collide(table.rows, rule)
    requires forall i :: i in ids <==> Changes(table.rows, rule, i)
    requires changes.Keys == (set i <- ids)
    requires forall i <- changes :: i in table.rows && Some(changes[i]) == rule(table.rows[i])
    modifies table
    ensures Unique(table.rows) && table.rows.Keys == old(table.rows).Keys
    ensures forall i <- table.rows :: table.rows[i] == PartWay(old(table.rows), rule, ids, i)
  {
    ghost var was := table.rows;
    var existing := Keys(table.rows);
    for n := 0 to |ids|
      invariant table.rows.Keys == was.Keys && Unique(table.rows)
      invariant forall i <- was :: table.rows[i] == PartWay(was, rule, ids[..n], i)
    {
      var id := ids[n];
      assert ids[..n + 1] == ids[..n] + [id];
      assert Changes(was, rule, id);
      if changes[id] !in existing {
        FreeKey(was, rule, ids[..n], id, table.rows);
        var refused := table.Update(id, changes[id]);
        assert !refused;
      } else {
        assert Superseded(was, rule, id);
      }
    }
    assert ids[..|ids|] == ids;
  }

  lemma FreeKey(was: Rows, rule: Rule, done: seq<int>, id: int, now: Rows)
    requires !Collide(was, rule) && Changes(was, rule, id) && rule(was[id]).value !in Keys(was)
    requires now.Keys == was.Keys && (forall i <- was :: now[i] == PartWay(was, rule, done, i))
    ensures forall j :: j in now && j != id ==> now[j] != rule(was[id]).value
    ensures !Superseded(was, rule, id)
  {
    forall j | j in now && j != id
      ensures now[j] != rule(was[id]).value
    {
      assert was[j] in Keys(was);
    }
  }

  method DeleteSuperseded(table: Table, superseded: set<int>, deleting: bool)
    requires superseded <= table.rows.Keys
    modifies table
    ensures table.rows == if deleting then old(table.rows) - superseded else old(table.rows)
  {
    if deleting && superseded != {} {
      assert table.rows.Keys * superseded == superseded;
      var count := table.Delete(superseded);
      assert count == |superseded|;
    }
  }

  /** `_normalize_article_keys`. It refuses before the first write; otherwise the table ends as
      Normalized says, unique after every single update. */
  method NormalizeKeys(table: Table, order: seq<int>, rule: Rule, deleting: bool) returns (out: Outcome)
    requires Enumerates(order, table.rows) && Unique(table.rows)
    modifies table
    ensures Refuses(old(table.rows), rule) <==> out.CannotNormalize? || out.Collision?
    ensures Refuses(old(table.rows), rule) ==> table.rows == old(table.rows)
    ensures !Refuses(old(table.rows), rule) ==>
      out.Done? && table.rows == Normalized(old(table.rows), rule, deleting)
    ensures Unique(table.rows)
  {
    var was := table.rows;
    var bad, ids, changes := FindChanges(was, order, rule);
    if bad.Some? {
      return CannotNormalize(bad.value);
    }
    var collided := RejectCollisions(ids, changes);
    CollisionsAreOfChanges(was, rule, ids, changes);
    if collided {
      return Collision;
    }
    var superseded := set i <- ids | changes[i] in Keys(was);
    RewriteChanged(table, ids, changes, rule);
    assert superseded == set i <- ids | Superseded(was, rule, i);
    EndsNormalized(was, rule, ids, superseded, table.rows, deleting);
    DeleteSuperseded(table, superseded, deleting);
    return Done;
  }

  lemma EndsNormalized(was: Rows, rule: Rule, ids: seq<int>, superseded: set<int>, now: Rows, deleting: bool)
    requires Unique(was) && !Refuses(was, rule) && now.Keys == was.Keys
    requires forall i :: i in ids <==> Changes(was, rule, i)
    requires superseded == set i <- ids | Superseded(was, rule, i)
    requires forall i <- now :: now[i] == PartWay(was, rule, ids, i)
    ensures superseded <= now.Keys
    ensures (if deleting then now - superseded else now) == Normalized(was, rule, deleting)
    ensures Unique(Normalized(was, rule, deleting))
  {
    assert forall i :: i in superseded <==> Superseded(was, rule, i);
    NormalizedUnique(was, rule, deleting);
  }

  lemma CollisionsAreOfChanges(rows: Rows, rule: Rule, ids: seq<int>, changes: map<int, string>)
    requires Normalizable(rows, rule) && (forall i :: i in ids <==> Changes(rows, rule, i))
    requires changes.Keys == (set i <- ids) && (forall i <- changes :: i in rows && Some(changes[i]) == rule(rows[i]))
    ensures Collide(rows, rule) <==> exists i, j :: i in ids && j in ids && i != j && changes[i] == changes[j]
  {
    if Collide(rows, rule) {
      var i, j :| i in rows && j in rows && i != j && Changes(rows, rule, i) && Changes(rows, rule, j)
                  && rule(rows[i]) == rule(rows[j]);
      assert i in ids && j in ids && changes[i] == changes[j];
    }
  }

  // ---- z32: what the rewrite promises for an idempotent rule -------------------------------------

  ghost predicate Idempotent(rule: Rule) {
    forall v :: rule(v).Some? ==> rule(rule(v).value) == rule(v)
  }

  /** The normalized keys present in a table: what duplicate detection compares. */
  function KeySet(rows: Rows, rule: Rule): set<Option<string>> {
    set i <- rows :: rule(rows[i])
  }

  /** The row that already holds the normalized key is never touched itself. */
  lemma HolderStays(rows: Rows, rule: Rule, deleting: bool, i: int, j: int)
    requires Idempotent(rule) && Unique(rows) && Superseded(rows, rule, i)
    requires j in rows && rows[j] == rule(rows[i]).value
    ensures j != i && j in Normalized(rows, rule, deleting) && Normalized(rows, rule, deleting)[j] == rows[j]
  {
  }

  lemma NormalizedUnique(rows: Rows, rule: Rule, deleting: bool)
    requires Unique(rows) && !Refuses(rows, rule)
    ensures Unique(Normalized(rows, rule, deleting))
  {
    var now := Normalized(rows, rule, deleting);
    forall i, j | i in now && j in now && now[i] == now[j]
      ensures i == j
    {
      assert rows[i] in Keys(rows) && rows[j] in Keys(rows);
    }
  }

  /** No normalized key is lost and none is invented. */
  lemma KeySetKept(rows: Rows, rule: Rule, deleting: bool)
    requires Idempotent(rule) && Unique(rows) && !Refuses(rows, rule)
    ensures KeySet(Normalized(rows, rule, deleting), rule) == KeySet(rows, rule)
  {
    var now := Normalized(rows, rule, deleting);
    forall k | k in KeySet(rows, rule)
      ensures k in KeySet(now, rule)
    {
      var i :| i in rows && rule(rows[i]) == k;
      if i in now {
        assert rule(now[i]) == k;
      } else {
        var j :| j in rows && rows[j] == k.value;
        HolderStays(rows, rule, deleting, i, j);
        assert rule(now[j]) == k;
      }
    }
    forall k | k in KeySet(now, rule)
      ensures k in KeySet(rows, rule)
    {
      var i :| i in now && rule(now[i]) == k;
      assert rule(rows[i]) == k;
    }
  }

  /** Afterwards a key is canonical, or (only when rows are kept) its canonical form is present. */
  lemma AfterwardsCanonical(rows: Rows, rule: Rule, deleting: bool, i: int)
    requires Idempotent(rule) && Unique(rows) && !Refuses(rows, rule)
    requires i in Normalized(rows, rule, deleting)
    ensures var now := Normalized(rows, rule, deleting);
            rule(now[i]) == Some(now[i]) ||
            (!deleting && rule(now[i]).value in Keys(now) && now[i] == rows[i])
  {
    var now := Normalized(rows, rule, deleting);
    if Superseded(rows, rule, i) {
      var j :| j in rows && rows[j] == rule(rows[i]).value;
      HolderStays(rows, rule, deleting, i, j);
      assert now[j] in Keys(now);
    }
  }

  /** A second run is not refused and writes nothing. */
  lemma SecondRunIsIdle(rows: Rows, rule: Rule, deleting: bool)
    requires Idempotent(rule) && Unique(rows) && !Refuses(rows, rule)
    ensures var now := Normalized(rows, rule, deleting);
            !Refuses(now, rule) && Normalized(now, rule, deleting) == now
  {
    var now := Normalized(rows, rule, deleting);
    forall i | i in now
      ensures rule(now[i]).Some?
      ensures Changes(now, rule, i) ==> !deleting && Superseded(now, rule, i) && now[i] == rows[i]
    {
      AfterwardsCanonical(rows, rule, deleting, i);
    }
    if Collide(now, rule) {
      var i, j :| i in now && j in now && i != j && Changes(now, rule, i) && Changes(now, rule, j)
                  && rule(now[i]) == rule(now[j]);
      assert Changes(rows, rule, i) && Changes(rows, rule, j);
      assert false;
    }
  }

  /** Idempotence is what the result depends on: already a table of one row ends canonical only
      if the rule leaves its own result alone. */
  lemma OneRowNeedsIdempotence(rule: Rule, id: int, v: string)
    requires rule(v).Some?
    ensures var now := Normalized(map[id := v], rule, true);
            !Refuses(map[id := v], rule) &&
            ((forall i <- now :: rule(now[i]) == Some(now[i])) <==> rule(rule(v).value) == rule(v))
  {
    var rows := map[id := v];
    var now := Normalized(rows, rule, true);
    assert Keys(rows) == {v};
    assert id in now && now[id] == rule(v).value;
  }

  // ---- s2: canonicalize every row, refusing duplicates first ------------------------------------------

  datatype S2Outcome = S2Done | S2Duplicates | S2Conflict(id: int)

  ghost predicate S2Collide(rows: Rows, canon: string -> string) {
    exists i, j :: i in rows && j in rows && i != j && canon(rows[i]) == canon(rows[j])
  }

  /** Row `a` is rewritten to a key that row `b`, later in the order, still holds. */
  ghost predicate RunsInto(rows: Rows, order: seq<int>, canon: string -> string, a: nat, b: nat)
    requires Enumerates(order, rows)
  {
    a < b < |order| && canon(rows[order[a]]) == rows[order[b]]
  }

  ghost predicate MeetsConflict(rows: Rows, order: seq<int>, canon: string -> string)
    requires Enumerates(order, rows)
  {
    exists a, b :: 0 <= a < b < |order| && RunsInto(rows, order, canon, a, b)
  }

  function AllCanonical(rows: Rows, canon: string -> string): Rows {
    map i | i in rows :: canon(rows[i])
  }

  method FindDuplicates(rows: Rows, order: seq<int>, canon: string -> string) returns (found: bool)
    requires Enumerates(order, rows)
    ensures found <==> S2Collide(rows, canon)
  {
    var seen: map<string, int> := map[];
    found := false;
    for n := 0 to |order|
      invariant forall v :: v in seen <==> exists i <- order[..n] :: canon(rows[i]) == v
      invariant forall v <- seen :: seen[v] in order[..n] && canon(rows[seen[v]]) == v
      invariant found <==>
                exists i, j :: i in order[..n] && j in order[..n] && i != j && canon(rows[i]) == canon(rows[j])
    {
      var id := order[n];
      assert order[..n + 1] == order[..n] + [id];
      assert id !in order[..n];
      var c := canon(rows[id]);
      if c in seen {
        assert seen[c] != id;
        found := true;
      } else {
        seen := seen[c := id];
      }
    }
    assert order[..|order|] == order;
  }

  /** The s2 upgrade. Whether the loop runs into the unique index part-way is decided exactly by
      the original values and the row order. */
  method CanonicalizeAll(table: Table, order: seq<int>, canon: string -> string) returns (out: S2Outcome)
    requires Enumerates(order, table.rows) && Unique(table.rows)
    modifies table
    ensures out.S2Duplicates? <==> S2Collide(old(table.rows), canon)
    ensures out.S2Duplicates? ==> table.rows == old(table.rows)
    ensures out.S2Conflict? <==> !S2Collide(old(table.rows), canon) && MeetsConflict(old(table.rows), order, canon)
    ensures out.S2Done? ==> table.rows == AllCanonical(old(table.rows), canon)
    ensures Unique(table.rows)
  {
    var was := table.rows;
    var duplicates := FindDuplicates(was, order, canon);
    if duplicates {
      return S2Duplicates;
    }
    for n := 0 to |order|
      invariant Unique(table.rows) && UpTo(was, order, canon, n, table.rows)
      invariant forall a, b :: 0 <= a < n && a < b < |order| ==> !RunsInto(was, order, canon, a, b)
    {
      var id := order[n];
      var c := canon(was[id]);
      RefusedIff(was, order, canon, n, table.rows);
      if c != was[id] {
        var refused := table.Update(id, c);
        if refused {
          return S2Conflict(id);
        }
      }
    }
    AllDone(was, order, canon, table.rows);
    return S2Done;
  }

  /** The table while the loop stands at position `n`. */
  ghost predicate UpTo(was: Rows, order: seq<int>, canon: string -> string, n: nat, now: Rows)
    requires Enumerates(order, was)
  {
    && now.Keys == was.Keys
    && forall k :: 0 <= k < |order| ==> now[order[k]] == if k < n then canon(was[order[k]]) else was[order[k]]
  }

  /** The update at `n` is refused exactly if a later row still holds the new key. */
  lemma RefusedIff(was: Rows, order: seq<int>, canon: string -> string, n: nat, now: Rows)
    requires Enumerates(order, was) && n < |order| && !S2Collide(was, canon) && Unique(was)
    requires UpTo(was, order, canon, n, now)
    ensures (exists j :: j in now && j != order[n] && now[j] == canon(was[order[n]])) <==>
      exists b :: n < b < |order| && RunsInto(was, order, canon, n, b)
    ensures canon(was[order[n]]) == was[order[n]] ==> forall b :: n < b < |order| ==> !RunsInto(was, order, canon, n, b)
  {
    var id, c := order[n], canon(was[order[n]]);
    if j :| j in now && j != id && now[j] == c {
      var b :| 0 <= b < |order| && order[b] == j;
      assert RunsInto(was, order, canon, n, b);
    }
    if b :| n < b < |order| && RunsInto(was, order, canon, n, b) {
      assert order[b] in now && now[order[b]] == c;
    }
  }

  lemma AllDone(was: Rows, order: seq<int>, canon: string -> string, now: Rows)
    requires Enumerates(order, was) && UpTo(was, order, canon, |order|, now)
    ensures now == AllCanonical(was, canon)
  {
    forall i | i in was
      ensures now[i] == canon(was[i])
    {
      var k :| 0 <= k < |order| && order[k] == i;
    }
  }

  /** Where the rule is idempotent, a conflict part-way would have been a duplicate before. */
  lemma IdempotentNeverConflicts(rows: Rows, order: seq<int>, canon: string -> string)
    requires Enumerates(order, rows) && !S2Collide(rows, canon)
    requires forall i <- rows :: canon(canon(rows[i])) == canon(rows[i])
    ensures !MeetsConflict(rows, order, canon)
  {
    forall a, b | 0 <= a < b < |order|
      ensures !RunsInto(rows, order, canon, a, b)
    {
      var i, j := order[a], order[b];
      assert i in rows && j in rows && i != j;
      assert canon(rows[i]) != canon(rows[j]);
      assert canon(canon(rows[i])) == canon(rows[i]);
    }
  }
}
