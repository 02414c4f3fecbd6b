/** Runs that break the exclusion: why the lock is taken, and why clients have to insert under
    parents they see and may not use a key twice. Each is built for every starting table. */
module ExclusionRaces {
  import opened Prelude
  import opened ExclusionModel
  import opened ExclusionParents

  predicate Next(proto: Protocol, s: State, e: Event, s2: State) {
    Enabled(proto, s, e) && Apply(proto, s, e) == s2
  }

  /** A run put together from its last step backwards. */
  lemma Prepend(proto: Protocol, s: State, e: Event, s2: State, es: seq<Event>, last: State)
    requires Next(proto, s, e, s2) && RunTo(proto, s2, es, last)
    ensures RunTo(proto, s, [e] + es, last)
  {
    assert ([e] + es)[1..] == es;
  }

  lemma TwoSteps(proto: Protocol, s: State, e: Event, s2: State, e2: Event, s3: State)
    requires Next(proto, s, e, s2) && Next(proto, s2, e2, s3)
    ensures RunTo(proto, s, [e, e2], s3)
  {
    assert RunTo(proto, s3, [], s3);
    Prepend(proto, s2, e2, s3, [], s3);
    Prepend(proto, s, e, s2, [e2], s3);
    assert [e2] + [] == [e2] && [e] + [e2] == [e, e2];
  }

  lemma {:induction false} Join(proto: Protocol, s: State, a: seq<Event>, mid: State, b: seq<Event>, last: State)
    requires RunTo(proto, s, a, mid) && RunTo(proto, mid, b, last)
    ensures RunTo(proto, s, a + b, last)
    decreases |a|
  {
    if a == [] {
      assert a + b == b;
    } else {
      Join(proto, Apply(proto, s, a[0]), a[1..], mid, b, last);
      assert (a + b)[1..] == a[1..] + b;
    }
  }

  lemma JoinFive(proto: Protocol, s0: State, a: seq<Event>, s1: State, b: seq<Event>, s2: State, c: seq<Event>,
                 s3: State, d: seq<Event>, s4: State, e: seq<Event>, s5: State)
    requires RunTo(proto, s0, a, s1) && RunTo(proto, s1, b, s2) && RunTo(proto, s2, c, s3)
    requires RunTo(proto, s3, d, s4) && RunTo(proto, s4, e, s5)
    ensures RunTo(proto, s0, a + b + c + d + e, s5)
  {
    Join(proto, s0, a, s1, b, s2);
    Join(proto, s0, a + b, s2, c, s3);
    Join(proto, s0, a + b + c, s3, d, s4);
    Join(proto, s0, a + b + c + d, s4, e, s5);
  }

  predicate RunTo(proto: Protocol, s: State, es: seq<Event>, last: State) {
    IsRun(proto, s, es) && After(proto, s, es) == last
  }

  function At(stage: Stage): TxState { NEW.(stage := stage) }

  /** A transaction whose only statement so far is one insert. */
  function Inserted(k: Key, parent: nat): TxState {
    TxState(map[k := parent], {}, [Insert(k, parent)], Idle, [])
  }

  function InsertLocks(t: Tx, k: Key, parent: nat): set<Lock> {
    {Lock(t, k, Update), Lock(t, ParentKey(k.table, parent), KeyShare)}
  }

  // ---- Single steps -------------------------------------------------------------------------

  lemma NewSees(rows: Rows, k: Key, parent: nat, stage: Stage)
    ensures View(rows, NEW.(stage := stage)) == rows
    ensures View(rows, Inserted(k, parent)) == rows[k := parent]
  {
  }

  lemma StepBegin(proto: Protocol, s: State, t: Tx)
    requires t !in s.txs && (forall l <- s.locks :: l.tx != t)
    ensures Next(proto, s, Begin(t), s.(txs := s.txs[t := NEW]))
  {
  }

  lemma StepStart(proto: Protocol, s: State, t: Tx, k: Key, parent: nat)
    requires t in s.txs && s.txs[t] == NEW && IsChild(k)
    ensures Next(proto, s, StartInsert(t, k, parent),
                 s.(txs := s.txs[t := NEW.(stage := Started(Write(k, parent, false)))]))
  {
  }

  lemma StepCheckLockFree(s: State, t: Tx, w: Write)
    requires t in s.txs && s.txs[t] == NEW.(stage := Started(w))
    requires !HasRow(s.committed, Opposite(w.key.table), w.parent, w.key)
    ensures Next(LockFree, s, CheckOpposite(t), s.(txs := s.txs[t := NEW.(stage := Checked(w, false))]))
  {
    NewSees(s.committed, w.key, w.parent, Started(w));
  }

  lemma StepWrite(proto: Protocol, s: State, t: Tx, w: Write, found: bool)
    requires t in s.txs && s.txs[t] == NEW.(stage := Checked(w, found)) && !w.update && Unused(s, w.key)
    requires ParentKey(w.key.table, w.parent) in s.committed && !HasRow(s.committed, w.key.table, w.parent, w.key)
    requires Free(s.locks, t, ParentKey(w.key.table, w.parent), KeyShare) && !UniqueWaits(s, t, w)
    ensures Next(proto, s, WriteRow(t),
                 State(s.committed, s.txs[t := Inserted(w.key, w.parent)], s.locks + InsertLocks(t, w.key, w.parent)))
  {
    NewSees(s.committed, w.key, w.parent, Checked(w, found));
    assert map[][w.key := w.parent] == map[w.key := w.parent];
    assert [] + [Insert(w.key, w.parent)] == [Insert(w.key, w.parent)];
  }

  lemma TwoTxs(t: Tx, u: Tx, a: TxState, b: TxState, c: TxState)
    requires t != u
    ensures map[t := a][u := b] == map[t := a, u := b]
    ensures map[t := a, u := b][t := c] == map[t := c, u := b]
    ensures map[t := a, u := b][u := c] == map[t := a, u := c]
    ensures map[t := a, u := b] - {t} == map[u := b]
    ensures map[u := b] - {u} == map[]
  {
  }

  lemma StepCommit(proto: Protocol, s: State, t: Tx, k: Key, parent: nat)
    requires t in s.txs && s.txs[t] == Inserted(k, parent)
    ensures Next(proto, s, Commit(t),
                 State(s.committed[k := parent], s.txs - {t}, set l <- s.locks | l.tx != t))
  {
    NewSees(s.committed, k, parent, Idle);
  }

  // ---- Without the lock -----------------------------------------------------------------------

  /** Two transactions each insert a row for the same parent, one in each table of the pair. */
  function TwoInserts(t: Tx, j: Key, u: Tx, k: Key, parent: nat): seq<Event> {
    [Begin(t), Begin(u)] + [StartInsert(t, j, parent), StartInsert(u, k, parent)] +
    [CheckOpposite(t), CheckOpposite(u)] + [WriteRow(t), WriteRow(u)] + [Commit(t), Commit(u)]
  }

  /** Two new rows for a parent that has no row in either table of the pair yet. */
  predicate FreshPair(rows: Rows, j: Key, k: Key, parent: nat) {
    && IsChild(j) && k.table == Opposite(j.table) && j !in rows && k !in rows
    && (forall i <- rows :: i.table == j.table || i.table == k.table ==> rows[i] != parent)
  }

  function RaceStates(c: Rows, t: Tx, j: Key, u: Tx, k: Key, parent: nat): seq<State> {
    var wj, wk := Write(j, parent, false), Write(k, parent, false);
    [State(c, map[], {}),
     State(c, map[t := NEW], {}),
     State(c, map[t := NEW, u := NEW], {}),
     State(c, map[t := At(Started(wj)), u := NEW], {}),
     State(c, map[t := At(Started(wj)), u := At(Started(wk))], {}),
     State(c, map[t := At(Checked(wj, false)), u := At(Started(wk))], {}),
     State(c, map[t := At(Checked(wj, false)), u := At(Checked(wk, false))], {}),
     State(c, map[t := Inserted(j, parent), u := At(Checked(wk, false))], InsertLocks(t, j, parent)),
     State(c, map[t := Inserted(j, parent), u := Inserted(k, parent)],
           InsertLocks(t, j, parent) + InsertLocks(u, k, parent)),
     State(c[j := parent], map[u := Inserted(k, parent)], InsertLocks(u, k, parent)),
     State(c[j := parent][k := parent], map[], {})]
  }

  lemma RaceBegin(c: Rows, t: Tx, j: Key, u: Tx, k: Key, parent: nat)
    requires t != u
    ensures var ss := RaceStates(c, t, j, u, k, parent);
            RunTo(LockFree, ss[0], [Begin(t), Begin(u)], ss[2])
  {
    var ss := RaceStates(c, t, j, u, k, parent);
    StepBegin(LockFree, State(c, map[], {}), t);
    StepBegin(LockFree, State(c, map[t := NEW], {}), u);
    TwoSteps(LockFree, ss[0], Begin(t), ss[1], Begin(u), ss[2]);
  }

  lemma RaceStart(c: Rows, t: Tx, j: Key, u: Tx, k: Key, parent: nat)
    requires t != u && FreshPair(c, j, k, parent)
    ensures var ss := RaceStates(c, t, j, u, k, parent);
            RunTo(LockFree, ss[2], [StartInsert(t, j, parent), StartInsert(u, k, parent)], ss[4])
  {
    var ss := RaceStates(c, t, j, u, k, parent);
    var wj, wk := Write(j, parent, false), Write(k, parent, false);
    TwoTxs(t, u, NEW, NEW, At(Started(wj)));
    StepStart(LockFree, ss[2], t, j, parent);
    TwoTxs(t, u, At(Started(wj)), NEW, At(Started(wk)));
    StepStart(LockFree, ss[3], u, k, parent);
    TwoSteps(LockFree, ss[2], StartInsert(t, j, parent), ss[3], StartInsert(u, k, parent), ss[4]);
  }

  lemma RaceCheck(c: Rows, t: Tx, j: Key, u: Tx, k: Key, parent: nat)
    requires t != u && FreshPair(c, j, k, parent)
    ensures var ss := RaceStates(c, t, j, u, k, parent);
            RunTo(LockFree, ss[4], [CheckOpposite(t), CheckOpposite(u)], ss[6])
  {
    var wj, wk := Write(j, parent, false), Write(k, parent, false);
    TwoTxs(t, u, At(Started(wj)), At(Started(wk)), At(Checked(wj, false)));
    StepCheckLockFree(State(c, map[t := At(Started(wj)), u := At(Started(wk))], {}), t, wj);
    TwoTxs(t, u, At(Checked(wj, false)), At(Started(wk)), At(Checked(wk, false)));
    StepCheckLockFree(State(c, map[t := At(Checked(wj, false)), u := At(Started(wk))], {}), u, wk);
    var ss := RaceStates(c, t, j, u, k, parent);
    TwoSteps(LockFree, ss[4], CheckOpposite(t), ss[5], CheckOpposite(u), ss[6]);
  }

  lemma RaceWrite(c: Rows, t: Tx, j: Key, u: Tx, k: Key, parent: nat)
    requires t != u && FreshPair(c, j, k, parent) && ParentKey(j.table, parent) in c
    ensures var ss := RaceStates(c, t, j, u, k, parent);
            RunTo(LockFree, ss[6], [WriteRow(t), WriteRow(u)], ss[8])
  {
    var wj, wk := Write(j, parent, false), Write(k, parent, false);
    TwoTxs(t, u, At(Checked(wj, false)), At(Checked(wk, false)), Inserted(j, parent));
    StepWrite(LockFree, State(c, map[t := At(Checked(wj, false)), u := At(Checked(wk, false))], {}), t, wj, false);
    TwoTxs(t, u, Inserted(j, parent), At(Checked(wk, false)), Inserted(k, parent));
    var s := State(c, map[t := Inserted(j, parent), u := At(Checked(wk, false))], InsertLocks(t, j, parent));
    StepWrite(LockFree, s, u, wk, false);
    var ss := RaceStates(c, t, j, u, k, parent);
    TwoSteps(LockFree, ss[6], WriteRow(t), ss[7], WriteRow(u), ss[8]);
  }

  lemma RaceCommit(c: Rows, t: Tx, j: Key, u: Tx, k: Key, parent: nat)
    requires t != u && FreshPair(c, j, k, parent)
    ensures var ss := RaceStates(c, t, j, u, k, parent);
            RunTo(LockFree, ss[8], [Commit(t), Commit(u)], ss[10])
  {
    var locksJ, locksK := InsertLocks(t, j, parent), InsertLocks(u, k, parent);
    TwoTxs(t, u, Inserted(j, parent), Inserted(k, parent), NEW);
    var both := map[t := Inserted(j, parent), u := Inserted(k, parent)];
    StepCommit(LockFree, State(c, both, locksJ + locksK), t, j, parent);
    assert (set l: Lock <- locksJ + locksK | l.tx != t) == locksK;
    StepCommit(LockFree, State(c[j := parent], map[u := Inserted(k, parent)], locksK), u, k, parent);
    assert (set l: Lock <- locksK | l.tx != u) == {};
    var ss := RaceStates(c, t, j, u, k, parent);
    TwoSteps(LockFree, ss[8], Commit(t), ss[9], Commit(u), ss[10]);
  }

  lemma RaceRun(c: Rows, t: Tx, j: Key, u: Tx, k: Key, parent: nat)
    requires t != u && FreshPair(c, j, k, parent) && ParentKey(j.table, parent) in c
    ensures RunTo(LockFree, State(c, map[], {}), TwoInserts(t, j, u, k, parent),
                  State(c[j := parent][k := parent], map[], {}))
  {
    RaceBegin(c, t, j, u, k, parent);
    RaceStart(c, t, j, u, k, parent);
    RaceCheck(c, t, j, u, k, parent);
    RaceWrite(c, t, j, u, k, parent);
    RaceCommit(c, t, j, u, k, parent);
    var ss := RaceStates(c, t, j, u, k, parent);
    JoinFive(LockFree, ss[0], [Begin(t), Begin(u)],
             ss[2], [StartInsert(t, j, parent), StartInsert(u, k, parent)],
             ss[4], [CheckOpposite(t), CheckOpposite(u)],
             ss[6], [WriteRow(t), WriteRow(u)],
             ss[8], [Commit(t), Commit(u)], ss[10]);
  }

  /** The triggers before z33: from every quiet state in which the parent has no result yet,
      the interleaving goes through and commits both rows. */
  lemma LockFreeRace(s: State, t: Tx, j: Key, u: Tx, k: Key, parent: nat)
    requires Quiet(s) && t != u && FreshPair(s.committed, j, k, parent)
    requires ParentKey(j.table, parent) in s.committed
    ensures var es := TwoInserts(t, j, u, k, parent);
            && IsRun(LockFree, s, es)
            && After(LockFree, s, es).committed == s.committed[j := parent][k := parent]
            && !Exclusive(After(LockFree, s, es).committed)
  {
    RaceRun(s.committed, t, j, u, k, parent);
    var rows := s.committed[j := parent][k := parent];
    assert j in rows && k in rows && rows[j] == rows[k];
  }

  // ---- With the lock: runs beside a waiting statement ---------------------------------------------

  /** The keys a run makes, as often as it makes them. */
  function Made(s: State, es: seq<Event>): multiset<Key>
    requires IsRun(Locking, s, es)
    decreases |es|
  {
    if es == [] then multiset{} else multiset(KeysMade(s, es[0])) + Made(Apply(Locking, s, es[0]), es[1..])
  }

  lemma {:induction false} MadeOnceIsFresh(s: State, es: seq<Event>, used: set<Key>)
    requires IsRun(Locking, s, es)
    requires forall k :: Made(s, es)[k] + (if k in used then 1 else 0) <= 1
    ensures FreshKeys(s, es, used)
    decreases |es|
  {
    if es != [] {
      var rest := Made(Apply(Locking, s, es[0]), es[1..]);
      forall k | k in KeysMade(s, es[0])
        ensures k !in used && k !in rest
      {
        assert Made(s, es)[k] == 1 + rest[k];
      }
      forall k
        ensures rest[k] + (if k in used + KeysMade(s, es[0]) then 1 else 0) <= 1
      {
        assert Made(s, es)[k] == multiset(KeysMade(s, es[0]))[k] + rest[k];
      }
      MadeOnceIsFresh(Apply(Locking, s, es[0]), es[1..], used + KeysMade(s, es[0]));
    }
  }

  /** A run from `s` to `last`: the keys it makes, and whether every write names a parent it sees. */
  predicate Leads(s: State, es: seq<Event>, last: State, made: multiset<Key>, sees: bool) {
    RunTo(Locking, s, es, last) && Made(s, es) == made && (sees ==> SeesParents(s, es))
  }

  predicate Hop(s: State, e: Event, s2: State, made: set<Key>, sees: bool) {
    Next(Locking, s, e, s2) && KeysMade(s, e) == made && (sees ==> NamesSeenParent(s, e))
  }

  lemma OneHop(s: State, e: Event, s2: State, made: set<Key>, sees: bool)
    requires Hop(s, e, s2, made, sees)
    ensures Leads(s, [e], s2, multiset(made), sees)
  {
    assert [e][1..] == [];
  }

  lemma {:induction false} Chain(s: State, a: seq<Event>, mid: State, made: multiset<Key>, sees: bool,
                                 b: seq<Event>, last: State, made2: multiset<Key>, sees2: bool)
    requires Leads(s, a, mid, made, sees) && Leads(mid, b, last, made2, sees2)
    ensures Leads(s, a + b, last, made + made2, sees && sees2)
    decreases |a|
  {
    if a == [] {
      assert a + b == b;
    } else {
      var s2 := Apply(Locking, s, a[0]);
      Chain(s2, a[1..], mid, Made(s2, a[1..]), sees, b, last, made2, sees2);
      assert (a + b)[1..] == a[1..] + b;
    }
  }

  lemma TwoHops(s: State, e: Event, s2: State, made: set<Key>, e2: Event, s3: State, made2: set<Key>)
    requires Hop(s, e, s2, made, true) && Hop(s2, e2, s3, made2, true)
    ensures Leads(s, [e, e2], s3, multiset(made) + multiset(made2), true)
  {
    OneHop(s, e, s2, made, true);
    OneHop(s2, e2, s3, made2, true);
    Chain(s, [e], s2, multiset(made), true, [e2], s3, multiset(made2), true);
    assert [e] + [e2] == [e, e2];
  }

  /** `u` has done nothing yet and stands at some stage of its first statement. */
  function Beside(c: Rows, u: Tx, stage: Stage): State {
    State(c, map[u := At(stage)], {})
  }

  /** The same, while `t` works. */
  function While(c: Rows, u: Tx, stage: Stage, t: Tx, x: TxState, locks: set<Lock>): State {
    State(c, map[u := At(stage)][t := x], locks)
  }

  lemma Moves(c: Rows, u: Tx, stage: Stage, t: Tx, x: TxState, y: TxState)
    requires t != u
    ensures map[u := At(stage)][t := x][t := y] == map[u := At(stage)][t := y]
    ensures map[u := At(stage)][t := x] - {t} == map[u := At(stage)]
  {
  }

  lemma BeginHop(c: Rows, u: Tx, stage: Stage, t: Tx)
    requires t != u
    ensures Hop(Beside(c, u, stage), Begin(t), While(c, u, stage, t, NEW, {}), {}, true)
  {
  }

  /** A commit leaves the rows the transaction saw, and the waiting statement where it was. */
  lemma CommitHop(c: Rows, u: Tx, stage: Stage, t: Tx, x: TxState, locks: set<Lock>, rows: Rows)
    requires t != u && x.stage.Idle? && View(c, x) == rows && CascadeDone(rows, x.deleted)
    requires forall l <- locks :: l.tx == t
    ensures Hop(While(c, u, stage, t, x, locks), Commit(t), Beside(rows, u, stage), {}, true)
  {
    Moves(c, u, stage, t, x, x);
    assert (set l <- locks | l.tx != t) == {};
  }

  // ---- A whole insert ------------------------------------------------------------------------------

  function Inserting(t: Tx, k: Key, parent: nat): seq<Event> {
    [Begin(t), StartInsert(t, k, parent)] + [LockParent(t), CheckOpposite(t)] + [WriteRow(t), Commit(t)]
  }

  predicate FreshRow(c: Rows, k: Key, parent: nat) {
    && IsChild(k) && k !in c && ParentKey(k.table, parent) in c
    && (forall i <- c :: i.table == k.table || i.table == Opposite(k.table) ==> c[i] != parent)
  }

  lemma InsertStarts(c: Rows, u: Tx, stage: Stage, t: Tx, k: Key, parent: nat)
    requires t != u && FreshRow(c, k, parent)
    ensures var w := Write(k, parent, false);
            Leads(Beside(c, u, stage), [Begin(t), StartInsert(t, k, parent)],
                  While(c, u, stage, t, At(Started(w)), {}), multiset{}, true)
  {
    var s1, s2 := While(c, u, stage, t, NEW, {}), While(c, u, stage, t, At(Started(Write(k, parent, false))), {});
    BeginHop(c, u, stage, t);
    NewSees(c, k, parent, Idle);
    Moves(c, u, stage, t, NEW, At(Started(Write(k, parent, false))));
    assert Hop(s1, StartInsert(t, k, parent), s2, {}, true);
    TwoHops(Beside(c, u, stage), Begin(t), s1, {}, StartInsert(t, k, parent), s2, {});
  }

  lemma InsertLooks(c: Rows, u: Tx, stage: Stage, t: Tx, k: Key, parent: nat)
    requires t != u && FreshRow(c, k, parent)
    ensures var w, lock := Write(k, parent, false), Lock(t, ParentKey(k.table, parent), NoKeyUpdate);
            Leads(While(c, u, stage, t, At(Started(w)), {}), [LockParent(t), CheckOpposite(t)],
                  While(c, u, stage, t, At(Checked(w, true)), {lock}), multiset{}, true)
  {
    var w, lock := Write(k, parent, false), Lock(t, ParentKey(k.table, parent), NoKeyUpdate);
    var s2, s3 := While(c, u, stage, t, At(Started(w)), {}), While(c, u, stage, t, At(Locked(w, true)), {lock});
    var s4 := While(c, u, stage, t, At(Checked(w, true)), {lock});
    NewSees(c, k, parent, Started(w));
    Moves(c, u, stage, t, At(Started(w)), At(Locked(w, true)));
    assert Hop(s2, LockParent(t), s3, {}, true);
    NewSees(c, k, parent, Locked(w, true));
    Moves(c, u, stage, t, At(Locked(w, true)), At(Checked(w, true)));
    assert Hop(s3, CheckOpposite(t), s4, {}, true);
    TwoHops(s2, LockParent(t), s3, {}, CheckOpposite(t), s4, {});
  }

  lemma InsertEnds(c: Rows, u: Tx, stage: Stage, t: Tx, k: Key, parent: nat)
    requires t != u && FreshRow(c, k, parent)
    ensures var w, lock := Write(k, parent, false), Lock(t, ParentKey(k.table, parent), NoKeyUpdate);
            Leads(While(c, u, stage, t, At(Checked(w, true)), {lock}), [WriteRow(t), Commit(t)],
                  Beside(c[k := parent], u, stage), multiset{k}, true)
  {
    var w, lock := Write(k, parent, false), Lock(t, ParentKey(k.table, parent), NoKeyUpdate);
    var s4, done := While(c, u, stage, t, At(Checked(w, true)), {lock}), Inserted(k, parent);
    var s5 := While(c, u, stage, t, done, {lock} + InsertLocks(t, k, parent));
    NewSees(c, k, parent, Checked(w, true));
    StepWrite(Locking, s4, t, w, true);
    Moves(c, u, stage, t, At(Checked(w, true)), done);
    assert Hop(s4, WriteRow(t), s5, {k}, true);
    CommitHop(c, u, stage, t, done, s5.locks, c[k := parent]);
    TwoHops(s4, WriteRow(t), s5, {k}, Commit(t), Beside(c[k := parent], u, stage), {});
  }

  lemma InsertBeside(c: Rows, u: Tx, stage: Stage, t: Tx, k: Key, parent: nat)
    requires t != u && FreshRow(c, k, parent)
    ensures Leads(Beside(c, u, stage), Inserting(t, k, parent), Beside(c[k := parent], u, stage), multiset{k}, true)
  {
    var w, lock := Write(k, parent, false), Lock(t, ParentKey(k.table, parent), NoKeyUpdate);
    var s0, s2 := Beside(c, u, stage), While(c, u, stage, t, At(Started(w)), {});
    var s4, s6 := While(c, u, stage, t, At(Checked(w, true)), {lock}), Beside(c[k := parent], u, stage);
    var a, b := [Begin(t), StartInsert(t, k, parent)], [LockParent(t), CheckOpposite(t)];
    InsertStarts(c, u, stage, t, k, parent);
    InsertLooks(c, u, stage, t, k, parent);
    InsertEnds(c, u, stage, t, k, parent);
    Chain(s0, a, s2, multiset{}, true, b, s4, multiset{}, true);
    Chain(s0, a + b, s4, multiset{}, true, [WriteRow(t), Commit(t)], s6, multiset{k}, true);
    assert multiset{} + multiset{k} == multiset{k};
  }

  // ---- Making and deleting a parent ------------------------------------------------------------------

  function Making(t: Tx, p: Key, v: nat): seq<Event> {
    if p.table.Article? then [Begin(t)] + [CreateArticle(t, p.id), Commit(t)] else Inserting(t, p, v)
  }

  /** The parent can be made: an article, or the first result of an article. */
  predicate MayMake(c: Rows, p: Key, v: nat) {
    p !in c && if p.table.Article? then v == 0 else FreshRow(c, p, v)
  }

  lemma MakeBeside(c: Rows, u: Tx, stage: Stage, t: Tx, p: Key, v: nat)
    requires t != u && MayMake(c, p, v)
    ensures Leads(Beside(c, u, stage), Making(t, p, v), Beside(c[p := v], u, stage), multiset{p}, true)
  {
    if p.table.Article? {
      var s1, done := While(c, u, stage, t, NEW, {}), TxState(map[p := 0], {}, [NewArticle(p)], Idle, []);
      var s2 := While(c, u, stage, t, done, {Lock(t, p, Update)});
      BeginHop(c, u, stage, t);
      assert map[][p := 0] == map[p := 0] && [] + [NewArticle(p)] == [NewArticle(p)];
      Moves(c, u, stage, t, NEW, done);
      assert Hop(s1, CreateArticle(t, p.id), s2, {p}, true);
      assert View(c, done) == c[p := 0];
      CommitHop(c, u, stage, t, done, s2.locks, c[p := 0]);
      OneHop(Beside(c, u, stage), Begin(t), s1, {}, true);
      TwoHops(s1, CreateArticle(t, p.id), s2, {p}, Commit(t), Beside(c[p := 0], u, stage), {});
      Chain(Beside(c, u, stage), [Begin(t)], s1, multiset{}, true,
            [CreateArticle(t, p.id), Commit(t)], Beside(c[p := 0], u, stage), multiset{p}, true);
      assert multiset{} + multiset{p} == multiset{p};
    } else {
      InsertBeside(c, u, stage, t, p, v);
    }
  }

  function Deleting(t: Tx, p: Key): seq<Event> {
    [Begin(t)] + [DeleteRow(t, p), Commit(t)]
  }

  lemma DeleteBeside(c: Rows, u: Tx, stage: Stage, t: Tx, p: Key)
    requires t != u && p in c && forall k <- c :: IsChild(k) ==> ParentKey(k.table, c[k]) != p
    ensures Leads(Beside(c, u, stage), Deleting(t, p), Beside(c - {p}, u, stage), multiset{}, true)
  {
    var s1, done := While(c, u, stage, t, NEW, {}), TxState(map[], {p}, [Delete(p)], Idle, []);
    var s2 := While(c, u, stage, t, done, {Lock(t, p, Update)});
    BeginHop(c, u, stage, t);
    NewSees(c, p, 0, Idle);
    assert NEW.written - {p} == map[] && NEW.deleted + {p} == {p} && NEW.ops + [Delete(p)] == [Delete(p)];
    Moves(c, u, stage, t, NEW, done);
    assert Hop(s1, DeleteRow(t, p), s2, {}, true);
    assert View(c, done) == c - {p};
    CommitHop(c, u, stage, t, done, s2.locks, c - {p});
    OneHop(Beside(c, u, stage), Begin(t), s1, {}, true);
    TwoHops(s1, DeleteRow(t, p), s2, {}, Commit(t), Beside(c - {p}, u, stage), {});
    Chain(Beside(c, u, stage), [Begin(t)], s1, multiset{}, true,
          [DeleteRow(t, p), Commit(t)], Beside(c - {p}, u, stage), multiset{}, true);
  }

  // ---- The waiting statement itself ------------------------------------------------------------------

  lemma WaitingStarts(c: Rows, u: Tx, k: Key, parent: nat)
    requires IsChild(k)
    ensures Leads(State(c, map[], {}), [Begin(u)] + [StartInsert(u, k, parent)],
                  Beside(c, u, Started(Write(k, parent, false))), multiset{}, ParentKey(k.table, parent) in c)
  {
    var s0, s1, s2 := State(c, map[], {}), Beside(c, u, Idle), Beside(c, u, Started(Write(k, parent, false)));
    var sees := ParentKey(k.table, parent) in c;
    NewSees(c, k, parent, Idle);
    assert Hop(s0, Begin(u), s1, {}, true);
    assert s1.txs[u := At(Started(Write(k, parent, false)))] == s2.txs;
    assert Hop(s1, StartInsert(u, k, parent), s2, {}, sees);
    OneHop(s0, Begin(u), s1, {}, true);
    OneHop(s1, StartInsert(u, k, parent), s2, {}, sees);
    Chain(s0, [Begin(u)], s1, multiset{}, true, [StartInsert(u, k, parent)], s2, multiset{}, sees);
  }

  /** The lock statement finds no row, and neither does the check. */
  lemma WaitingMisses(c: Rows, u: Tx, k: Key, parent: nat)
    requires IsChild(k) && ParentKey(k.table, parent) !in c
    requires forall i <- c :: i.table == Opposite(k.table) ==> c[i] != parent
    ensures var w := Write(k, parent, false);
            Leads(Beside(c, u, Started(w)), [LockParent(u), CheckOpposite(u)], Beside(c, u, Checked(w, false)),
                  multiset{}, true)
  {
    var w := Write(k, parent, false);
    var s2, s3, s4 := Beside(c, u, Started(w)), Beside(c, u, Locked(w, false)), Beside(c, u, Checked(w, false));
    NewSees(c, k, parent, Started(w));
    assert s2.txs[u := At(Locked(w, false))] == s3.txs;
    assert Hop(s2, LockParent(u), s3, {}, true);
    NewSees(c, k, parent, Locked(w, false));
    assert s3.txs[u := At(Checked(w, false))] == s4.txs;
    assert Hop(s3, CheckOpposite(u), s4, {}, true);
    TwoHops(s2, LockParent(u), s3, {}, CheckOpposite(u), s4, {});
  }

  lemma WaitingWrites(c: Rows, u: Tx, k: Key, parent: nat)
    requires IsChild(k) && k !in c && ParentKey(k.table, parent) in c
    requires forall i <- c :: i.table == k.table ==> c[i] != parent
    ensures Leads(Beside(c, u, Checked(Write(k, parent, false), false)), [WriteRow(u), Commit(u)],
                  State(c[k := parent], map[], {}), multiset{k}, true)
  {
    var w := Write(k, parent, false);
    var s5, s6 := Beside(c, u, Checked(w, false)), State(c, map[u := Inserted(k, parent)], InsertLocks(u, k, parent));
    var s7 := State(c[k := parent], map[], {});
    NewSees(c, k, parent, Checked(w, false));
    StepWrite(Locking, s5, u, w, false);
    assert s5.txs[u := Inserted(k, parent)] == s6.txs && {} + s6.locks == s6.locks;
    assert Hop(s5, WriteRow(u), s6, {k}, true);
    StepCommit(Locking, s6, u, k, parent);
    assert s6.txs - {u} == map[] && (set l <- s6.locks | l.tx != u) == {};
    assert Hop(s6, Commit(u), s7, {}, true);
    TwoHops(s5, WriteRow(u), s6, {k}, Commit(u), s7, {});
  }

  // ---- The two races ---------------------------------------------------------------------------------

  /** While `u` has looked for a parent in vain, `t` makes that parent and a row of the other table. */
  function Overtaking(t: Tx, j: Key, u: Tx, parent: nat, v: nat): seq<Event> {
    Making(t, ParentKey(j.table, parent), v) + Inserting(t, j, parent) + [WriteRow(u), Commit(u)]
  }

  lemma Overtakes(c: Rows, t: Tx, j: Key, u: Tx, k: Key, parent: nat, v: nat)
    requires t != u && FreshPair(c, j, k, parent) && MayMake(c, ParentKey(j.table, parent), v)
    ensures var p := ParentKey(j.table, parent);
            Leads(Beside(c, u, Checked(Write(k, parent, false), false)), Overtaking(t, j, u, parent, v),
                  State(c[p := v][j := parent][k := parent], map[], {}), multiset{p, j, k}, true)
  {
    var p, stage := ParentKey(j.table, parent), Checked(Write(k, parent, false), false);
    var made, both := c[p := v], c[p := v][j := parent];
    MakeBeside(c, u, stage, t, p, v);
    InsertBeside(made, u, stage, t, j, parent);
    WaitingWrites(both, u, k, parent);
    Chain(Beside(c, u, stage), Making(t, p, v), Beside(made, u, stage), multiset{p}, true,
          Inserting(t, j, parent), Beside(both, u, stage), multiset{j}, true);
    Chain(Beside(c, u, stage), Making(t, p, v) + Inserting(t, j, parent), Beside(both, u, stage),
          multiset{p} + multiset{j}, true,
          [WriteRow(u), Commit(u)], State(both[k := parent], map[], {}), multiset{k}, true);
    assert multiset{p} + multiset{j} + multiset{k} == multiset{p, j, k};
  }

  function LateParent(t: Tx, j: Key, u: Tx, k: Key, parent: nat, v: nat): seq<Event> {
    [Begin(u)] + [StartInsert(u, k, parent)] + [LockParent(u), CheckOpposite(u)] + Overtaking(t, j, u, parent, v)
  }

  /** The lock alone does not help a child of a parent that is not committed yet, article or curation:
      whatever is in the tables, no key is used twice, and yet both rows are committed. Only the rule
      that writes name a parent they see is broken. */
  lemma LateParentRace(s: State, t: Tx, j: Key, u: Tx, k: Key, parent: nat, v: nat)
    requires Quiet(s) && t != u && FreshPair(s.committed, j, k, parent)
    requires MayMake(s.committed, ParentKey(j.table, parent), v)
    ensures var es := LateParent(t, j, u, k, parent, v);
            && IsRun(Locking, s, es) && FreshKeys(s, es, s.committed.Keys)
            && After(Locking, s, es).committed
               == s.committed[ParentKey(j.table, parent) := v][j := parent][k := parent]
            && !Exclusive(After(Locking, s, es).committed)
  {
    var c, p, w := s.committed, ParentKey(j.table, parent), Write(k, parent, false);
    WaitingStarts(c, u, k, parent);
    WaitingMisses(c, u, k, parent);
    Overtakes(c, t, j, u, k, parent, v);
    var a, b, rows := [Begin(u)] + [StartInsert(u, k, parent)], [LockParent(u), CheckOpposite(u)],
                      c[p := v][j := parent][k := parent];
    Chain(s, a, Beside(c, u, Started(w)), multiset{}, false, b, Beside(c, u, Checked(w, false)), multiset{}, true);
    Chain(s, a + b, Beside(c, u, Checked(w, false)), multiset{}, false,
          Overtaking(t, j, u, parent, v), State(rows, map[], {}), multiset{p, j, k}, true);
    MadeOnceIsFresh(s, LateParent(t, j, u, k, parent, v), c.Keys);
    assert j in rows && k in rows && rows[j] == rows[k];
  }

  function ReusedKey(t: Tx, j: Key, u: Tx, k: Key, parent: nat, v: nat): seq<Event> {
    [Begin(u)] + [StartInsert(u, k, parent)] + Deleting(t, ParentKey(j.table, parent)) +
    [LockParent(u), CheckOpposite(u)] + Overtaking(t, j, u, parent, v)
  }

  /** Nor does it help when a parent's key comes back after the parent was deleted: every write of this
      run names a parent its transaction sees, and yet both rows are committed. Only the rule that no
      key is used twice is broken. */
  lemma ReusedKeyRace(s: State, t: Tx, j: Key, u: Tx, k: Key, parent: nat)
    requires Quiet(s) && t != u && FreshPair(s.committed, j, k, parent)
    requires var p := ParentKey(j.table, parent); p in s.committed && MayMake(s.committed - {p}, p, s.committed[p])
    ensures var es := ReusedKey(t, j, u, k, parent, s.committed[ParentKey(j.table, parent)]);
            && IsRun(Locking, s, es) && SeesParents(s, es)
            && After(Locking, s, es).committed == s.committed[j := parent][k := parent]
            && !Exclusive(After(Locking, s, es).committed)
  {
    var c, p, w := s.committed, ParentKey(j.table, parent), Write(k, parent, false);
    var gone, v := c - {p}, c[p];
    WaitingStarts(c, u, k, parent);
    DeleteBeside(c, u, Started(w), t, p);
    WaitingMisses(gone, u, k, parent);
    Overtakes(gone, t, j, u, k, parent, v);
    assert gone[p := v] == c;
    var a, b, rows := [Begin(u)] + [StartInsert(u, k, parent)], [LockParent(u), CheckOpposite(u)],
                      c[j := parent][k := parent];
    Chain(s, a, Beside(c, u, Started(w)), multiset{}, true,
          Deleting(t, p), Beside(gone, u, Started(w)), multiset{}, true);
    Chain(s, a + Deleting(t, p), Beside(gone, u, Started(w)), multiset{}, true,
          b, Beside(gone, u, Checked(w, false)), multiset{}, true);
    Chain(s, a + Deleting(t, p) + b, Beside(gone, u, Checked(w, false)), multiset{}, true,
          Overtaking(t, j, u, parent, v), State(rows, map[], {}), multiset{p, j, k}, true);
    assert j in rows && k in rows && rows[j] == rows[k];
  }
}
