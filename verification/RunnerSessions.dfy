/** Many sessions against one database: migration runners and plain online Alembic runs,
    interleaved call by call. The advisory lock belongs to a session and counts. */
module RunnerSessions {
  import opened Prelude
  import opened MigrationProtocol

  type Sid = nat

  /** What a session was started for. A plain run goes through env.py only. */
  datatype Job = Runner(target: string, expected: Option<string>) | Plain

  datatype Verdict = Running | Conflict | Applied | NotApplied | Crashed

  /** `start` and `again` are the two head reads before the upgrade, `end` the one after it. */
  datatype Sess = Sess(job: Job, phase: Phase, start: Option<string>, again: Option<string>,
                       end: Option<string>, verdict: Verdict)

  datatype Owner = Owner(sid: Sid, count: nat)

  datatype Change = Change(sid: Sid, from: string, to: string)

  datatype State = State(revision: string, owner: Option<Owner>, sessions: map<Sid, Sess>, log: seq<Change>)

  datatype Event = Do(sid: Sid, call: Call, to: string) | Refuse(sid: Sid) | Crash(sid: Sid)

  function Fresh(job: Job): Sess { Sess(job, Outside, None, None, None, Running) }

  ghost predicate IsStart(s: State) {
    && s.owner == None && s.log == []
    && (forall i <- s.sessions :: s.sessions[i] == Fresh(s.sessions[i].job))
  }

  /** A plain run takes the lock, runs scripts, and gives the lock back. */
  function NextPhase(x: Sess, c: Call): Option<Phase> {
    if x.job.Runner? then Advance(x.phase, c)
    else match (x.phase, c)
      case (Outside, Acquire) => Some(Holding)
      case (Holding, RunMigrations) => Some(Holding)
      case (Holding, Release) => Some(Released)
      case _ => None
  }

  /** The lock is granted to a free session, or again to its owner. */
  predicate LockGrants(s: State, i: Sid) {
    s.owner == None || s.owner.value.sid == i
  }

  /** The checks between the head reads and the upgrade. */
  predicate ChecksPass(x: Sess, c: Call) {
    && (c.LoadPending? ==> x.job.Runner? && x.job.expected in {None, x.start})
  }

  predicate Enabled(s: State, e: Event) {
    && e.sid in s.sessions && s.sessions[e.sid].verdict.Running?
    && var x := s.sessions[e.sid];
       match e
       case Do(i, c, _) =>
         && NextPhase(x, c).Some? && ChecksPass(x, c)
         && (c.Acquire? || c.AcquireNested? ==> LockGrants(s, i))
       case Refuse(i) => x.phase.Outside? && !LockGrants(s, i)
       case Crash(i) => true
  }

  function Observe(x: Sess, c: Call, revision: string): Sess {
    if c.ReadHeads? then
      if x.phase.Holding? then x.(start := Some(revision)) else x.(end := Some(revision))
    else if c.LoadPending? then x.(again := Some(revision))
    else if c.Release? then
      x.(verdict := if x.phase.Reread? && x.job.Runner? && x.end == Some(x.job.target) then Applied else NotApplied)
    else x
  }

  function OwnerAfter(s: State, i: Sid, c: Call): Option<Owner> {
    var count := if s.owner.Some? then s.owner.value.count else 0;
    if c.Acquire? || c.AcquireNested? then Some(Owner(i, count + 1))
    else if c.Release? || c.ReleaseNested? then if count <= 1 then None else Some(Owner(i, count - 1))
    else s.owner
  }

  function Apply(s: State, e: Event): State
    requires Enabled(s, e)
  {
    var x := s.sessions[e.sid];
    match e
    case Do(i, c, to) =>
      State(if c.RunMigrations? then to else s.revision,
            OwnerAfter(s, i, c),
            s.sessions[i := Observe(x, c, s.revision).(phase := NextPhase(x, c).value)],
            if c.RunMigrations? then s.log + [Change(i, s.revision, to)] else s.log)
    case Refuse(i) => s.(sessions := s.sessions[i := x.(verdict := Conflict)])
    case Crash(i) =>
      // The server drops the session's locks with the session.
      s.(owner := if s.owner.Some? && s.owner.value.sid == i then None else s.owner,
         sessions := s.sessions[i := x.(phase := Released, verdict := Crashed)])
  }

  predicate IsRun(s: State, es: seq<Event>)
    decreases |es|
  {
    es == [] || (Enabled(s, es[0]) && IsRun(Apply(s, es[0]), es[1..]))
  }

  function After(s: State, es: seq<Event>): State
    requires IsRun(s, es)
    decreases |es|
  {
    if es == [] then s else After(Apply(s, es[0]), es[1..])
  }

  // ---- Invariant ------------------------------------------------------------------------------

  /** The lock is held exactly by a session inside the protocol, as often as its phase says. */
  ghost predicate HoldsAsPhaseSays(s: State) {
    && (forall i <- s.sessions :: Depth(s.sessions[i].phase) > 0 ==>
          s.owner == Some(Owner(i, Depth(s.sessions[i].phase))))
    && (s.owner.Some? ==> s.owner.value.sid in s.sessions && Depth(s.sessions[s.owner.value.sid].phase) > 0)
  }

  predicate Chained(log: seq<Change>, from: string, to: string) {
    if log == [] then from == to
    else log[|log| - 1].to == to && Chained(log[..|log| - 1], from, log[|log| - 1].from)
  }

  /** What the two reads before the upgrade say, and what the session itself has changed. */
  ghost predicate ReadsOk(s: State, i: Sid, x: Sess) {
    x.job.Runner? ==>
      && (x.phase in {HeadsRead, PendingRead, Nested} ==> x.start == Some(s.revision))
      && (x.phase in {PendingRead, Nested, Migrated, NestedReleased, Reread} ==>
            x.again == x.start && x.start.Some? && x.job.expected in {None, x.start})
      && (x.phase in {Outside, Holding, HeadsRead, PendingRead, Nested} ==> forall c <- s.log :: c.sid != i)
      && (x.phase in {Migrated, NestedReleased, Reread} ==> OneChange(s.log, i, x.start, s.revision))
      && (x.phase.Reread? ==> x.end == Some(s.revision))
      && (x.verdict.Applied? ==> AppliedOk(s.log, i, x))
  }

  /** Exactly one entry of the log is this session's, and it leads from `from` to `to`. */
  ghost predicate OneChange(log: seq<Change>, i: Sid, from: Option<string>, to: string) {
    && from.Some?
    && (exists k :: 0 <= k < |log| && log[k] == Change(i, from.value, to))
    && (forall j, k :: 0 <= j < k < |log| ==> !(log[j].sid == i && log[k].sid == i))
  }

  ghost predicate AppliedOk(log: seq<Change>, i: Sid, x: Sess) {
    && x.job.Runner? && x.again == x.start && x.job.expected in {None, x.start}
    && OneChange(log, i, x.start, x.job.target)
  }

  ghost predicate Inv(s: State, initial: string) {
    && HoldsAsPhaseSays(s)
    && Chained(s.log, initial, s.revision)
    && (forall i <- s.sessions :: ReadsOk(s, i, s.sessions[i]))
    && (forall i <- s.sessions ::
          s.sessions[i].verdict in {Applied, NotApplied, Crashed} ==> s.sessions[i].phase.Released?)
    && (forall i <- s.sessions :: s.sessions[i].verdict.Conflict? ==> s.sessions[i].phase.Outside?)
  }

  lemma OneChangeAppends(log: seq<Change>, i: Sid, from: Option<string>, to: string, c: Change)
    requires OneChange(log, i, from, to) && c.sid != i
    ensures OneChange(log + [c], i, from, to)
  {
    var k :| 0 <= k < |log| && log[k] == Change(i, from.value, to);
    assert (log + [c])[k] == Change(i, from.value, to);
  }

  lemma OwnMigration(s: State, e: Event)
    requires Enabled(s, e) && e.Do? && e.call.RunMigrations? && ReadsOk(s, e.sid, s.sessions[e.sid])
    requires s.sessions[e.sid].verdict.Running?
    ensures ReadsOk(Apply(s, e), e.sid, Apply(s, e).sessions[e.sid])
  {
    assert Apply(s, e).log[|s.log|] == Change(e.sid, s.revision, e.to);
  }

  lemma OthersMigration(s: State, e: Event, i: Sid)
    requires HoldsAsPhaseSays(s) && Enabled(s, e) && e.Do? && e.call.RunMigrations?
    requires i in s.sessions && i != e.sid && ReadsOk(s, i, s.sessions[i])
    ensures ReadsOk(Apply(s, e), i, Apply(s, e).sessions[i])
  {
    var y := s.sessions[i];
    assert Depth(y.phase) == 0;
    if y.job.Runner? && y.verdict.Applied? {
      OneChangeAppends(s.log, i, y.start, y.job.target, Change(e.sid, s.revision, e.to));
    }
  }

  /** Scripts run only under the lock, so no other session is between its reads. */
  lemma MigrateKeeps(s: State, e: Event, initial: string)
    requires Inv(s, initial) && Enabled(s, e) && e.Do? && e.call.RunMigrations?
    ensures Inv(Apply(s, e), initial)
  {
    var s2 := Apply(s, e);
    assert s2.log[..|s2.log| - 1] == s.log;
    CallKeepsHolding(s, e);
    forall i | i in s2.sessions
      ensures ReadsOk(s2, i, s2.sessions[i])
    {
      assert ReadsOk(s, i, s.sessions[i]);
      if i == e.sid {
        OwnMigration(s, e);
      } else {
        OthersMigration(s, e, i);
      }
    }
  }

  lemma CallKeepsHolding(s: State, e: Event)
    requires HoldsAsPhaseSays(s) && Enabled(s, e) && e.Do?
    ensures HoldsAsPhaseSays(Apply(s, e))
  {
  }

  lemma OwnReadsStayOk(s: State, e: Event)
    requires HoldsAsPhaseSays(s) && Enabled(s, e) && e.Do? && !e.call.RunMigrations?
    requires ReadsOk(s, e.sid, s.sessions[e.sid])
    ensures ReadsOk(Apply(s, e), e.sid, Apply(s, e).sessions[e.sid])
  {
  }

  lemma OtherCallKeeps(s: State, e: Event, initial: string)
    requires Inv(s, initial) && Enabled(s, e) && e.Do? && !e.call.RunMigrations?
    ensures Inv(Apply(s, e), initial)
  {
    var s2 := Apply(s, e);
    CallKeepsHolding(s, e);
    OwnReadsStayOk(s, e);
    forall i | i in s2.sessions && i != e.sid
      ensures ReadsOk(s2, i, s2.sessions[i])
    {
      assert ReadsOk(s, i, s.sessions[i]);
    }
  }

  lemma StepKeeps(s: State, e: Event, initial: string)
    requires Inv(s, initial) && Enabled(s, e)
    ensures Inv(Apply(s, e), initial)
  {
    if e.Do? {
      if e.call.RunMigrations? {
        MigrateKeeps(s, e, initial);
      } else {
        OtherCallKeeps(s, e, initial);
      }
    } else {
      var s2 := Apply(s, e);
      forall i | i in s2.sessions
        ensures ReadsOk(s2, i, s2.sessions[i])
      {
        assert ReadsOk(s, i, s.sessions[i]);
      }
    }
  }

  lemma {:induction false} RunKeeps(s: State, es: seq<Event>, initial: string)
    requires Inv(s, initial) && IsRun(s, es)
    ensures Inv(After(s, es), initial)
    decreases |es|
  {
    if es != [] {
      StepKeeps(s, es[0], initial);
      RunKeeps(Apply(s, es[0]), es[1..], initial);
    }
  }

  // ---- What every run promises --------------------------------------------------------------------

  /** The revision changes only in a step of the session that holds the lock, and at most one
      session is inside the protocol. */
  lemma RevisionChangesUnderLock(s: State, es: seq<Event>, e: Event)
    requires IsStart(s) && IsRun(s, es) && Enabled(After(s, es), e)
    ensures var now := After(s, es);
            && (Apply(now, e).revision != now.revision ==> now.owner.Some? && now.owner.value.sid == e.sid)
            && (forall i, j | i in now.sessions && j in now.sessions ::
                  Depth(now.sessions[i].phase) > 0 && Depth(now.sessions[j].phase) > 0 ==> i == j)
  {
    RunKeeps(s, es, s.revision);
  }

  /** A runner that reports "applied" moved the database from the revision it validated to its
      target, in one change; both head reads before the upgrade saw that revision. */
  lemma AppliedMeansMoved(s: State, es: seq<Event>, i: Sid)
    requires IsStart(s) && IsRun(s, es)
    requires i in After(s, es).sessions && After(s, es).sessions[i].verdict.Applied?
    ensures var now := After(s, es); var x := now.sessions[i];
            && x.job.Runner? && x.again == x.start && x.job.expected in {None, x.start}
            && OneChange(now.log, i, x.start, x.job.target)
  {
    RunKeeps(s, es, s.revision);
    assert ReadsOk(After(s, es), i, After(s, es).sessions[i]);
    assert After(s, es).sessions[i].job.Runner? by {
      AppliedIsRunner(s, es, i);
    }
  }

  lemma {:induction false} AppliedIsRunner(s: State, es: seq<Event>, i: Sid)
    requires IsRun(s, es) && i in After(s, es).sessions && After(s, es).sessions[i].verdict.Applied?
    requires forall j <- s.sessions :: s.sessions[j].verdict.Applied? ==> s.sessions[j].job.Runner?
    ensures After(s, es).sessions[i].job.Runner?
    decreases |es|
  {
    if es != [] {
      AppliedIsRunner(Apply(s, es[0]), es[1..], i);
    }
  }

  /** The recorded changes lead from the first revision to the last without a gap. */
  lemma ChangesChain(s: State, es: seq<Event>)
    requires IsStart(s) && IsRun(s, es)
    ensures Chained(After(s, es).log, s.revision, After(s, es).revision)
  {
    RunKeeps(s, es, s.revision);
  }

  /** Between its reads and the start of its upgrade a runner sees no change at all. */
  lemma ReadsAgree(s: State, es: seq<Event>, i: Sid)
    requires IsStart(s) && IsRun(s, es) && i in After(s, es).sessions
    requires After(s, es).sessions[i].job.Runner? && After(s, es).sessions[i].phase in {PendingRead, Nested}
    ensures var x := After(s, es).sessions[i]; x.start == x.again == Some(After(s, es).revision)
  {
    RunKeeps(s, es, s.revision);
    assert ReadsOk(After(s, es), i, After(s, es).sessions[i]);
  }

  /** The nested acquisition is granted whatever the other sessions do, and until the outer release
      everybody else who tries is refused. */
  lemma NestedIsGranted(s: State, es: seq<Event>, i: Sid, j: Sid, to: string)
    requires IsStart(s) && IsRun(s, es) && i in After(s, es).sessions && j in After(s, es).sessions && i != j
    requires After(s, es).sessions[i].phase.PendingRead? && After(s, es).sessions[i].job.Runner?
    requires After(s, es).sessions[i].verdict.Running?
    requires After(s, es).sessions[j].phase.Outside? && After(s, es).sessions[j].verdict.Running?
    ensures Enabled(After(s, es), Do(i, AcquireNested, to))
    ensures !Enabled(After(s, es), Do(j, Acquire, to)) && Enabled(After(s, es), Refuse(j))
    ensures var nested := Apply(After(s, es), Do(i, AcquireNested, to));
            nested.owner == Some(Owner(i, 2)) && !Enabled(nested, Do(j, Acquire, to)) && Enabled(nested, Refuse(j))
  {
    RunKeeps(s, es, s.revision);
  }

  // ---- Who gets in ----------------------------------------------------------------------------------

  /** Some session is between taking the lock and giving it back. */
  ghost predicate SomebodyInside(s: State) {
    exists i <- s.sessions :: Depth(s.sessions[i].phase) > 0
  }

  /** A session that has not started yet gets in exactly when nobody is inside, and is refused at once
      exactly when somebody is: nobody waits, and nobody is kept out by a session that is over. */
  lemma GetsInIffNobodyInside(s: State, es: seq<Event>, i: Sid, to: string)
    requires IsStart(s) && IsRun(s, es) && i in After(s, es).sessions
    requires After(s, es).sessions[i].phase.Outside? && After(s, es).sessions[i].verdict.Running?
    ensures Enabled(After(s, es), Do(i, Acquire, to)) <==> !SomebodyInside(After(s, es))
    ensures Enabled(After(s, es), Refuse(i)) <==> SomebodyInside(After(s, es))
  {
    RunKeeps(s, es, s.revision);
    var now := After(s, es);
    if now.owner.Some? {
      assert Depth(now.sessions[now.owner.value.sid].phase) > 0;
    }
  }

  /** A session that dies, wherever it is, lets the next one in. */
  lemma CrashFreesTheLock(s: State, es: seq<Event>, i: Sid, j: Sid, to: string)
    requires IsStart(s) && IsRun(s, es) && i in After(s, es).sessions && j in After(s, es).sessions && i != j
    requires Depth(After(s, es).sessions[i].phase) > 0 && Enabled(After(s, es), Crash(i))
    requires After(s, es).sessions[j].phase.Outside? && After(s, es).sessions[j].verdict.Running?
    ensures !Enabled(After(s, es), Do(j, Acquire, to))
    ensures Enabled(Apply(After(s, es), Crash(i)), Do(j, Acquire, to))
  {
    RunKeeps(s, es, s.revision);
  }

  function Undisturbed(i: Sid, to: string): seq<Event> {
    [Do(i, Acquire, to), Do(i, ReadHeads, to), Do(i, LoadPending, to), Do(i, AcquireNested, to)] +
    [Do(i, RunMigrations, to), Do(i, ReleaseNested, to), Do(i, ReadHeads, to), Do(i, Release, to)]
  }

  lemma {:induction false} RunInTwo(s: State, a: seq<Event>, b: seq<Event>)
    requires IsRun(s, a) && IsRun(After(s, a), b)
    ensures IsRun(s, a + b) && After(s, a + b) == After(After(s, a), b)
    decreases |a|
  {
    if a == [] {
      assert a + b == b;
    } else {
      RunInTwo(Apply(s, a[0]), a[1..], b);
      assert (a + b)[1..] == a[1..] + b;
    }
  }

  lemma OneMore(s: State, e: Event, es: seq<Event>)
    requires Enabled(s, e) && IsRun(Apply(s, e), es)
    ensures IsRun(s, [e] + es) && After(s, [e] + es) == After(Apply(s, e), es)
  {
    assert ([e] + es)[1..] == es;
  }

  lemma ThreeSteps(s: State, a: Event, b: Event, c: Event)
    requires Enabled(s, a) && Enabled(Apply(s, a), b) && Enabled(Apply(Apply(s, a), b), c)
    ensures IsRun(s, [a, b, c]) && After(s, [a, b, c]) == Apply(Apply(Apply(s, a), b), c)
  {
    var s2 := Apply(Apply(s, a), b);
    OneMore(s2, c, []);
    OneMore(Apply(s, a), b, [c]);
    OneMore(s, a, [b, c]);
    assert [c] + [] == [c] && [b] + [c] == [b, c] && [a] + [b, c] == [a, b, c];
  }

  lemma FourSteps(s: State, a: Event, b: Event, c: Event, d: Event)
    requires Enabled(s, a) && Enabled(Apply(s, a), b)
    requires var t := Apply(Apply(s, a), b); Enabled(t, c) && Enabled(Apply(t, c), d)
    ensures IsRun(s, [a, b, c, d]) && After(s, [a, b, c, d]) == Apply(Apply(Apply(Apply(s, a), b), c), d)
  {
    ThreeSteps(Apply(s, a), b, c, d);
    OneMore(s, a, [b, c, d]);
    assert [a] + [b, c, d] == [a, b, c, d];
  }

  /** The lock is held once, the checks are passed, and it is held a second time. */
  function HalfWay(s: State, i: Sid): State
    requires i in s.sessions
  {
    s.(owner := Some(Owner(i, 2)),
       sessions := s.sessions[i := s.sessions[i].(phase := Nested, start := Some(s.revision),
                                                  again := Some(s.revision))])
  }

  lemma UndisturbedFirst(s: State, i: Sid, to: string)
    requires s.owner == None && i in s.sessions && s.sessions[i] == Fresh(s.sessions[i].job)
    requires s.sessions[i].job.Runner? && s.sessions[i].job.expected in {None, Some(s.revision)}
    ensures var es := Undisturbed(i, to)[..4]; IsRun(s, es) && After(s, es) == HalfWay(s, i)
  {
    var a, b, c, d := Do(i, Acquire, to), Do(i, ReadHeads, to), Do(i, LoadPending, to), Do(i, AcquireNested, to);
    var s1 := Apply(s, a);
    assert s1.owner == Some(Owner(i, 1)) && s1.sessions[i].phase.Holding?;
    var s2 := Apply(s1, b);
    assert s2.sessions[i].phase.HeadsRead? && s2.sessions[i].start == Some(s.revision);
    var s3 := Apply(s2, c);
    assert s3.sessions[i].phase.PendingRead? && s3.owner == Some(Owner(i, 1));
    FourSteps(s, a, b, c, d);
    assert Apply(s3, d).sessions == HalfWay(s, i).sessions;
    assert Undisturbed(i, to)[..4] == [a, b, c, d];
  }

  lemma UndisturbedLast(s: State, i: Sid, to: string)
    requires s.owner == Some(Owner(i, 2)) && i in s.sessions && s.sessions[i].verdict.Running?
    requires s.sessions[i].job.Runner? && s.sessions[i].phase.Nested?
    ensures var es := Undisturbed(i, to)[4..];
            && IsRun(s, es)
            && var last := After(s, es);
               && last.revision == to && last.owner == None && last.log == s.log + [Change(i, s.revision, to)]
               && last.sessions.Keys == s.sessions.Keys
               && last.sessions[i].verdict == (if to == s.sessions[i].job.target then Applied else NotApplied)
               && last.sessions[i].end == Some(to)
  {
    var a, b, c, d := Do(i, RunMigrations, to), Do(i, ReleaseNested, to), Do(i, ReadHeads, to), Do(i, Release, to);
    var s1 := Apply(s, a);
    assert s1.sessions[i].phase.Migrated? && s1.revision == to;
    var s2 := Apply(s1, b);
    assert s2.sessions[i].phase.NestedReleased? && s2.owner == Some(Owner(i, 1));
    var s3 := Apply(s2, c);
    assert s3.sessions[i].phase.Reread? && s3.sessions[i].end == Some(to);
    FourSteps(s, a, b, c, d);
    assert Undisturbed(i, to)[4..] == [a, b, c, d];
  }

  /** A runner that nobody disturbs and whose start revision is the expected one gets through: the database
      moves in one change, the lock is free again, and "applied" is reported exactly if the scripts led to
      the target. */
  lemma UndisturbedRunnerApplies(s: State, i: Sid, to: string)
    requires s.owner == None && i in s.sessions && s.sessions[i] == Fresh(s.sessions[i].job)
    requires s.sessions[i].job.Runner? && s.sessions[i].job.expected in {None, Some(s.revision)}
    ensures var es := Undisturbed(i, to);
            && IsRun(s, es)
            && var last := After(s, es);
               && last.revision == to && last.owner == None && last.log == s.log + [Change(i, s.revision, to)]
               && i in last.sessions && last.sessions[i].start == last.sessions[i].again == Some(s.revision)
               && last.sessions[i].verdict == (if to == s.sessions[i].job.target then Applied else NotApplied)
  {
    var es := Undisturbed(i, to);
    UndisturbedFirst(s, i, to);
    UndisturbedLast(HalfWay(s, i), i, to);
    assert es == es[..4] + es[4..];
    RunInTwo(s, es[..4], es[4..]);
    StartStays(HalfWay(s, i), es[4..], i);
  }

  /** After its reads a runner does not read its start again. */
  lemma {:induction false} StartStays(s: State, es: seq<Event>, i: Sid)
    requires IsRun(s, es) && i in s.sessions && s.sessions[i].job.Runner?
    requires s.sessions[i].phase in {Nested, Migrated, NestedReleased, NestedFailed, Reread, Released}
    ensures i in After(s, es).sessions
    ensures After(s, es).sessions[i].start == s.sessions[i].start
    ensures After(s, es).sessions[i].again == s.sessions[i].again
    decreases |es|
  {
    if es != [] {
      StartStays(Apply(s, es[0]), es[1..], i);
    }
  }

  /** An expected start revision that is not the current one keeps the runner from even listing the range. */
  lemma WrongStartStops(s: State, es: seq<Event>, i: Sid, to: string)
    requires IsStart(s) && IsRun(s, es) && i in After(s, es).sessions
    requires var x := After(s, es).sessions[i]; x.job.Runner? && x.phase.HeadsRead? && x.verdict.Running?
    ensures Enabled(After(s, es), Do(i, LoadPending, to)) <==>
            After(s, es).sessions[i].job.expected in {None, Some(After(s, es).revision)}
  {
    RunKeeps(s, es, s.revision);
    assert ReadsOk(After(s, es), i, After(s, es).sessions[i]);
  }

  /** A plain run needs nothing but the lock. */
  lemma UndisturbedPlainRun(s: State, i: Sid, to: string)
    requires s.owner == None && i in s.sessions && s.sessions[i] == Fresh(Plain)
    ensures var es := [Do(i, Acquire, to), Do(i, RunMigrations, to), Do(i, Release, to)];
            && IsRun(s, es)
            && After(s, es).revision == to && After(s, es).owner == None
            && After(s, es).log == s.log + [Change(i, s.revision, to)]
  {
    var a, b, c := Do(i, Acquire, to), Do(i, RunMigrations, to), Do(i, Release, to);
    var s1 := Apply(s, a);
    assert s1.owner == Some(Owner(i, 1)) && s1.sessions[i].phase.Holding?;
    var s2 := Apply(s1, b);
    assert s2.sessions[i].phase.Holding? && Enabled(s2, c);
    ThreeSteps(s, a, b, c);
  }
}
