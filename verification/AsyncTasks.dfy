/** The asyncio machinery that the structured-concurrency helpers stand on: child tasks, gather, and
    the one coroutine that waits for them. What the outside world does is a list of events. */
module AsyncTasks {
  import opened Prelude

  datatype Exn = CancelledError | TimeoutError | OtherError(id: int)

  datatype Outcome<+V> = Value(v: V) | Threw(exn: Exn)

  /** `asked`: cancel() was called while the task was unfinished. */
  datatype Task<+V> = Task(result: Option<Outcome<V>>, asked: bool) {
    predicate Done() { result.Some? }
  }

  /** A child task ends; the waiting coroutine is cancelled from outside; the timer of its wait_for
      goes off; the event loop gets round to resuming it. */
  datatype Event<+V> = Ends(task: nat, how: Outcome<V>) | CancelOutside | TimerFires | Resume

  predicate AllDone<V>(tasks: seq<Task<V>>) {
    forall i :: 0 <= i < |tasks| ==> tasks[i].Done()
  }

  /** A task ends once; whatever else is said of it is ignored. */
  function Record<V>(tasks: seq<Task<V>>, e: Event<V>): (r: seq<Task<V>>)
    ensures |r| == |tasks|
  {
    if e.Ends? && e.task < |tasks| && !tasks[e.task].Done()
    then tasks[e.task := tasks[e.task].(result := Some(e.how))] else tasks
  }

  function AskAll<V>(tasks: seq<Task<V>>): seq<Task<V>> {
    seq(|tasks|, i requires 0 <= i < |tasks| => if tasks[i].Done() then tasks[i] else tasks[i].(asked := true))
  }

  function Fresh<V>(n: nat): seq<Task<V>> {
    seq(n, _ => Task(None, false))
  }

  // ---- gather ---------------------------------------------------------------------------------

  /** How awaiting a gather ends: every child has ended, or an exception is raised. */
  datatype Verdict = Complete | Failed(exn: Exn)

  /** `requested`: the gather itself was cancelled. `interrupted`: the cancellation came when the
      gather was already settled, so it hits the waiting coroutine instead. */
  datatype Gathering<V> = Gathering(tasks: seq<Task<V>>, verdict: Option<Verdict>, requested: bool, interrupted: bool) {
    ghost predicate Valid() {
      verdict.None? ==> !AllDone(tasks) && !interrupted
    }

    /** What the await gives once it is resumed. */
    function AtResume(): Option<Verdict> {
      if verdict.Some? && interrupted then Some(Failed(CancelledError)) else verdict
    }
  }

  /** The exception of the first child that has already failed. */
  function AlreadyThrown<V>(tasks: seq<Task<V>>): Option<Exn> {
    if tasks == [] then None
    else if tasks[0].Done() && tasks[0].result.value.Threw? then Some(tasks[0].result.value.exn)
    else AlreadyThrown(tasks[1..])
  }

  /** Children that have ended are accounted for at once, so the gather may be settled from the start.
      `keepGoing` is return_exceptions. */
  function StartGather<V>(tasks: seq<Task<V>>, keepGoing: bool): Gathering<V> {
    var thrown := AlreadyThrown(tasks);
    Gathering(tasks,
              if !keepGoing && thrown.Some? then Some(Failed(thrown.value))
              else if AllDone(tasks) then Some(Complete) else None,
              false, false)
  }

  function Settle<V>(tasks: seq<Task<V>>, keepGoing: bool, requested: bool, how: Outcome<V>): Option<Verdict> {
    if !keepGoing && how.Threw? then Some(Failed(how.exn))
    else if !AllDone(tasks) then None
    else Some(if requested then Failed(CancelledError) else Complete)
  }

  function React<V>(g: Gathering<V>, keepGoing: bool, e: Event<V>): Gathering<V> {
    match e
    case Ends(i, how) =>
      if i < |g.tasks| && !g.tasks[i].Done() then
        var tasks := Record(g.tasks, e);
        g.(tasks := tasks, verdict := if g.verdict.Some? then g.verdict else Settle(tasks, keepGoing, g.requested, how))
      else g
    case CancelOutside =>
      if g.verdict.None? then g.(requested := true, tasks := AskAll(g.tasks)) else g.(interrupted := true)
    case _ => g
  }

  /** Events are consumed until the waiting coroutine is resumed with a settled gather. */
  function Suspend<V>(g: Gathering<V>, keepGoing: bool, events: seq<Event<V>>):
    (r: (Gathering<V>, seq<Event<V>>, Option<Verdict>))
    ensures |r.1| <= |events| && r.1 == events[|events| - |r.1|..]
    decreases |events|
  {
    if events == [] then (g, [], None)
    else if events[0].Resume? && g.verdict.Some? then (g, events[1..], g.AtResume())
    else Suspend(React(g, keepGoing, events[0]), keepGoing, events[1..])
  }

  /** Awaiting a gather that is settled from the start does not suspend: no event comes between. */
  function Await<V>(tasks: seq<Task<V>>, keepGoing: bool, events: seq<Event<V>>):
    (r: (Gathering<V>, seq<Event<V>>, Option<Verdict>))
    ensures |r.1| <= |events| && r.1 == events[|events| - |r.1|..]
  {
    var g := StartGather(tasks, keepGoing);
    if g.verdict.Some? then (g, events, g.verdict) else Suspend(g, keepGoing, events)
  }

  /** The events an await has consumed. */
  function Used<V>(events: seq<Event<V>>, rest: seq<Event<V>>): seq<Event<V>>
    requires |rest| <= |events|
  {
    events[..|events| - |rest|]
  }

  // ---- what the events say --------------------------------------------------------------------

  predicate IsFailure<V>(tasks: seq<Task<V>>, e: Event<V>) {
    e.Ends? && e.task < |tasks| && !tasks[e.task].Done() && e.how.Threw?
  }

  /** The exception of the child that fails first. */
  function FirstFailure<V>(tasks: seq<Task<V>>, events: seq<Event<V>>): Option<Exn>
    decreases |events|
  {
    if events == [] then None
    else if IsFailure(tasks, events[0]) then Some(events[0].how.exn)
    else FirstFailure(Record(tasks, events[0]), events[1..])
  }

  ghost predicate CancelledAfterFailure<V>(tasks: seq<Task<V>>, events: seq<Event<V>>)
    decreases |events|
  {
    events != [] &&
    if IsFailure(tasks, events[0]) then CancelOutside in events[1..]
    else CancelledAfterFailure(Record(tasks, events[0]), events[1..])
  }

  /** How a task ends, if it does. */
  function EndOf<V>(events: seq<Event<V>>, i: nat): Option<Outcome<V>>
    decreases |events|
  {
    if events == [] then None
    else if events[0].Ends? && events[0].task == i then Some(events[0].how)
    else EndOf(events[1..], i)
  }

  /** What awaiting the children without return_exceptions must give: a cancellation that comes after
      the first failure hides it, one that comes before it does not. */
  ghost function ExpectedFirst<V>(tasks: seq<Task<V>>, used: seq<Event<V>>): Verdict {
    match FirstFailure(tasks, used)
    case Some(x) => if CancelledAfterFailure(tasks, used) then Failed(CancelledError) else Failed(x)
    case None => if CancelOutside in used then Failed(CancelledError) else Complete
  }

  ghost function ExpectedJoin<V>(used: seq<Event<V>>): Verdict {
    if CancelOutside in used then Failed(CancelledError) else Complete
  }

  // ---- the waiting keeps its records ------------------------------------------------------------

  lemma ReactKeeps<V>(g: Gathering<V>, keepGoing: bool, e: Event<V>)
    requires g.Valid()
    ensures React(g, keepGoing, e).Valid() && |React(g, keepGoing, e).tasks| == |g.tasks|
    ensures forall i :: 0 <= i < |g.tasks| ==>
      React(g, keepGoing, e).tasks[i].result == Record(g.tasks, e)[i].result
    ensures forall i :: 0 <= i < |g.tasks| ==> (g.tasks[i].asked ==> React(g, keepGoing, e).tasks[i].asked)
  {
    if e.CancelOutside? && g.verdict.None? {
      var i :| 0 <= i < |g.tasks| && !g.tasks[i].Done();
      assert !AskAll(g.tasks)[i].Done();
    }
  }

  lemma HeadOfUsed<V>(events: seq<Event<V>>, rest: seq<Event<V>>)
    requires |rest| < |events|
    ensures Used(events, rest) != [] && Used(events, rest)[0] == events[0]
    ensures Used(events, rest)[1..] == Used(events[1..], rest)
  {
  }

  /** The results after an await are the ends among the events consumed; no asked task is forgotten. */
  lemma {:induction false} SuspendRecords<V>(g: Gathering<V>, keepGoing: bool, events: seq<Event<V>>)
    requires g.Valid()
    ensures var (g2, rest, v) := Suspend(g, keepGoing, events);
            && g2.Valid() && |g2.tasks| == |g.tasks| && (v.None? ==> rest == [])
            && (v.Some? ==> g2.verdict.Some? && v == g2.AtResume())
            && (forall i :: 0 <= i < |g.tasks| ==>
                  g2.tasks[i].result == if g.tasks[i].Done() then g.tasks[i].result else EndOf(Used(events, rest), i))
            && (forall i :: 0 <= i < |g.tasks| ==> (g.tasks[i].asked ==> g2.tasks[i].asked))
    decreases |events|
  {
    if events != [] {
      var (g2, rest, v) := Suspend(g, keepGoing, events);
      HeadOfUsed(events, rest);
      if events[0].Resume? && g.verdict.Some? {
        assert Used(events, rest) == [Resume];
      } else {
        ReactKeeps(g, keepGoing, events[0]);
        SuspendRecords(React(g, keepGoing, events[0]), keepGoing, events[1..]);
      }
    }
  }

  /** Without return_exceptions a gather is complete only when everything ended well; with it, it is
      settled only when everything ended. */
  ghost predicate Settled<V>(g: Gathering<V>, keepGoing: bool) {
    && (g.verdict.Some? && (keepGoing || g.verdict.value.Complete?) ==> AllDone(g.tasks))
    && (g.verdict == Some(Complete) && !keepGoing ==> forall i :: 0 <= i < |g.tasks| ==> g.tasks[i].result.value.Value?)
    && (g.verdict.None? && !keepGoing ==>
          forall i :: 0 <= i < |g.tasks| && g.tasks[i].Done() ==> g.tasks[i].result.value.Value?)
  }

  lemma ReactSettles<V>(g: Gathering<V>, keepGoing: bool, e: Event<V>)
    requires g.Valid() && Settled(g, keepGoing)
    ensures Settled(React(g, keepGoing, e), keepGoing)
  {
  }

  lemma {:induction false} SuspendSettles<V>(g: Gathering<V>, keepGoing: bool, events: seq<Event<V>>)
    requires g.Valid() && Settled(g, keepGoing)
    ensures Settled(Suspend(g, keepGoing, events).0, keepGoing)
    decreases |events|
  {
    if events != [] && !(events[0].Resume? && g.verdict.Some?) {
      ReactKeeps(g, keepGoing, events[0]);
      ReactSettles(g, keepGoing, events[0]);
      SuspendSettles(React(g, keepGoing, events[0]), keepGoing, events[1..]);
    }
  }

  // ---- what an await gives ----------------------------------------------------------------------

  /** The expectation from the middle of an await. */
  ghost function ExpectedFrom<V>(g: Gathering<V>, keepGoing: bool, used: seq<Event<V>>): Verdict {
    var cancelled := CancelOutside in used;
    if g.verdict.Some? then
      if g.interrupted || cancelled then Failed(CancelledError) else g.verdict.value
    else if !keepGoing && FirstFailure(g.tasks, used).Some? then ExpectedFirst(g.tasks, used)
    else if g.requested || cancelled then Failed(CancelledError) else Complete
  }

  lemma {:induction false} SameRecords<V>(a: seq<Task<V>>, b: seq<Task<V>>, events: seq<Event<V>>)
    requires |a| == |b| && forall i :: 0 <= i < |a| ==> a[i].result == b[i].result
    ensures FirstFailure(a, events) == FirstFailure(b, events)
    ensures CancelledAfterFailure(a, events) == CancelledAfterFailure(b, events)
    decreases |events|
  {
    if events != [] && !IsFailure(a, events[0]) {
      SameRecords(Record(a, events[0]), Record(b, events[0]), events[1..]);
    }
  }

  lemma {:induction false} NothingLeftToFail<V>(tasks: seq<Task<V>>, events: seq<Event<V>>)
    requires AllDone(tasks)
    ensures FirstFailure(tasks, events).None?
    decreases |events|
  {
    if events != [] {
      NothingLeftToFail(tasks, events[1..]);
    }
  }

  lemma StepExpected<V>(g: Gathering<V>, keepGoing: bool, e: Event<V>, later: seq<Event<V>>)
    requires g.Valid()
    ensures ExpectedFrom(g, keepGoing, [e] + later) == ExpectedFrom(React(g, keepGoing, e), keepGoing, later)
  {
    var used, g2 := [e] + later, React(g, keepGoing, e);
    assert used[0] == e && used[1..] == later;
    assert CancelOutside in used <==> e.CancelOutside? || CancelOutside in later;
    ReactKeeps(g, keepGoing, e);
    if g.verdict.None? {
      SameRecords(g2.tasks, Record(g.tasks, e), later);
      if AllDone(g2.tasks) {
        NothingLeftToFail(g2.tasks, later);
      }
    }
  }

  /** An await that ends gives what its events call for. */
  lemma {:induction false} SuspendGives<V>(g: Gathering<V>, keepGoing: bool, events: seq<Event<V>>)
    requires g.Valid() && Suspend(g, keepGoing, events).2.Some?
    ensures var (_, rest, v) := Suspend(g, keepGoing, events);
            v == Some(ExpectedFrom(g, keepGoing, Used(events, rest)))
    decreases |events|
  {
    var (g2, rest, v) := Suspend(g, keepGoing, events);
    HeadOfUsed(events, rest);
    if events[0].Resume? && g.verdict.Some? {
      assert Used(events, rest) == [Resume];
    } else {
      ReactKeeps(g, keepGoing, events[0]);
      SuspendGives(React(g, keepGoing, events[0]), keepGoing, events[1..]);
      StepExpected(g, keepGoing, events[0], Used(events[1..], rest));
      assert Used(events, rest) == [events[0]] + Used(events[1..], rest);
    }
  }

  // ---- the same for an await as a whole -------------------------------------------------------------

  /** The results after an await are the ends among the events it has consumed, none if every child had
      ended; no task that was told to stop is forgotten. */
  lemma AwaitRecords<V>(tasks: seq<Task<V>>, keepGoing: bool, events: seq<Event<V>>)
    ensures var (g, rest, v) := Await(tasks, keepGoing, events);
            && |g.tasks| == |tasks| && (v.None? ==> rest == [])
            && (AllDone(tasks) ==> rest == events && g.tasks == tasks && v.Some?)
            && (forall i :: 0 <= i < |tasks| ==>
                  g.tasks[i].result == if tasks[i].Done() then tasks[i].result else EndOf(Used(events, rest), i))
            && (forall i :: 0 <= i < |tasks| ==> (tasks[i].asked ==> g.tasks[i].asked))
  {
    var start := StartGather(tasks, keepGoing);
    if start.verdict.None? {
      SuspendRecords(start, keepGoing, events);
    } else {
      assert Used(events, events) == [];
    }
  }

  lemma {:induction false} AlreadyThrownMeans<V>(tasks: seq<Task<V>>)
    ensures AlreadyThrown(tasks).None? <==>
            forall i :: 0 <= i < |tasks| && tasks[i].Done() ==> tasks[i].result.value.Value?
  {
    if tasks != [] {
      AlreadyThrownMeans(tasks[1..]);
      assert forall i :: 1 <= i < |tasks| ==> tasks[i] == tasks[1..][i - 1];
    }
  }

  /** Complete without return_exceptions means that all ended well; with it, that all ended. */
  lemma AwaitSettles<V>(tasks: seq<Task<V>>, keepGoing: bool, events: seq<Event<V>>)
    ensures var (g, _, v) := Await(tasks, keepGoing, events);
            && (v.Some? && (keepGoing || v.value.Complete?) ==> AllDone(g.tasks))
            && (v == Some(Complete) && !keepGoing ==> forall i :: 0 <= i < |g.tasks| ==> g.tasks[i].result.value.Value?)
  {
    var start := StartGather(tasks, keepGoing);
    AlreadyThrownMeans(tasks);
    if start.verdict.None? {
      SuspendRecords(start, keepGoing, events);
      SuspendSettles(start, keepGoing, events);
    }
  }

  /** An await that comes back gives what the events it has consumed call for. */
  lemma AwaitGives<V>(tasks: seq<Task<V>>, keepGoing: bool, events: seq<Event<V>>)
    requires Await(tasks, keepGoing, events).2.Some? && (keepGoing || AlreadyThrown(tasks).None?)
    ensures var (_, rest, v) := Await(tasks, keepGoing, events); var used := Used(events, rest);
            v == Some(if keepGoing then ExpectedJoin(used) else ExpectedFirst(tasks, used))
  {
    var start := StartGather(tasks, keepGoing);
    if start.verdict.None? {
      SuspendGives(start, keepGoing, events);
    } else {
      assert Used(events, events) == [];
      NothingLeftToFail(tasks, []);
    }
  }

  // ---- schedules on which nothing waits for ever ---------------------------------------------------

  function Resumes<V>(events: seq<Event<V>>): nat
    decreases |events|
  {
    if events == [] then 0 else (if events[0].Resume? then 1 else 0) + Resumes(events[1..])
  }

  /** Every unfinished task ends, cancelled or not, and the coroutine is resumed `n` times after that. */
  predicate Fair<V>(tasks: seq<Task<V>>, events: seq<Event<V>>, n: nat)
    decreases |events|
  {
    if AllDone(tasks) then Resumes(events) >= n
    else events != [] && Fair(Record(tasks, events[0]), events[1..], n)
  }

  lemma {:induction false} FairRecords<V>(a: seq<Task<V>>, b: seq<Task<V>>, events: seq<Event<V>>, m: nat, n: nat)
    requires |a| == |b| && forall i :: 0 <= i < |a| ==> a[i].result == b[i].result
    requires Fair(a, events, n) && m <= n
    ensures Fair(b, events, m)
    decreases |events|
  {
    if !AllDone(a) {
      FairRecords(Record(a, events[0]), Record(b, events[0]), events[1..], m, n);
    }
  }

  lemma FairStep<V>(g: Gathering<V>, keepGoing: bool, events: seq<Event<V>>, n: nat)
    requires g.Valid() && Fair(g.tasks, events, n + 1) && !(events != [] && events[0].Resume? && g.verdict.Some?)
    ensures events != [] && Fair(React(g, keepGoing, events[0]).tasks, events[1..], n + 1)
  {
    if AllDone(g.tasks) {
      ReactKeeps(g, keepGoing, events[0]);
    } else {
      ReactKeeps(g, keepGoing, events[0]);
      var next := Record(g.tasks, events[0]);
      FairRecords(next, React(g, keepGoing, events[0]).tasks, events[1..], n + 1, n + 1);
    }
  }

  /** On such a schedule an await ends, and what is left is such a schedule with one resumption less. */
  lemma {:induction false} FairSuspendEnds<V>(g: Gathering<V>, keepGoing: bool, events: seq<Event<V>>, n: nat)
    requires g.Valid() && Fair(g.tasks, events, n + 1)
    ensures var (g2, rest, v) := Suspend(g, keepGoing, events);
            v.Some? && Fair(g2.tasks, rest, n)
    decreases |events|
  {
    if events != [] && events[0].Resume? && g.verdict.Some? {
      if !AllDone(g.tasks) {
        assert Record(g.tasks, events[0]) == g.tasks;
        FairRecords(g.tasks, g.tasks, events[1..], n, n + 1);
      }
    } else {
      FairStep(g, keepGoing, events, n);
      ReactKeeps(g, keepGoing, events[0]);
      FairSuspendEnds(React(g, keepGoing, events[0]), keepGoing, events[1..], n);
    }
  }

  lemma FairAwaitEnds<V>(tasks: seq<Task<V>>, keepGoing: bool, events: seq<Event<V>>, n: nat)
    requires Fair(tasks, events, n + 1)
    ensures var (g, rest, v) := Await(tasks, keepGoing, events);
            v.Some? && Fair(g.tasks, rest, n)
  {
    var start := StartGather(tasks, keepGoing);
    if start.verdict.Some? {
      FairRecords(tasks, tasks, events, n, n + 1);
    } else {
      FairSuspendEnds(start, keepGoing, events, n);
    }
  }

  // ---- the loop as the code uses it ---------------------------------------------------------------

  class EventLoop<V> {
    var tasks: seq<Task<V>>
    var events: seq<Event<V>>

    constructor (events: seq<Event<V>>)
      ensures tasks == [] && this.events == events
    {
      tasks, this.events := [], events;
    }

    /** asyncio.ensure_future */
    method Spawn() returns (i: nat)
      modifies this`tasks
      ensures i == |old(tasks)| && tasks == old(tasks) + [Task(None, false)]
    {
      i := |tasks|;
      tasks := tasks + [Task(None, false)];
    }

    method Cancel(i: nat)
      requires i < |tasks| && !tasks[i].Done()
      modifies this`tasks
      ensures tasks == old(tasks)[i := old(tasks)[i].(asked := true)]
    {
      tasks := tasks[i := tasks[i].(asked := true)];
    }

    /** await asyncio.gather(*tasks, return_exceptions=keepGoing); None when it never comes back. */
    method Gather(keepGoing: bool) returns (r: Option<Verdict>)
      modifies this
      ensures var (g, rest, v) := Await(old(tasks), keepGoing, old(events));
              tasks == g.tasks && events == rest && r == v
    {
      var g := StartGather(tasks, keepGoing);
      if g.verdict.Some? {
        return g.verdict;
      }
      while events != [] && !(events[0].Resume? && g.verdict.Some?)
        invariant tasks == g.tasks
        invariant Suspend(g, keepGoing, events) == Await(old(tasks), keepGoing, old(events))
        decreases |events|
      {
        g := React(g, keepGoing, events[0]);
        tasks, events := g.tasks, events[1..];
      }
      if events == [] {
        return None;
      }
      events := events[1..];
      r := g.AtResume();
    }
  }
}
