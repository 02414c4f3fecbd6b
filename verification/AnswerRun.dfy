/** _answer_while_organizing: an answer streams while a child task organizes what the next research
    needs. Whatever happens to the child, it is over when the answer is handed on. */
module AnswerRun {
  import opened Prelude
  import opened AsyncTasks

  // ---- asyncio.wait_for -------------------------------------------------------------------------

  /** `expired`: the timer went off. `outside`: cancelled from outside. Either is passed on to the
      task; if that has ended already, it hits the waiting coroutine (`interrupted`). */
  datatype Wait<H> = Wait(task: Task<H>, expired: bool, outside: bool, interrupted: bool) {
    function Interrupt(): Wait<H> {
      if task.Done() then this.(interrupted := true) else this.(task := task.(asked := true))
    }

    /** A cancellation that only the timer caused becomes a TimeoutError. */
    function Result(): Outcome<H>
      requires task.Done()
    {
      if !interrupted && (task.result.value.Value? || task.result.value.exn != CancelledError) then task.result.value
      else Threw(if expired && !outside then TimeoutError else CancelledError)
    }
  }

  function WaitReact<H>(w: Wait<H>, e: Event<H>): Wait<H> {
    match e
    case Ends(i, how) => if i == 0 && !w.task.Done() then w.(task := w.task.(result := Some(how))) else w
    case CancelOutside => w.(outside := true).Interrupt()
    case TimerFires => if w.expired then w else w.(expired := true).Interrupt()
    case Resume => w
  }

  function WaitLoop<H>(w: Wait<H>, events: seq<Event<H>>): (r: (Wait<H>, seq<Event<H>>, Option<Outcome<H>>))
    ensures |r.1| <= |events| && r.1 == events[|events| - |r.1|..]
    decreases |events|
  {
    if events == [] then (w, [], None)
    else if events[0].Resume? && w.task.Done() then (w, events[1..], Some(w.Result()))
    else WaitLoop(WaitReact(w, events[0]), events[1..])
  }

  /** An ended task is not waited for at all. */
  function WaitFor<H>(task: Task<H>, events: seq<Event<H>>): (Wait<H>, seq<Event<H>>, Option<Outcome<H>>) {
    var w := Wait(task, false, false, false);
    if task.Done() then (w, events, task.result) else WaitLoop(w, events)
  }

  /** Something cancels the wait after the task has ended. */
  predicate CancelledAfterEnd<H>(done: bool, expired: bool, events: seq<Event<H>>)
    decreases |events|
  {
    events != [] &&
    match events[0]
    case Ends(i, _) => CancelledAfterEnd(done || i == 0, expired, events[1..])
    case CancelOutside => done || CancelledAfterEnd(done, expired, events[1..])
    case TimerFires => (done && !expired) || CancelledAfterEnd(done, true, events[1..])
    case Resume => CancelledAfterEnd(done, expired, events[1..])
  }

  ghost predicate Timely<H>(end: Outcome<H>, done: bool, used: seq<Event<H>>) {
    !CancelledAfterEnd(done, false, used) && (end.Value? || end.exn != CancelledError)
  }

  /** What the wait must give, from any point of it on. */
  ghost function ExpectedFrom<H>(w: Wait<H>, end: Outcome<H>, used: seq<Event<H>>): Outcome<H> {
    if !w.interrupted && !CancelledAfterEnd(w.task.Done(), w.expired, used)
       && (end.Value? || end.exn != CancelledError) then end
    else
      Threw(if (w.expired || TimerFires in used) && !(w.outside || CancelOutside in used) then TimeoutError
            else CancelledError)
  }

  function EndFrom<H>(task: Task<H>, used: seq<Event<H>>): Option<Outcome<H>> {
    if task.Done() then task.result else EndOf(used, 0)
  }

  lemma StepExpected<H>(w: Wait<H>, e: Event<H>, later: seq<Event<H>>)
    requires EndFrom(w.task, [e] + later).Some?
    ensures var end, w2 := EndFrom(w.task, [e] + later), WaitReact(w, e);
            && EndFrom(w2.task, later) == end
            && ExpectedFrom(w, end.value, [e] + later) == ExpectedFrom(w2, end.value, later)
  {
    var used := [e] + later;
    assert used[0] == e && used[1..] == later;
    assert CancelOutside in used <==> e.CancelOutside? || CancelOutside in later;
    assert TimerFires in used <==> e.TimerFires? || TimerFires in later;
  }

  lemma AtOnce<H>(w: Wait<H>, used: seq<Event<H>>)
    requires w.task.Done() && |used| == 1 && used[0] == Resume
    ensures ExpectedFrom(w, w.task.result.value, used) == w.Result() && EndFrom(w.task, used) == w.task.result
  {
    assert used[1..] == [];
    assert !CancelledAfterEnd(true, w.expired, used);
    assert forall e <- used :: e == Resume;
  }

  lemma {:induction false} WaitGives<H>(w: Wait<H>, events: seq<Event<H>>)
    ensures var (w2, rest, v) := WaitLoop(w, events);
            && (v.None? ==> rest == [])
            && w2.task.result == EndFrom(w.task, Used(events, rest))
            && (v.Some? ==> w2.task.Done() && v == Some(ExpectedFrom(w, w2.task.result.value, Used(events, rest))))
    decreases |events|
  {
    if events != [] {
      var (w2, rest, v) := WaitLoop(w, events);
      HeadOfUsed(events, rest);
      if events[0].Resume? && w.task.Done() {
        AtOnce(w, Used(events, rest));
      } else {
        WaitGives(WaitReact(w, events[0]), events[1..]);
        assert Used(events, rest) == [events[0]] + Used(events[1..], rest);
        if v.Some? {
          StepExpected(w, events[0], Used(events[1..], rest));
        }
      }
    }
  }

  /** The timer or somebody outside speaks up before the task ends. */
  ghost predicate ToldInTime<H>(used: seq<Event<H>>) {
    exists i :: 0 <= i < |used| && (used[i].TimerFires? || used[i].CancelOutside?) && EndOf(used[..i], 0).None?
  }

  lemma ToldNow<H>(e: Event<H>, later: seq<Event<H>>)
    requires e.TimerFires? || e.CancelOutside?
    ensures ToldInTime([e] + later)
  {
    assert ([e] + later)[0] == e && ([e] + later)[..0] == [];
  }

  lemma ToldLater<H>(e: Event<H>, later: seq<Event<H>>)
    requires !e.TimerFires? && !e.CancelOutside?
    ensures ToldInTime([e] + later) <==> !(e.Ends? && e.task == 0) && ToldInTime(later)
  {
    var used := [e] + later;
    forall i | 0 <= i < |later|
      ensures used[i + 1] == later[i]
      ensures EndOf(used[..i + 1], 0).None? <==> !(e.Ends? && e.task == 0) && EndOf(later[..i], 0).None?
    {
      assert used[..i + 1] == [e] + later[..i];
      assert used[..i + 1][1..] == later[..i];
    }
    if ToldInTime(used) {
      var i :| 0 <= i < |used| && (used[i].TimerFires? || used[i].CancelOutside?) && EndOf(used[..i], 0).None?;
      assert later[i - 1] == used[i - 1 + 1];
    }
  }

  /** A task that is still running when the timer goes off, or when the waiting coroutine is cancelled, is told
      to stop; nobody else is. */
  lemma {:induction false} LateTaskIsTold<H>(w: Wait<H>, events: seq<Event<H>>)
    requires w.expired ==> w.task.asked || w.task.Done()
    ensures var (w2, rest, _) := WaitLoop(w, events);
            w2.task.asked <==> w.task.asked || (!w.task.Done() && ToldInTime(Used(events, rest)))
    decreases |events|
  {
    var (w2, rest, v) := WaitLoop(w, events);
    if events == [] || (events[0].Resume? && w.task.Done()) {
      if events == [] {
        assert Used(events, rest) == [];
      }
    } else {
      var e, next := events[0], WaitReact(w, events[0]);
      LateTaskIsTold(next, events[1..]);
      HeadOfUsed(events, rest);
      assert Used(events, rest) == [e] + Used(events[1..], rest);
      if e.TimerFires? || e.CancelOutside? {
        ToldNow(e, Used(events[1..], rest));
      } else {
        ToldLater(e, Used(events[1..], rest));
      }
    }
  }

  // ---- the coroutine ----------------------------------------------------------------------------

  /** NeverBack: the events run out first. */
  datatype Exit<+A, +H> = Returned(answer: A, handoff: Option<H>) | Raised(exn: Exn) | NeverBack

  /** While the answer is on its way only the organizer's own end matters. */
  function RecordAll<H>(tasks: seq<Task<H>>, events: seq<Event<H>>): (r: seq<Task<H>>)
    ensures |r| == |tasks|
    decreases |events|
  {
    if events == [] then tasks else RecordAll(Record(tasks, events[0]), events[1..])
  }

  method RunUntilAnswer<H>(loop: EventLoop<H>, during: seq<Event<H>>)
    modifies loop`tasks
    ensures loop.tasks == RecordAll(old(loop.tasks), during)
  {
    var i := 0;
    assert during[0..] == during;
    while i < |during|
      invariant i <= |during| && RecordAll(loop.tasks, during[i..]) == RecordAll(old(loop.tasks), during)
    {
      assert during[i..][0] == during[i] && during[i..][1..] == during[i + 1..];
      loop.tasks := Record(loop.tasks, during[i]);
      i := i + 1;
    }
  }

  /** The gather inside `_cancel_and_join`. */
  function Joining<H>(tasks: seq<Task<H>>, events: seq<Event<H>>): (Gathering<H>, seq<Event<H>>, Option<Verdict>) {
    Await(AskAll(tasks), true, events)
  }

  /** `_cancel_and_join`. What the task ends with is dropped. */
  method CancelAndJoin<H>(loop: EventLoop<H>) returns (r: Option<Verdict>)
    requires |loop.tasks| == 1
    modifies loop
    ensures old(loop.tasks[0].Done()) ==>
      r == Some(Complete) && loop.tasks == old(loop.tasks) && loop.events == old(loop.events)
    ensures !old(loop.tasks[0].Done()) ==>
      var (g, rest, v) := Joining(old(loop.tasks), old(loop.events));
      r == v && loop.tasks == g.tasks && loop.events == rest
    ensures |loop.tasks| == 1 && (r.Some? ==> loop.tasks[0].Done())
  {
    if loop.tasks[0].Done() {
      return Some(Complete);
    }
    ghost var tasks, events := loop.tasks, loop.events;
    loop.Cancel(0);
    OnlyOneToAsk(tasks);
    r := loop.Gather(true);
    JoiningEnds(tasks, events);
  }

  lemma OnlyOneToAsk<H>(tasks: seq<Task<H>>)
    requires |tasks| == 1 && !tasks[0].Done()
    ensures tasks[0 := tasks[0].(asked := true)] == AskAll(tasks)
  {
  }

  lemma JoiningEnds<H>(tasks: seq<Task<H>>, events: seq<Event<H>>)
    requires |tasks| == 1 && !tasks[0].Done()
    ensures var (g, rest, v) := Joining(tasks, events);
            && |g.tasks| == 1 && (v.Some? ==> g.tasks[0].Done() && v == Some(ExpectedJoin(Used(events, rest))))
            && g.tasks[0].asked
  {
    AwaitRecords(AskAll(tasks), true, events);
    AwaitSettles(AskAll(tasks), true, events);
    if Joining(tasks, events).2.Some? {
      AwaitGives(AskAll(tasks), true, events);
    }
  }

  method WaitForOrganizer<H>(loop: EventLoop<H>) returns (r: Option<Outcome<H>>)
    requires |loop.tasks| == 1
    modifies loop
    ensures var (w, rest, v) := WaitFor(old(loop.tasks[0]), old(loop.events));
            r == v && loop.tasks == [w.task] && loop.events == rest
    ensures r.Some? ==> loop.tasks[0].Done()
  {
    var w := Wait(loop.tasks[0], false, false, false);
    assert loop.tasks == [w.task];
    if w.task.Done() {
      return w.task.result;
    }
    while loop.events != [] && !(loop.events[0].Resume? && w.task.Done())
      invariant loop.tasks == [w.task]
      invariant WaitLoop(w, loop.events) == WaitLoop(Wait(old(loop.tasks[0]), false, false, false), old(loop.events))
      decreases |loop.events|
    {
      w := WaitReact(w, loop.events[0]);
      loop.tasks, loop.events := [w.task], loop.events[1..];
    }
    if loop.events == [] {
      return None;
    }
    loop.events := loop.events[1..];
    r := Some(w.Result());
  }

  function Organizer<H>(during: seq<Event<H>>): Task<H> {
    RecordAll(Fresh(1), during)[0]
  }

  /** The way out, by what the answer came to. `ledger` is None when there is nothing to organize. */
  ghost predicate ExitsAs<A, H>(during: seq<Event<H>>, answer: Outcome<A>, ledger: Option<H>, events: seq<Event<H>>,
                                exit: Exit<A, H>)
  {
    if ledger.None? then
      exit == match answer case Value(a) => Returned(a, None) case Threw(x) => Raised(x)
    else
      var task := Organizer(during);
      match answer
      case Threw(x) =>
        if task.Done() then exit == Raised(x)
        else exit == (match Joining([task], events).2
                      case None => NeverBack
                      case Some(Complete) => Raised(x)
                      case Some(Failed(y)) => Raised(y))
      case Value(a) =>
        match WaitFor(task, events).2
        case None => exit.NeverBack?
        case Some(Value(h)) => exit == Returned(a, Some(h))
        case Some(Threw(x)) => exit == if x == CancelledError then Raised(x) else Returned(a, ledger)
  }

  /** `_answer_while_organizing`. `during` happens while the answer is produced, which ends as `answer`
      says; the loop's events come after that. */
  method AnswerWhileOrganizing<A, H>(loop: EventLoop<H>, during: seq<Event<H>>, answer: Outcome<A>, ledger: Option<H>)
    returns (exit: Exit<A, H>)
    requires loop.tasks == []
    modifies loop
    ensures ExitsAs(during, answer, ledger, old(loop.events), exit)
    // The organizer is over on every way out, and only the answer itself is ever returned.
    ensures !exit.NeverBack? ==> AllDone(loop.tasks)
    ensures exit.Returned? ==> answer == Value(exit.answer)
    // With nothing to organize the answer, or its failure, is passed on at once.
    ensures ledger.None? ==>
      && exit == (match answer case Value(a) => Returned(a, None) case Threw(x) => Raised(x))
      && loop.tasks == [] && loop.events == old(loop.events)
  {
    if ledger.None? {
      return match answer case Value(a) => Returned(a, None) case Threw(x) => Raised(x);
    }
    var _ := loop.Spawn();
    assert loop.tasks == Fresh(1);
    RunUntilAnswer(loop, during);
    assert loop.tasks == [Organizer(during)];
    match answer {
      case Threw(x) =>
        var joined := CancelAndJoin(loop);
        exit := match joined case None => NeverBack case Some(Complete) => Raised(x) case Some(Failed(y)) => Raised(y);
      case Value(a) =>
        var outcome := WaitForOrganizer(loop);
        if outcome.None? {
          return NeverBack;
        }
        match outcome.value {
          case Value(h) => exit := Returned(a, Some(h));
          case Threw(x) => exit := if x == CancelledError then Raised(x) else Returned(a, ledger);
        }
        var joined := CancelAndJoin(loop);
        assert joined == Some(Complete);
    }
  }

  // ---- what it promises ---------------------------------------------------------------------------

  lemma {:induction false} RecordAllEnds<H>(tasks: seq<Task<H>>, events: seq<Event<H>>)
    requires |tasks| == 1
    ensures RecordAll(tasks, events)[0] == Task(EndFrom(tasks[0], events), tasks[0].asked)
    decreases |events|
  {
    if events != [] {
      RecordAllEnds(Record(tasks, events[0]), events[1..]);
    }
  }

  /** How the organizer ends, if it does: while the answer is produced or after that. */
  ghost function OrganizerEnd<H>(during: seq<Event<H>>, used: seq<Event<H>>): Option<Outcome<H>> {
    if EndOf(during, 0).Some? then EndOf(during, 0) else EndOf(used, 0)
  }

  /** Once there is an answer: it is returned alone when there was nothing to organize. Otherwise a handoff
      that comes in time is returned with it, a failed, late or timed-out organizer leaves the ledger, and
      the answer is lost exactly when the wait ends in a cancellation that is not the timer's alone. */
  lemma AnswerSurvives<A, H>(during: seq<Event<H>>, a: A, ledger: Option<H>, events: seq<Event<H>>, exit: Exit<A, H>)
    requires ExitsAs(during, Value(a), ledger, events, exit) && !exit.NeverBack?
    ensures ledger.None? ==> exit == Returned(a, None)
    ensures ledger.Some? ==>
            var used := Used(events, if EndOf(during, 0).Some? then events else WaitFor(Organizer(during), events).1);
            var end, done := OrganizerEnd(during, used), EndOf(during, 0).Some?;
            && end.Some?
            && exit == (if Timely(end.value, done, used) then
                          Returned(a, if end.value.Value? then Some(end.value.v) else ledger)
                        else if TimerFires in used && CancelOutside !in used then Returned(a, ledger)
                        else Raised(CancelledError))
  {
    RecordAllEnds(Fresh<H>(1), during);
    var task := Organizer(during);
    if task.Done() {
      assert Used(events, events) == [];
    } else {
      WaitGives(Wait(task, false, false, false), events);
    }
  }

  lemma {:induction false} EndInTime<H>(done: bool, expired: bool, used: seq<Event<H>>)
    requires CancelledAfterEnd(done, expired, used) && CancelOutside !in used
    ensures TimerFires in used
    decreases |used|
  {
    if !used[0].TimerFires? {
      EndInTime(done || (used[0].Ends? && used[0].task == 0), expired, used[1..]);
    }
  }

  /** Nobody cancels from outside: then only an organizer that ends in CancelledError of its own accord
      can cost the answer; failures and lateness cannot. */
  lemma OrganizerNeverCostsTheAnswer<A, H>(during: seq<Event<H>>, a: A, ledger: Option<H>, events: seq<Event<H>>,
                                           exit: Exit<A, H>)
    requires ExitsAs(during, Value(a), ledger, events, exit) && !exit.NeverBack?
    requires CancelOutside !in events
    ensures var used := Used(events, if EndOf(during, 0).Some? then events else WaitFor(Organizer(during), events).1);
            exit.Raised? <==>
              ledger.Some? && OrganizerEnd(during, used) == Some(Threw(CancelledError)) && TimerFires !in used
  {
    AnswerSurvives(during, a, ledger, events, exit);
    var used := Used(events, if EndOf(during, 0).Some? then events else WaitFor(Organizer(during), events).1);
    var done := EndOf(during, 0).Some?;
    if CancelledAfterEnd(done, false, used) {
      EndInTime(done, false, used);
    }
  }

  /** A failed answer: its own exception comes out, unless the join of the organizer is cancelled; an
      organizer still running was told to stop. */
  lemma FailureComesOut<A, H>(during: seq<Event<H>>, x: Exn, ledger: Option<H>, events: seq<Event<H>>, exit: Exit<A, H>)
    requires ExitsAs(during, Threw(x), ledger, events, exit) && !exit.NeverBack?
    ensures exit.Raised?
    ensures ledger.None? || EndOf(during, 0).Some? ==> exit.exn == x
    ensures ledger.Some? && EndOf(during, 0).None? ==>
      var (g, rest, _) := Joining([Organizer(during)], events);
      && |g.tasks| == 1 && g.tasks[0].asked
      && exit.exn == if CancelOutside in Used(events, rest) then CancelledError else x
  {
    if ledger.Some? {
      RecordAllEnds(Fresh<H>(1), during);
      if !Organizer(during).Done() {
        JoiningEnds([Organizer(during)], events);
      }
    }
  }

  lemma {:induction false} FairWaitEnds<H>(w: Wait<H>, events: seq<Event<H>>)
    requires Fair([w.task], events, 1)
    ensures WaitLoop(w, events).2.Some?
    decreases |events|
  {
    if !(events != [] && events[0].Resume? && w.task.Done()) {
      var next := WaitReact(w, events[0]);
      if AllDone([w.task]) {
        assert [w.task][0].Done();
      } else {
        FairRecords(Record([w.task], events[0]), [next.task], events[1..], 1, 1);
      }
      FairWaitEnds(next, events[1..]);
    }
  }

  /** If the organizer ends in the end, the answer or the failure gets out. */
  lemma ComesBack<A, H>(during: seq<Event<H>>, answer: Outcome<A>, ledger: Option<H>, events: seq<Event<H>>,
                        exit: Exit<A, H>)
    requires ExitsAs(during, answer, ledger, events, exit)
    requires Fair([Organizer(during)], events, 1)
    ensures !exit.NeverBack?
  {
    var task := Organizer(during);
    if ledger.Some? && !task.Done() {
      if answer.Value? {
        FairWaitEnds(Wait(task, false, false, false), events);
      } else {
        FairRecords([task], AskAll([task]), events, 1, 1);
        FairAwaitEnds(AskAll([task]), true, events, 0);
      }
    }
  }
}
