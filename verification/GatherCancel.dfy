/** gather_cancel_on_error: wait for all children; on the first error cancel the rest, join them, and
    raise the error. */
module GatherCancel {
  import opened Prelude
  import opened AsyncTasks

  /** Waiting: the events run out first. */
  datatype Exit<+V> = Returned(values: seq<V>) | Raised(exn: Exn) | Waiting

  /** The first await, over all children. */
  function First<V>(n: nat, events: seq<Event<V>>): (Gathering<V>, seq<Event<V>>, Option<Verdict>) {
    Await(Fresh<V>(n), false, events)
  }

  /** The second one, after every unfinished child was cancelled. */
  function Join<V>(n: nat, events: seq<Event<V>>): (Gathering<V>, seq<Event<V>>, Option<Verdict>) {
    Await(AskAll(First(n, events).0.tasks), true, First(n, events).1)
  }

  /** The child tasks and the way out. */
  ghost predicate ExitsAs<V>(n: nat, events: seq<Event<V>>, tasks: seq<Task<V>>, exit: Exit<V>) {
    var (g, rest, v) := First(n, events);
    match v
    case None => exit.Waiting? && tasks == g.tasks
    case Some(Complete) =>
      && exit.Returned? && tasks == g.tasks && |exit.values| == n == |tasks|
      && forall i :: 0 <= i < n ==> tasks[i].result == Some(Value(exit.values[i]))
    case Some(Failed(x)) =>
      var (g2, _, v2) := Join(n, events);
      && tasks == g2.tasks
      && exit == match v2 case None => Waiting case Some(Complete) => Raised(x) case Some(Failed(y)) => Raised(y)
  }

  method CancelUnfinished<V>(loop: EventLoop<V>)
    modifies loop`tasks
    ensures loop.tasks == AskAll(old(loop.tasks))
  {
    ghost var was := loop.tasks;
    for i := 0 to |loop.tasks|
      invariant |loop.tasks| == |was|
      invariant forall k :: 0 <= k < |was| ==> loop.tasks[k] == if k < i then AskAll(was)[k] else was[k]
    {
      if !loop.tasks[i].Done() {
        loop.Cancel(i);
      }
    }
  }

  method SpawnAll<V>(loop: EventLoop<V>, n: nat)
    requires loop.tasks == []
    modifies loop`tasks
    ensures loop.tasks == Fresh(n)
  {
    for i := 0 to n
      invariant loop.tasks == Fresh(i)
    {
      var _ := loop.Spawn();
    }
  }

  /** The values of the finished children, in argument order. */
  method Results<V>(tasks: seq<Task<V>>) returns (values: seq<V>)
    requires forall i :: 0 <= i < |tasks| ==> tasks[i].result.Some? && tasks[i].result.value.Value?
    ensures |values| == |tasks| && forall i :: 0 <= i < |tasks| ==> tasks[i].result == Some(Value(values[i]))
  {
    values := [];
    for i := 0 to |tasks|
      invariant |values| == i && forall k :: 0 <= k < i ==> tasks[k].result == Some(Value(values[k]))
    {
      values := values + [tasks[i].result.value.v];
    }
  }

  /** `gather_cancel_on_error` */
  method GatherCancelOnError<V>(loop: EventLoop<V>, n: nat) returns (exit: Exit<V>)
    requires loop.tasks == []
    modifies loop
    ensures ExitsAs(n, old(loop.events), loop.tasks, exit)
    // No child is left running, on whatever schedule.
    ensures !exit.Waiting? ==> |loop.tasks| == n && AllDone(loop.tasks)
  {
    ghost var events := loop.events;
    SpawnAll(loop, n);
    var first := loop.Gather(false);
    FirstSettles(n, events);
    match first {
      case None => return Waiting;
      case Some(Complete) =>
        var values := Results(loop.tasks);
        return Returned(values);
      case Some(Failed(x)) =>
        CancelUnfinished(loop);
        var joined := loop.Gather(true);
        JoinSettles(n, events);
        exit := match joined case None => Waiting case Some(Complete) => Raised(x) case Some(Failed(y)) => Raised(y);
    }
  }

  lemma FirstSettles<V>(n: nat, events: seq<Event<V>>)
    ensures var (g, _, v) := First(n, events);
            && |g.tasks| == n
            && (v == Some(Complete) ==> AllDone(g.tasks) && forall i :: 0 <= i < n ==> g.tasks[i].result.value.Value?)
  {
    AwaitRecords(Fresh<V>(n), false, events);
    AwaitSettles(Fresh<V>(n), false, events);
  }

  lemma JoinSettles<V>(n: nat, events: seq<Event<V>>)
    ensures var (g, _, v) := Join(n, events);
            |g.tasks| == n && (v.Some? ==> AllDone(g.tasks))
  {
    FirstSettles(n, events);
    AwaitRecords(AskAll(First(n, events).0.tasks), true, First(n, events).1);
    AwaitSettles(AskAll(First(n, events).0.tasks), true, First(n, events).1);
  }

  // ---- what it promises ---------------------------------------------------------------------------

  lemma FirstGives<V>(n: nat, events: seq<Event<V>>)
    requires First(n, events).2.Some?
    ensures var used := Used(events, First(n, events).1);
            First(n, events).2 == Some(ExpectedFirst(Fresh<V>(n), used))
  {
    AlreadyThrownMeans(Fresh<V>(n));
    AwaitGives(Fresh<V>(n), false, events);
  }

  /** With every child ended there is nothing to wait for, so nothing can come between. */
  lemma JoinGives<V>(n: nat, events: seq<Event<V>>)
    ensures var (g, rest, _) := First(n, events);
            && (Join(n, events).2.Some? ==> Join(n, events).2 == Some(ExpectedJoin(Used(rest, Join(n, events).1))))
            && (AllDone(g.tasks) ==> Join(n, events).2 == Some(Complete) && Join(n, events).1 == rest)
  {
    var (g, rest, _) := First(n, events);
    AwaitRecords(AskAll(g.tasks), true, rest);
    if Join(n, events).2.Some? {
      AwaitGives(AskAll(g.tasks), true, rest);
    }
    if AllDone(g.tasks) {
      assert AllDone(AskAll(g.tasks));
      assert Used(rest, rest) == [];
    }
  }

  /** It returns exactly when no child failed and nobody cancelled it, and the i-th value is what the
      i-th child ended with. */
  lemma ReturnsInOrder<V>(n: nat, events: seq<Event<V>>, tasks: seq<Task<V>>, exit: Exit<V>)
    requires ExitsAs(n, events, tasks, exit) && First(n, events).2.Some?
    ensures var used := Used(events, First(n, events).1);
            && (exit.Returned? <==> FirstFailure(Fresh<V>(n), used).None? && CancelOutside !in used)
            && (exit.Returned? ==>
                  |exit.values| == n && forall i :: 0 <= i < n ==> EndOf(used, i) == Some(Value(exit.values[i])))
  {
    FirstGives(n, events);
    AwaitRecords(Fresh<V>(n), false, events);
  }

  /** Without children it returns at once, whatever happens around it. */
  lemma NothingToGather<V>(events: seq<Event<V>>, tasks: seq<Task<V>>, exit: Exit<V>)
    requires ExitsAs(0, events, tasks, exit)
    ensures exit == Returned([])
  {
  }

  /** Otherwise it raises the exception of the first child to fail, or CancelledError if it was
      cancelled before any failure, after it, or while it was joining the rest. When the last child to
      end is the one that fails there is nothing to join, and no later cancellation can replace its
      exception. */
  lemma RaisesTheOriginal<V>(n: nat, events: seq<Event<V>>, tasks: seq<Task<V>>, exit: Exit<V>)
    requires ExitsAs(n, events, tasks, exit) && exit.Raised?
    ensures var (g, rest, _) := First(n, events);
            var used, joining := Used(events, rest), Used(rest, Join(n, events).1);
            && (AllDone(g.tasks) ==> joining == [])
            && exit.exn == if CancelOutside in joining then CancelledError
                           else match FirstFailure(Fresh<V>(n), used)
                             case Some(x) => if CancelledAfterFailure(Fresh<V>(n), used) then CancelledError else x
                             case None => CancelledError
  {
    FirstGives(n, events);
    JoinGives(n, events);
  }

  lemma FirstRecords<V>(n: nat, events: seq<Event<V>>, i: nat)
    requires i < n
    ensures |First(n, events).0.tasks| == n
    ensures First(n, events).0.tasks[i].result == EndOf(Used(events, First(n, events).1), i)
  {
    var children := Fresh<V>(n);
    assert |children| == n && !children[i].Done();
    AwaitRecords(children, false, events);
  }

  lemma AskedStaysAsked<V>(tasks: seq<Task<V>>, events: seq<Event<V>>, i: nat)
    requires i < |tasks| && !tasks[i].Done()
    ensures var joined := Await(AskAll(tasks), true, events).0.tasks;
            |joined| == |tasks| && joined[i].asked
  {
    AwaitRecords(AskAll(tasks), true, events);
    assert AskAll(tasks)[i].asked;
  }

  /** Every child still running when the error surfaced was told to stop. */
  lemma UnfinishedAreCancelled<V>(n: nat, events: seq<Event<V>>, tasks: seq<Task<V>>, exit: Exit<V>, i: nat)
    requires ExitsAs(n, events, tasks, exit) && exit.Raised? && i < n
    ensures |tasks| == n && tasks[i].Done()
    ensures EndOf(Used(events, First(n, events).1), i).None? ==> tasks[i].asked
  {
    JoinSettles(n, events);
    assert tasks == Join(n, events).0.tasks && Join(n, events).2.Some?;
    FirstRecords(n, events, i);
    if !First(n, events).0.tasks[i].Done() {
      AskedStaysAsked(First(n, events).0.tasks, First(n, events).1, i);
    }
  }

  lemma FirstComesBack<V>(n: nat, events: seq<Event<V>>)
    requires Fair(Fresh<V>(n), events, 2)
    ensures First(n, events).2.Some? && Fair(First(n, events).0.tasks, First(n, events).1, 1)
  {
    FairAwaitEnds(Fresh<V>(n), false, events, 1);
  }

  lemma JoinComesBack<V>(tasks: seq<Task<V>>, events: seq<Event<V>>)
    requires Fair(tasks, events, 1)
    ensures Await(AskAll(tasks), true, events).2.Some?
  {
    FairRecords(tasks, AskAll(tasks), events, 1, 1);
    FairAwaitEnds(AskAll(tasks), true, events, 0);
  }

  /** If every child ends in the end, it comes back: two resumptions afterwards are enough. */
  lemma ComesBack<V>(n: nat, events: seq<Event<V>>, tasks: seq<Task<V>>, exit: Exit<V>)
    requires ExitsAs(n, events, tasks, exit) && Fair(Fresh<V>(n), events, 2)
    ensures !exit.Waiting?
  {
    FirstComesBack(n, events);
    JoinComesBack(First(n, events).0.tasks, First(n, events).1);
  }
}
