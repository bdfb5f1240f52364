/**
 * The extension server's promise queue. Every request is chained with `then` onto the previous one, and
 * the chain goes on through a promise that swallows the outcome. Jobs run step by step and may be
 * interleaved in any way the event loop allows; the queue makes them behave as if run one after another.
 */
module Serializer {
  import opened Evm
  import opened AbiCodec
  import opened Extension

  /** One assignment to the handlers' module state. */
  datatype Write = CountUp | SetLast(policyId: Bytes32)

  /**
   * A queued job: a handler makes its writes one by one and then returns or throws; a state read looks at the state.
   */
  datatype Task = Handler(writes: seq<Write>, throws: bool) | ReadState

  /** A settled job either way lets the queue advance. */
  datatype Phase = Waiting | Running(done: nat) | Fulfilled | Rejected

  datatype Callback = RunTask(index: nat) | Swallow

  /** The promise returned by `source.then(callback, callback)`. */
  datatype Promise = Promise(source: nat, callback: Callback, phase: Phase)

  /**
   * The event loop: promise 0 is `Promise.resolve()`, `queue` the server's queue field. `starts` lists the tasks
   * in the order they started, `observed` what each completed state read returned.
   */
  datatype Loop = Loop(promises: seq<Promise>, queue: nat, tasks: seq<Task>, shared: AppState,
                       starts: seq<nat>, observed: map<nat, AppState>)

  const IDLE: Loop := Loop([Promise(0, Swallow, Fulfilled)], 0, [], AppState(0, None), [], map[])

  predicate Settled(p: Promise) { p.phase.Fulfilled? || p.phase.Rejected? }

  function Assign(s: AppState, w: Write): AppState
  {
    match w
    case CountUp => s.(processed := s.processed + 1)
    case SetLast(id) => s.(lastPolicyId := Some(id))
  }

  datatype Event = Arrive(task: Task) | Fire(promise: nat) | Work(promise: nat) | Done(promise: nat)

  /** `serialize`: chain the task onto the queue, and make its swallowed outcome the new queue. */
  function Serialize(l: Loop, task: Task): Loop
  {
    var run := |l.promises|;
    l.(promises := l.promises + [Promise(l.queue, RunTask(|l.tasks|), Waiting), Promise(run, Swallow, Waiting)],
       queue := run + 1, tasks := l.tasks + [task])
  }

  function SetPhase(l: Loop, i: nat, phase: Phase): Loop
    requires i < |l.promises|
  {
    l.(promises := l.promises[i := l.promises[i].(phase := phase)])
  }

  predicate CanFire(l: Loop, i: nat)
  {
    i < |l.promises| && l.promises[i].phase.Waiting? && l.promises[i].source < |l.promises|
      && Settled(l.promises[l.promises[i].source])
  }

  /** The task promise `i` is running, if any. */
  function Active(l: Loop, i: nat): Option<Task>
  {
    if i < |l.promises| && l.promises[i].phase.Running? && l.promises[i].callback.RunTask?
       && l.promises[i].callback.index < |l.tasks|
    then Some(l.tasks[l.promises[i].callback.index])
    else None
  }

  /** One event; an event that is not enabled does nothing. */
  function Step(l: Loop, e: Event): Loop
  {
    match e
    case Arrive(task) => Serialize(l, task)
    case Fire(i) =>
      if !CanFire(l, i) then l
      else if l.promises[i].callback.Swallow? then SetPhase(l, i, Fulfilled)
      else SetPhase(l, i, Running(0)).(starts := l.starts + [l.promises[i].callback.index])
    case Work(i) =>
      var task := Active(l, i);
      if task.None? || task.value.ReadState? || l.promises[i].phase.done >= |task.value.writes| then l
      else
        var n := l.promises[i].phase.done;
        SetPhase(l, i, Running(n + 1)).(shared := Assign(l.shared, task.value.writes[n]))
    case Done(i) =>
      var task := Active(l, i);
      if task.None? then l
      else if task.value.ReadState? then
        SetPhase(l, i, Fulfilled).(observed := l.observed[l.promises[i].callback.index := l.shared])
      else if l.promises[i].phase.done < |task.value.writes| then l
      else SetPhase(l, i, if task.value.throws then Rejected else Fulfilled)
  }

  function Run(l: Loop, events: seq<Event>): Loop
  {
    if |events| == 0 then l else Step(Run(l, events[..|events| - 1]), events[|events| - 1])
  }

  // ---- Sequential execution, the specification ----

  function AssignAll(s: AppState, writes: seq<Write>): AppState
  {
    if |writes| == 0 then s else Assign(AssignAll(s, writes[..|writes| - 1]), writes[|writes| - 1])
  }

  function WritesOf(t: Task): seq<Write> { if t.Handler? then t.writes else [] }

  /** The state after running the tasks whole, one after another. */
  function Sequential(tasks: seq<Task>): AppState
  {
    if |tasks| == 0 then AppState(0, None)
    else AssignAll(Sequential(tasks[..|tasks| - 1]), WritesOf(tasks[|tasks| - 1]))
  }

  // ---- The invariant ----

  function CallbackAt(i: nat): Callback { if i % 2 == 1 then RunTask(i / 2) else Swallow }

  /** Promise 2k+1 runs task k after promise 2k, which swallows the outcome of task k-1. */
  ghost predicate Chained(l: Loop)
  {
    && |l.promises| == 2 * |l.tasks| + 1 && l.queue == 2 * |l.tasks|
    && l.promises[0].callback == Swallow
    && (forall i :: 1 <= i < |l.promises| ==> l.promises[i].source == i - 1 && l.promises[i].callback == CallbackAt(i))
  }

  /** Promises before `f` are settled, those after it untouched. */
  ghost predicate Frontier(l: Loop, f: nat)
  {
    && 1 <= f <= |l.promises|
    && (forall i :: 0 <= i < f ==> Settled(l.promises[i]))
    && (forall i :: f < i < |l.promises| ==> l.promises[i].phase.Waiting?)
    && (f < |l.promises| ==>
          l.promises[f].phase.Waiting? || (l.promises[f].phase.Running? && l.promises[f].callback.RunTask?))
  }

  predicate IsRunning(l: Loop, f: nat) { f < |l.promises| && l.promises[f].phase.Running? }

  /**
   * The shared state is that of sequential execution of the completed tasks, plus the writes of the running one so
   * far.
   */
  ghost predicate Refines(l: Loop, f: nat)
    requires Chained(l) && Frontier(l, f)
  {
    var whole := Sequential(l.tasks[..f / 2]);
    if IsRunning(l, f) then
      && f / 2 < |l.tasks|
      && l.promises[f].phase.done <= |WritesOf(l.tasks[f / 2])|
      && l.shared == AssignAll(whole, WritesOf(l.tasks[f / 2])[..l.promises[f].phase.done])
    else l.shared == whole
  }

  ghost predicate Records(l: Loop, f: nat)
    requires Chained(l) && Frontier(l, f)
  {
    && |l.starts| == f / 2 + (if IsRunning(l, f) then 1 else 0)
    && (forall k :: 0 <= k < |l.starts| ==> l.starts[k] == k)
    && (forall k: nat :: k in l.observed <==> k < f / 2 && l.tasks[k].ReadState?)
    && (forall k :: k in l.observed ==> k <= |l.tasks| && l.observed[k] == Sequential(l.tasks[..k]))
  }

  ghost predicate Inv(l: Loop, f: nat)
  {
    Chained(l) && Frontier(l, f) && Refines(l, f) && Records(l, f)
  }

  lemma ArriveKeeps(l: Loop, f: nat, task: Task)
    requires Inv(l, f)
    ensures Inv(Serialize(l, task), f)
  {
    hide Chained, Frontier, AssignAll, Sequential;
    var l' := Serialize(l, task);
    Bounds(l, f);
    ArriveChained(l, f, task);
    assert l'.tasks[..f / 2] == l.tasks[..f / 2];
    forall k | 0 <= k <= |l.tasks| ensures l'.tasks[..k] == l.tasks[..k] { }
  }

  lemma ArriveChained(l: Loop, f: nat, task: Task)
    requires Chained(l) && Frontier(l, f)
    ensures Chained(Serialize(l, task)) && Frontier(Serialize(l, task), f)
    ensures f / 2 <= |l.tasks| && forall i :: 0 <= i < |l.promises| ==> Serialize(l, task).promises[i] == l.promises[i]
    ensures f < |Serialize(l, task).promises| && (IsRunning(Serialize(l, task), f) <==> IsRunning(l, f))
  {
    assert forall i :: 0 <= i < |l.promises| ==> Serialize(l, task).promises[i] == l.promises[i];
  }

  /** Only the promise at the frontier can move. */
  lemma OnlyFrontierMoves(l: Loop, f: nat, i: nat)
    requires Chained(l) && Frontier(l, f)
    ensures CanFire(l, i) ==> i == f && l.promises[f].phase.Waiting?
    ensures Active(l, i).Some? ==> i == f && f % 2 == 1 && l.promises[f].callback == RunTask(f / 2) && f / 2 < |l.tasks|
  {
  }

  /** Moving the frontier promise to another phase leaves the chain as it is, and the frontier there or just past it. */
  lemma PhaseKeeps(l: Loop, f: nat, phase: Phase, l': Loop)
    requires Chained(l) && Frontier(l, f) && f < |l.promises| && !phase.Waiting?
    requires phase.Running? ==> l.promises[f].callback.RunTask?
    requires l'.promises == SetPhase(l, f, phase).promises && l'.queue == l.queue && l'.tasks == l.tasks
    ensures Chained(l')
    ensures Frontier(l', if phase.Running? then f else f + 1)
  {
  }

  lemma FireKeeps(l: Loop, f: nat) returns (f': nat)
    requires Inv(l, f) && CanFire(l, f)
    ensures Inv(Step(l, Fire(f)), f')
    ensures f' == (if l.promises[f].callback.Swallow? then f + 1 else f)
  {
    hide Inv, Chained, Frontier, Step;
    InvParts(l, f);
    OnlyFrontierMoves(l, f, f);
    Bounds(l, f);
    CallbackOf(l, f);
    if f % 2 == 0 {
      f' := f + 1;
      SwallowKeeps(l, f);
    } else {
      f' := f;
      StartKeeps(l, f);
    }
  }

  lemma SwallowKeeps(l: Loop, f: nat)
    requires Inv(l, f) && CanFire(l, f) && f % 2 == 0 && l.promises[f].callback.Swallow?
    ensures Inv(Step(l, Fire(f)), f + 1)
  {
    hide Chained, Frontier, Sequential, AssignAll;
    PhaseKeeps(l, f, Fulfilled, Step(l, Fire(f)));
    Bounds(l, f);
    assert (f + 1) / 2 == f / 2;
  }

  lemma StartKeeps(l: Loop, f: nat)
    requires Inv(l, f) && CanFire(l, f) && f % 2 == 1 && l.promises[f].callback == RunTask(f / 2) && f / 2 < |l.tasks|
    ensures Inv(Step(l, Fire(f)), f)
  {
    hide Chained, Frontier, Sequential, AssignAll;
    PhaseKeeps(l, f, Running(0), Step(l, Fire(f)));
    assert WritesOf(l.tasks[f / 2])[..0] == [];
    NothingAssigned(Sequential(l.tasks[..f / 2]));
  }

  lemma NothingAssigned(s: AppState)
    ensures AssignAll(s, []) == s
  {
  }

  lemma Bounds(l: Loop, f: nat)
    requires Frontier(l, f)
    ensures 1 <= f <= |l.promises|
    ensures f + 1 < |l.promises| ==> l.promises[f + 1].phase.Waiting?
  {
  }

  lemma CallbackOf(l: Loop, i: nat)
    requires Chained(l) && 1 <= i < |l.promises|
    ensures l.promises[i].callback == CallbackAt(i) && i / 2 <= |l.tasks| && (i % 2 == 1 ==> i / 2 < |l.tasks|)
  {
  }

  lemma WorkKeeps(l: Loop, f: nat)
    requires Inv(l, f)
    ensures Inv(Step(l, Work(f)), f)
  {
    hide Chained, Frontier;
    OnlyFrontierMoves(l, f, f);
    var task := Active(l, f);
    if task.Some? && task.value.Handler? && l.promises[f].phase.done < |task.value.writes| {
      var n, writes := l.promises[f].phase.done, task.value.writes;
      PhaseKeeps(l, f, Running(n + 1), Step(l, Work(f)));
      assert writes[..n + 1][..n] == writes[..n];
    }
  }

  lemma DoneKeeps(l: Loop, f: nat) returns (f': nat)
    requires Inv(l, f)
    ensures Inv(Step(l, Done(f)), f')
    ensures f' == if Active(l, f).Some? && l.promises[f].phase.done >= |WritesOf(Active(l, f).value)| then f + 1 else f
  {
    hide Chained, Frontier, Sequential;
    OnlyFrontierMoves(l, f, f);
    Bounds(l, f);
    var task := Active(l, f);
    f' := f;
    if task.Some? && l.promises[f].phase.done >= |WritesOf(task.value)| {
      f' := f + 1;
      PhaseKeeps(l, f, Step(l, Done(f)).promises[f].phase, Step(l, Done(f)));
      assert f' / 2 == f / 2 + 1;
      WholeTask(l.tasks, f / 2);
    }
  }

  /** One more task run whole. */
  lemma WholeTask(tasks: seq<Task>, k: nat)
    requires k < |tasks|
    ensures WritesOf(tasks[k])[..|WritesOf(tasks[k])|] == WritesOf(tasks[k])
    ensures Sequential(tasks[..k + 1]) == AssignAll(Sequential(tasks[..k]), WritesOf(tasks[k]))
  {
    assert tasks[..k + 1][..k] == tasks[..k];
  }

  lemma StepKeeps(l: Loop, f: nat, e: Event) returns (f': nat)
    requires Inv(l, f)
    ensures Inv(Step(l, e), f')
  {
    hide Inv;
    f' := f;
    match e
    case Arrive(task) => ArriveKeeps(l, f, task);
    case Fire(i) =>
      InvParts(l, f);
      OnlyFrontierMoves(l, f, i);
      if CanFire(l, i) { f' := FireKeeps(l, f); }
    case Work(i) =>
      InvParts(l, f);
      OnlyFrontierMoves(l, f, i);
      if Active(l, i).Some? { WorkKeeps(l, f); }
    case Done(i) =>
      InvParts(l, f);
      OnlyFrontierMoves(l, f, i);
      if Active(l, i).Some? { f' := DoneKeeps(l, f); }
  }

  lemma InvParts(l: Loop, f: nat)
    requires Inv(l, f)
    ensures Chained(l) && Frontier(l, f)
  {
  }

  lemma {:induction false} EveryRun(events: seq<Event>) returns (f: nat)
    ensures Inv(Run(IDLE, events), f)
  {
    hide Inv, Step;
    if |events| == 0 {
      f := 1;
      IdleInv();
    } else {
      f := EveryRun(events[..|events| - 1]);
      f := StepKeeps(Run(IDLE, events[..|events| - 1]), f, events[|events| - 1]);
    }
  }

  lemma IdleInv()
    ensures Inv(IDLE, 1)
  {
  }

  // ---- What the queue guarantees ----

  /** However events interleave: no two jobs overlap, and jobs start once each, in arrival order. */
  lemma OneAtATime(events: seq<Event>)
    ensures var l := Run(IDLE, events);
            && (forall i, j :: 0 <= i < |l.promises| && 0 <= j < |l.promises| ==>
                  l.promises[i].phase.Running? && l.promises[j].phase.Running? ==> i == j)
            && |l.starts| <= |l.tasks| && forall k :: 0 <= k < |l.starts| ==> l.starts[k] == k
  {
    hide Run;
    var f := EveryRun(events);
  }

  /** A completed state read saw exactly the tasks queued before it, each of them whole. */
  lemma ReadsSeeWholeTasks(events: seq<Event>, k: nat)
    requires k in Run(IDLE, events).observed
    ensures var l := Run(IDLE, events);
            k < |l.tasks| && l.tasks[k].ReadState? && l.observed[k] == Sequential(l.tasks[..k])
  {
    hide Run, Refines;
    var f := EveryRun(events);
  }

  /** When every promise is settled, the state is that of running all tasks one after another. */
  lemma QuietMeansSequential(events: seq<Event>)
    requires forall i :: 0 <= i < |Run(IDLE, events).promises| ==> Settled(Run(IDLE, events).promises[i])
    ensures var l := Run(IDLE, events);
            && l.shared == Sequential(l.tasks)
            && |l.starts| == |l.tasks|
            && forall k :: 0 <= k < |l.tasks| && l.tasks[k].ReadState? ==>
               k in l.observed && l.observed[k] == Sequential(l.tasks[..k])
  {
    hide Run;
    var f := EveryRun(events);
    var l := Run(IDLE, events);
    assert f == |l.promises|;
    assert l.tasks[..|l.tasks|] == l.tasks;
  }

  /** A failing job cannot block the queue: unless all is settled, some events take the frontier further. */
  lemma NeverWedged(l: Loop, f: nat) returns (events: seq<Event>, f': nat)
    requires Inv(l, f) && f < |l.promises|
    ensures Inv(Run(l, events), f') && f < f' && Run(l, events).tasks == l.tasks
            && |Run(l, events).promises| == |l.promises|
  {
    if l.promises[f].phase.Running? {
      events, f' := Finish(l, f);
    } else if l.promises[f].callback.Swallow? {
      f' := FireKeeps(l, f);
      events := [Fire(f)];
      assert events[..0] == [];
    } else {
      var g := FireKeeps(l, f);
      var rest;
      rest, f' := Finish(Step(l, Fire(f)), f);
      events := [Fire(f)] + rest;
      RunFront(l, Fire(f), rest);
    }
  }

  lemma {:induction false} RunFront(l: Loop, e: Event, rest: seq<Event>)
    ensures Run(l, [e] + rest) == Run(Step(l, e), rest)
  {
    hide Step;
    var all := [e] + rest;
    if |rest| == 0 {
      assert all[..0] == [];
    } else {
      assert all[..|all| - 1] == [e] + rest[..|rest| - 1];
      RunFront(l, e, rest[..|rest| - 1]);
    }
  }

  /** A running job makes its remaining writes and settles. */
  lemma {:induction false} Finish(l: Loop, f: nat) returns (events: seq<Event>, f': nat)
    requires Inv(l, f) && IsRunning(l, f)
    ensures Inv(Run(l, events), f') && f < f' && Run(l, events).tasks == l.tasks
            && |Run(l, events).promises| == |l.promises|
    decreases |WritesOf(l.tasks[f / 2])| - l.promises[f].phase.done
  {
    RunningActive(l, f);
    hide Inv;
    var n := l.promises[f].phase.done;
    if n < |WritesOf(l.tasks[f / 2])| {
      WorkKeeps(l, f);
      var rest;
      rest, f' := Finish(Step(l, Work(f)), f);
      events := [Work(f)] + rest;
      RunFront(l, Work(f), rest);
    } else {
      f' := DoneKeeps(l, f);
      events := [Done(f)];
      assert events[..0] == [];
    }
  }

  lemma RunningActive(l: Loop, f: nat)
    requires Inv(l, f) && IsRunning(l, f)
    ensures f / 2 < |l.tasks| && Active(l, f) == Some(l.tasks[f / 2])
  {
  }

  /**
   * From any reachable point, without new arrivals, all jobs can run to the end; the outcome is sequential execution.
   */
  lemma {:induction false} Drains(events: seq<Event>) returns (more: seq<Event>)
    ensures var l, l' := Run(IDLE, events), Run(Run(IDLE, events), more);
            && l'.tasks == l.tasks
            && (forall i :: 0 <= i < |l'.promises| ==> Settled(l'.promises[i]))
            && l'.shared == Sequential(l.tasks)
  {
    hide Run;
    var f := EveryRun(events);
    more := DrainsFrom(Run(IDLE, events), f);
  }

  lemma {:induction false} DrainsFrom(l: Loop, f: nat) returns (more: seq<Event>)
    requires Inv(l, f)
    ensures var l' := Run(l, more);
            && l'.tasks == l.tasks
            && (forall i :: 0 <= i < |l'.promises| ==> Settled(l'.promises[i]))
            && l'.shared == Sequential(l.tasks)
    decreases |l.promises| - f
  {
    if f == |l.promises| {
      more := [];
      assert l.tasks[..|l.tasks|] == l.tasks;
    } else {
      var first, f' := NeverWedged(l, f);
      var rest := DrainsFrom(Run(l, first), f');
      more := first + rest;
      RunConcat(l, first, rest);
    }
  }

  lemma {:induction false} RunConcat(l: Loop, first: seq<Event>, rest: seq<Event>)
    ensures Run(l, first + rest) == Run(Run(l, first), rest)
  {
    hide Step;
    if |rest| == 0 {
      assert first + rest == first;
    } else {
      assert (first + rest)[..|first + rest| - 1] == first + rest[..|rest| - 1];
      RunConcat(l, first, rest[..|rest| - 1]);
    }
  }

  // ---- Every schedule drains ----

  /** Events a promise still takes to settle: firing, one for each write, settling. */
  function Cost(tasks: seq<Task>, p: Promise): nat
  {
    var writes := if p.callback.RunTask? && p.callback.index < |tasks| then |WritesOf(tasks[p.callback.index])| else 0;
    match p.phase
    case Waiting => if p.callback.RunTask? then writes + 2 else 1
    case Running(done) => if done <= writes then writes - done + 1 else 1
    case Fulfilled => 0
    case Rejected => 0
  }

  function Costs(l: Loop): (costs: seq<nat>)
    ensures |costs| == |l.promises| && forall i :: 0 <= i < |costs| ==> costs[i] == Cost(l.tasks, l.promises[i])
  {
    seq(|l.promises|, i requires 0 <= i < |l.promises| => Cost(l.tasks, l.promises[i]))
  }

  function WorkLeft(l: Loop): nat { Sum(Costs(l)) }

  /** The event is not an arrival, and it changes something. */
  predicate Effective(l: Loop, e: Event) { !e.Arrive? && Step(l, e) != l }

  lemma PhaseWork(l: Loop, i: nat, phase: Phase, l': Loop)
    requires i < |l.promises| && l'.promises == SetPhase(l, i, phase).promises && l'.tasks == l.tasks
    ensures WorkLeft(l') == WorkLeft(l) - Cost(l.tasks, l.promises[i]) + Cost(l.tasks, l.promises[i].(phase := phase))
  {
    assert Costs(l') == Costs(l)[i := Cost(l.tasks, l.promises[i].(phase := phase))];
    SumUpdate(Costs(l), i, Cost(l.tasks, l.promises[i].(phase := phase)));
  }

  /** Whatever the event loop does next, other than accepting a new job, uses up some of the work left. */
  lemma EventSpendsWork(l: Loop, f: nat, e: Event)
    requires Inv(l, f) && Effective(l, e)
    ensures WorkLeft(Step(l, e)) < WorkLeft(l)
  {
    hide Chained, Frontier, WorkLeft;
    OnlyFrontierMoves(l, f, e.promise);
    PhaseWork(l, f, Step(l, e).promises[f].phase, Step(l, e));
  }

  /** Where nothing can happen any more, every promise is settled. */
  lemma StuckIsSettled(l: Loop, f: nat)
    requires Inv(l, f) && forall e :: !Effective(l, e)
    ensures f == |l.promises|
  {
    if f < |l.promises| {
      assert !Effective(l, Fire(f)) && !Effective(l, Work(f)) && !Effective(l, Done(f));
      if l.promises[f].phase.Running? {
        RunningActive(l, f);
      }
    }
  }

  /** A schedule without arrivals in which every event changes something. */
  predicate Busy(l: Loop, schedule: seq<Event>)
  {
    forall k :: 0 <= k < |schedule| ==> Effective(Run(l, schedule[..k]), schedule[k])
  }

  /**
   * Without arrivals no schedule goes on for ever: it has at most as many events as there is work left. And wherever
   * it can go no further, every job has settled and the state is that of running the jobs one after another.
   */
  lemma {:induction false} EveryScheduleDrains(events: seq<Event>, schedule: seq<Event>)
    requires Busy(Run(IDLE, events), schedule)
    ensures var l, l' := Run(IDLE, events), Run(Run(IDLE, events), schedule);
            && l'.tasks == l.tasks
            && |schedule| + WorkLeft(l') <= WorkLeft(l)
            && ((forall e :: !Effective(l', e)) ==>
                  (forall i :: 0 <= i < |l'.promises| ==> Settled(l'.promises[i])) && l'.shared == Sequential(l.tasks))
  {
    hide Inv, Step, WorkLeft, Effective;
    var l := Run(IDLE, events);
    RunConcat(IDLE, events, schedule);
    ScheduleSpendsWork(events, schedule);
    var f := EveryRun(events + schedule);
    if forall e :: !Effective(Run(l, schedule), e) {
      StuckIsSettled(Run(l, schedule), f);
      SettledIsSequential(Run(l, schedule), f);
    }
  }

  lemma SettledIsSequential(l: Loop, f: nat)
    requires Inv(l, f) && f == |l.promises|
    ensures (forall i :: 0 <= i < |l.promises| ==> Settled(l.promises[i])) && l.shared == Sequential(l.tasks)
  {
    assert l.tasks[..|l.tasks|] == l.tasks;
  }

  lemma {:induction false} ScheduleSpendsWork(events: seq<Event>, schedule: seq<Event>)
    requires Busy(Run(IDLE, events), schedule)
    ensures var l, l' := Run(IDLE, events), Run(Run(IDLE, events), schedule);
            l'.tasks == l.tasks && |schedule| + WorkLeft(l') <= WorkLeft(l)
  {
    hide Inv, Step, WorkLeft, Effective;
    var l, n := Run(IDLE, events), |schedule| - 1;
    if n >= 0 {
      var front, e := schedule[..n], schedule[n];
      assert forall k :: 0 <= k < n ==> front[..k] == schedule[..k];
      ScheduleSpendsWork(events, front);
      RunConcat(IDLE, events, front);
      var f := EveryRun(events + front);
      EventSpendsWork(Run(l, front), f, e);
      TasksStay(Run(l, front), e);
    }
  }

  lemma TasksStay(l: Loop, e: Event)
    requires Effective(l, e)
    ensures Step(l, e).tasks == l.tasks
  {
  }

  // ---- The settlement handler behind the queue ----

  /** A settlement request as a job: the handler catches its own errors, and on success makes its two assignments. */
  function SettlementTask(message: seq<Bytes32>, actionId: Option<Bytes32>): Task
  {
    if actionId.None? || Compute(message, actionId.value).Thrown? then Handler([], false)
    else Handler([CountUp, SetLast(Compute(message, actionId.value).policyId)], false)
  }

  datatype Arrived = Request(message: seq<Bytes32>, actionId: Option<Bytes32>) | StateQuery

  function TaskOf(a: Arrived): Task
  {
    match a
    case Request(message, actionId) => SettlementTask(message, actionId)
    case StateQuery => ReadState
  }

  function Tasks(arrived: seq<Arrived>): (tasks: seq<Task>)
    ensures |tasks| == |arrived| && forall k :: 0 <= k < |tasks| ==> tasks[k] == TaskOf(arrived[k])
  {
    seq(|arrived|, k requires 0 <= k < |arrived| => TaskOf(arrived[k]))
  }

  /** The handler's state after each request in turn. */
  function HandledAll(arrived: seq<Arrived>): AppState
  {
    if |arrived| == 0 then AppState(0, None)
    else
      var before, last := HandledAll(arrived[..|arrived| - 1]), arrived[|arrived| - 1];
      if last.Request? then Handled(before, last.message, last.actionId) else before
  }

  /** Run whole, the job of a request changes the state as the handler does. */
  lemma TaskIsHandled(s: AppState, a: Arrived)
    ensures AssignAll(s, WritesOf(TaskOf(a))) == if a.Request? then Handled(s, a.message, a.actionId) else s
  {
    hide Compute;
    var writes := WritesOf(TaskOf(a));
    if |writes| == 2 {
      assert writes[..1] == [CountUp] && [CountUp][..0] == [];
      assert AssignAll(s, [CountUp]) == Assign(s, CountUp);
    }
  }

  lemma {:induction false} SequentialIsHandled(arrived: seq<Arrived>)
    ensures Sequential(Tasks(arrived)) == HandledAll(arrived)
  {
    hide Handled, TaskOf, AssignAll;
    var n := |arrived| - 1;
    if n >= 0 {
      SequentialIsHandled(arrived[..n]);
      assert Tasks(arrived)[..n] == Tasks(arrived[..n]);
      TaskIsHandled(HandledAll(arrived[..n]), arrived[n]);
    }
  }

  /** A request that the extension answers. */
  predicate Answered(a: Arrived)
  {
    && a.Request? && a.actionId.Some?
    && DecodeRequest(a.message).Some? && WellFormed(DecodeRequest(a.message).value)
  }

  function AnsweredCount(arrived: seq<Arrived>): nat
  {
    if |arrived| == 0 then 0
    else AnsweredCount(arrived[..|arrived| - 1]) + (if Answered(arrived[|arrived| - 1]) then 1 else 0)
  }

  /** Request `k` is the latest that was answered, and it was for this policy. */
  predicate LatestAnswered(arrived: seq<Arrived>, k: nat, policyId: Bytes32)
  {
    && k < |arrived| && Answered(arrived[k]) && DecodeRequest(arrived[k].message).value.policyId == policyId
    && forall j :: k < j < |arrived| ==> !Answered(arrived[j])
  }

  /** The state after some requests: how many were answered, and for which policy the latest of them was. */
  ghost predicate Reports(s: AppState, arrived: seq<Arrived>)
  {
    && s.processed == AnsweredCount(arrived)
    && (s.lastPolicyId.None? ==> forall k :: 0 <= k < |arrived| ==> !Answered(arrived[k]))
    && (s.lastPolicyId.Some? ==> exists k: nat :: LatestAnswered(arrived, k, s.lastPolicyId.value))
  }

  lemma {:induction false} HandledAllReports(arrived: seq<Arrived>)
    ensures Reports(HandledAll(arrived), arrived)
  {
    hide Handled, Answered, DecodeRequest;
    var n := |arrived| - 1;
    if n >= 0 {
      var front, s := arrived[..n], HandledAll(arrived[..n]);
      HandledAllReports(front);
      OneMore(s, arrived[n]);
      if Answered(arrived[n]) {
        LatestIsLast(arrived);
      } else if s.lastPolicyId.Some? {
        var k: nat :| LatestAnswered(front, k, s.lastPolicyId.value);
        assert LatestAnswered(arrived, k,
                              s.lastPolicyId.value) by { LatestStays(front, k, s.lastPolicyId.value, arrived); }
      }
    }
  }

  lemma LatestIsLast(arrived: seq<Arrived>)
    requires |arrived| > 0 && Answered(arrived[|arrived| - 1])
    ensures var policyId := DecodeRequest(arrived[|arrived| - 1].message).value.policyId;
            LatestAnswered(arrived, |arrived| - 1, policyId)
  {
  }

  lemma LatestStays(front: seq<Arrived>, k: nat, policyId: Bytes32, arrived: seq<Arrived>)
    requires LatestAnswered(front, k, policyId)
    requires |arrived| == |front| + 1 && arrived[..|front|] == front && !Answered(arrived[|front|])
    ensures LatestAnswered(arrived, k, policyId)
  {
    assert forall j :: 0 <= j < |front| ==> arrived[j] == front[j];
  }

  lemma OneMore(s: AppState, a: Arrived)
    ensures var s' := if a.Request? then Handled(s, a.message, a.actionId) else s;
            if Answered(a) then s' == AppState(s.processed + 1, Some(DecodeRequest(a.message).value.policyId))
              else s' == s
  {
    hide Handled, DecodeRequest, WellFormed;
    if a.Request? { ReplyTellsTruth(s, a.message, a.actionId); }
  }

  /**
   * A state query sees the count and last policy id after exactly the requests queued before it, however jobs
   * interleave: as many as were answered, and the policy of the latest of these.
   */
  lemma QuerySeesCompletedRequests(events: seq<Event>, arrived: seq<Arrived>, k: nat)
    requires Run(IDLE, events).tasks == Tasks(arrived) && k in Run(IDLE, events).observed
    ensures k < |arrived| && arrived[k].StateQuery? && Run(IDLE, events).observed[k] == HandledAll(arrived[..k])
    ensures Reports(Run(IDLE, events).observed[k], arrived[..k])
  {
    hide Run, Compute, Reports;
    ReadsSeeWholeTasks(events, k);
    assert Tasks(arrived)[..k] == Tasks(arrived[..k]);
    SequentialIsHandled(arrived[..k]);
    HandledAllReports(arrived[..k]);
  }

  // ---- What the callers get ----

  /** A job's own promise is rejected exactly if the job threw; the promises in between never are. */
  predicate OutcomeRight(l: Loop, p: Promise)
  {
    && (p.phase.Rejected? ==> p.callback.RunTask?)
    && (Settled(p) && p.callback.RunTask? ==>
          && p.callback.index < |l.tasks|
          && (p.phase.Rejected? <==> l.tasks[p.callback.index].Handler? && l.tasks[p.callback.index].throws))
  }

  predicate OutcomesRight(l: Loop) { forall i :: 0 <= i < |l.promises| ==> OutcomeRight(l, l.promises[i]) }

  lemma StepKeepsOutcomes(l: Loop, e: Event)
    requires OutcomesRight(l)
    ensures OutcomesRight(Step(l, e))
  {
    var l' := Step(l, e);
    forall i | 0 <= i < |l'.promises| ensures OutcomeRight(l', l'.promises[i]) {
      if i < |l.promises| { assert OutcomeRight(l, l.promises[i]); }
    }
  }

  /** However events interleave, each caller learns the outcome of its own job, and no failure reaches the next one. */
  lemma {:induction false} OutcomesReported(events: seq<Event>)
    ensures OutcomesRight(Run(IDLE, events))
  {
    hide Step, OutcomesRight;
    if |events| == 0 {
      IdleOutcomes();
    } else {
      OutcomesReported(events[..|events| - 1]);
      StepKeepsOutcomes(Run(IDLE, events[..|events| - 1]), events[|events| - 1]);
    }
  }

  lemma IdleOutcomes()
    ensures OutcomesRight(IDLE)
  {
  }

  /** The arrivals of these tasks, with nothing run in between. */
  function Arrivals(tasks: seq<Task>): (events: seq<Event>)
    ensures |events| == |tasks| && forall k :: 0 <= k < |tasks| ==> events[k] == Arrive(tasks[k])
  {
    seq(|tasks|, k requires 0 <= k < |tasks| => Arrive(tasks[k]))
  }

  /**
   * Whatever has run in between: the same tasks in the same order give the same chain of `then` calls and callbacks.
   */
  lemma ChainFixed(events: seq<Event>)
    ensures var l := Run(IDLE, events);
            var l' := Run(IDLE, Arrivals(l.tasks));
            && l'.tasks == l.tasks && l'.queue == l.queue && |l'.promises| == |l.promises|
            && forall i :: 1 <= i < |l.promises| ==>
                 l.promises[i].source == l'.promises[i].source && l.promises[i].callback == l'.promises[i].callback
  {
    hide Run, Frontier, Refines, Records;
    var tasks := Run(IDLE, events).tasks;
    var f := EveryRun(events);
    var f' := EveryRun(Arrivals(tasks));
    ArrivalsQueue(tasks);
  }

  lemma {:induction false} ArrivalsQueue(tasks: seq<Task>)
    ensures Run(IDLE, Arrivals(tasks)).tasks == tasks
  {
    var n := |tasks| - 1;
    if n >= 0 {
      ArrivalsQueue(tasks[..n]);
      ArrivalsSnoc(tasks[..n], tasks[n]);
      assert tasks[..n] + [tasks[n]] == tasks;
    }
  }

  lemma ArrivalsSnoc(tasks: seq<Task>, task: Task)
    ensures Run(IDLE, Arrivals(tasks + [task])) == Serialize(Run(IDLE, Arrivals(tasks)), task)
  {
    assert Arrivals(tasks + [task])[..|tasks|] == Arrivals(tasks);
  }

  /**
   * The server object: `serialize` reassigns its queue field on every call. After any calls, its promises and queue
   * are those of the event loop on the same arrivals; how far the loop has run them is not the object's business.
   */
  class Server {
    var promises: seq<Promise>
    var queue: nat
    ghost var tasks: seq<Task>

    ghost predicate Valid()
      reads this
    {
      var l := Run(IDLE, Arrivals(tasks));
      promises == l.promises && queue == l.queue && l.tasks == tasks
    }

    constructor ()
      ensures Valid() && tasks == []
    {
      promises, queue, tasks := [Promise(0, Swallow, Fulfilled)], 0, [];
    }

    /** The promise of the `i`-th `then` call. */
    method Then(source: nat, callback: Callback) returns (promise: nat)
      modifies this`promises
      ensures promise == |old(promises)|
      ensures promises == old(promises) + [Promise(source, callback, Waiting)]
    {
      promise := |promises|;
      promises := promises + [Promise(source, callback, Waiting)];
    }

    /** The task joins the queue: it will run after the present tail, and everything later after it. */
    method SerializeTask(index: nat, ghost task: Task) returns (run: nat)
      requires Valid() && index == |tasks|
      modifies this
      ensures Valid() && tasks == old(tasks) + [task]
      ensures run < |promises| && promises[run].callback == RunTask(index) && promises[run].source == old(queue)
      ensures queue == run + 1 == |promises| - 1 && promises[queue].callback == Swallow && promises[queue].source == run
    {
      hide Run;
      ArrivalsSnoc(tasks, task);
      ArrivalsQueue(tasks);
      run := Then(queue, RunTask(index));
      queue := Then(run, Swallow);
      tasks := tasks + [task];
    }
  }
}
