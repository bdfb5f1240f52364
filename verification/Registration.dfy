/**
 * The crash-resumable registration driver. A run executes up to four stages selected by a command string,
 * saving a state file after each completed stage; a later run with the same command resumes from the file.
 * A returned error is a crash: the process is gone, the file and the chain remain.
 */
module Registration {
  import opened Evm

  /**
   * The command, the instruction id given on the command line, and the id the chain returns for its n-th transaction.
   */
  datatype Config = Config(command: string, givenId: nat, ids: nat -> nat)

  datatype SavedState = SavedState(completed: string, attestId: nat, instructionId: nat)

  const NOTHING_DONE: SavedState := SavedState("", 0, 0)

  /** Transactions sent, with the instruction ids they returned. */
  datatype Effect =
    | Register(id: nat)
    | RequestAttestation(id: nat)
    | RequestAvailability(attestId: nat, id: nat)
    | Promote(instructionId: nat)

  /**
   * A process between two micro-steps: `pc` 0, 2, 4, 6 are the starts of the stages r, R, a, p; 1, 3, 5 lie
   * between a stage's transaction and its save; 7 precedes the removal of the file and 8 is the end.
   */
  datatype Process = Process(state: SavedState, attestId: nat, instructionId: nat, pc: nat)

  datatype Machine = Machine(calls: seq<Effect>, registered: bool, file: Option<SavedState>, process: Option<Process>)

  function Fresh(registered: bool): Machine { Machine([], registered, None, None) }

  function Load(file: Option<SavedState>): SavedState { if file.Some? then file.value else NOTHING_DONE }

  function Start(m: Machine): Machine
  {
    if m.process.Some? then m else m.(process := Some(Process(Load(m.file), 0, 0, 0)))
  }

  /** The id of the next transaction. */
  function NextId(g: Config, m: Machine): nat { g.ids(|m.calls|) }

  function Send(m: Machine, e: Effect, p: Process): Machine
  {
    m.(calls := m.calls + [e], process := Some(p))
  }

  function Save(m: Machine, p: Process, s: SavedState): Machine
  {
    m.(file := Some(s), process := Some(p.(state := s, pc := p.pc + 1)))
  }

  function GoTo(m: Machine, p: Process, pc: nat): Machine { m.(process := Some(p.(pc := pc))) }

  /** One micro-step of the running process. */
  function Advance(g: Config, m: Machine): Machine
  {
    if m.process.None? then m else
    var p := m.process.value;
    var s, id := p.state, NextId(g, m);
    if p.pc == 0 then
      if 'r' !in g.command then GoTo(m, p, 2)
      else if 'r' in s.completed then GoTo(m, p.(attestId := s.attestId), 2)
      else if m.registered then Send(m, RequestAttestation(id), p.(attestId := id, pc := 1))
      else Send(m, Register(id), p.(attestId := id, pc := 1)).(registered := true)
    else if p.pc == 1 then Save(m, p, s.(completed := s.completed + "r", attestId := p.attestId))
    else if p.pc == 2 then
      if 'R' !in g.command then GoTo(m, p, 4)
      else if 'R' in s.completed then GoTo(m, p.(attestId := s.attestId), 4)
      else Send(m, RequestAttestation(id), p.(attestId := id, pc := 3))
    else if p.pc == 3 then Save(m, p, s.(completed := s.completed + "R", attestId := p.attestId))
    else if p.pc == 4 then
      if 'a' !in g.command then GoTo(m, p.(instructionId := g.givenId), 6)
      else if 'a' in s.completed then GoTo(m, p.(instructionId := s.instructionId), 6)
      else Send(m, RequestAvailability(p.attestId, id), p.(instructionId := id, pc := 5))
    else if p.pc == 5 then Save(m, p, s.(completed := s.completed + "a", instructionId := p.instructionId))
    else if p.pc == 6 then
      if 'p' in g.command then Send(m, Promote(p.instructionId), p.(pc := 7)) else GoTo(m, p, 7)
    else if p.pc == 7 then GoTo(m.(file := None), p, 8)
    else m
  }

  function Steps(g: Config, m: Machine, n: nat): Machine
    decreases n
  {
    if n == 0 then m else Steps(g, Advance(g, m), n - 1)
  }

  /** Eight micro-steps suffice for a whole run. */
  function Complete(g: Config, m: Machine): Machine { Steps(g, Start(m), 8) }

  predicate Finished(m: Machine) { m.process.Some? && m.process.value.pc == 8 }

  /** A process dies; a finished one has already returned. */
  function Crash(m: Machine): Machine { if Finished(m) then m else m.(process := None) }

  datatype Event = Launch | Tick | Die

  function React(g: Config, m: Machine, e: Event): Machine
  {
    match e
    case Launch => Start(m)
    case Tick => Advance(g, m)
    case Die => Crash(m)
  }

  function Run(g: Config, m: Machine, events: seq<Event>): Machine
  {
    if |events| == 0 then m else React(g, Run(g, m, events[..|events| - 1]), events[|events| - 1])
  }

  // ---- What the file and the process agree on ----

  predicate AttestDone(g: Config, s: SavedState) { 'r' in g.command ==> 'r' in s.completed }

  predicate FreshDone(g: Config, s: SavedState) { 'R' in g.command ==> 'R' in s.completed }

  /** The id a process must hold once its attestation stages are behind it. */
  function AttestIdAt(g: Config, s: SavedState): nat
  {
    if 'r' in g.command || 'R' in g.command then s.attestId else 0
  }

  predicate InStep(g: Config, p: Process)
  {
    var s := p.state;
    && p.pc <= 8
    && (p.pc == 0 ==> p.attestId == 0)
    && (p.pc < 5 ==> p.instructionId == 0)
    && (p.pc == 1 ==> 'r' in g.command && 'r' !in s.completed)
    && (p.pc >= 2 ==> AttestDone(g, s))
    && (p.pc == 2 ==> p.attestId == (if 'r' in g.command then s.attestId else 0))
    && (p.pc == 3 ==> 'R' in g.command && 'R' !in s.completed)
    && (p.pc >= 4 ==> FreshDone(g, s) && p.attestId == AttestIdAt(g, s))
    && (p.pc == 5 ==> 'a' in g.command && 'a' !in s.completed)
    && (p.pc >= 6 ==> if 'a' in g.command then 'a' in s.completed && p.instructionId == s.instructionId
                      else p.instructionId == g.givenId)
  }

  predicate Consistent(g: Config, m: Machine)
  {
    m.process.Some? ==>
      InStep(g, m.process.value) && (m.process.value.pc == 8 || m.process.value.state == Load(m.file))
  }

  lemma AttestStagesKeep(g: Config, m: Machine)
    requires Consistent(g, m) && m.process.Some? && m.process.value.pc <= 3
    ensures Consistent(g, Advance(g, m))
  {
  }

  lemma LateStagesKeep(g: Config, m: Machine)
    requires Consistent(g, m) && m.process.Some? && m.process.value.pc > 3
    ensures Consistent(g, Advance(g, m))
  {
  }

  lemma LaunchKeeps(g: Config, m: Machine)
    requires Consistent(g, m)
    ensures Consistent(g, Start(m)) && Consistent(g, Crash(m))
  {
  }

  lemma ReactKeeps(g: Config, m: Machine, e: Event)
    requires Consistent(g, m)
    ensures Consistent(g, React(g, m, e))
  {
    hide Consistent;
    LaunchKeeps(g, m);
    if m.process.None? {
      NoProcess(g, m);
    } else if m.process.value.pc <= 3 {
      AttestStagesKeep(g, m);
    } else {
      LateStagesKeep(g, m);
    }
  }

  // ---- Crashes at stage boundaries are harmless ----

  /** No transaction of the running process is still unsaved. */
  predicate AtBoundary(m: Machine) { m.process.Some? ==> m.process.value.pc in {0, 2, 4, 6, 8} }

  /** A process that dies at a boundary is rebuilt, exactly, by as many steps as stages lie behind it. */
  lemma ResumeRebuilds(g: Config, m: Machine)
    requires Consistent(g, m) && m.process.Some? && m.process.value.pc in {0, 2, 4, 6}
    ensures Steps(g, Start(Crash(m)), m.process.value.pc / 2) == m
  {
    var pc := m.process.value.pc;
    var m0 := Start(Crash(m));
    if pc == 2 {
      assert Steps(g, m0, 1) == Steps(g, Advance(g, m0), 0);
    } else if pc == 4 {
      assert Steps(g, m0, 2) == Steps(g, Advance(g, m0), 1) == Steps(g, Advance(g, Advance(g, m0)), 0);
    } else if pc == 6 {
      var m1 := Advance(g, m0);
      var m2 := Advance(g, m1);
      assert Steps(g, m0, 3) == Steps(g, m1, 2) == Steps(g, m2, 1) == Steps(g, Advance(g, m2), 0);
    }
  }

  lemma {:induction false} StepsAdd(g: Config, m: Machine, j: nat, k: nat)
    ensures Steps(g, m, j + k) == Steps(g, Steps(g, m, j), k)
    decreases j
  {
    hide Advance;
    if j > 0 {
      StepsAdd(g, Advance(g, m), j - 1, k);
    }
  }

  /** Micro-steps a process has left, at most. */
  function Left(m: Machine): nat { if m.process.Some? && m.process.value.pc <= 8 then 8 - m.process.value.pc else 8 }

  /** Once there, more steps change nothing. */
  lemma {:induction false} EndIsStable(g: Config, m: Machine, n: nat)
    requires Consistent(g, m) && m.process.Some? && Left(m) <= n
    ensures Steps(g, m, n) == Steps(g, m, 8) && Finished(Steps(g, m, 8))
  {
    StepsToEnd(g, m, n);
    StepsToEnd(g, m, 8);
  }

  /** Each micro-step brings the process closer to its end, and none moves it from there. */
  lemma AdvanceProgresses(g: Config, m: Machine)
    requires Consistent(g, m) && m.process.Some?
    ensures Advance(g, m).process.Some? && Left(Advance(g, m)) <= (if Left(m) > 0 then Left(m) - 1 else 0)
    ensures Left(m) == 0 ==> Finished(m) && Advance(g, m) == m
  {
  }

  lemma {:induction false} StepsToEnd(g: Config, m: Machine, n: nat)
    requires Consistent(g, m) && m.process.Some? && Left(m) <= n
    ensures Steps(g, m, n) == Steps(g, m, Left(m)) && Finished(Steps(g, m, n))
    decreases n
  {
    hide Advance, Consistent;
    if n > 0 {
      ReactKeeps(g, m, Tick);
      AdvanceProgresses(g, m);
      StepsToEnd(g, Advance(g, m), n - 1);
      if Left(m) > 0 {
        StepsToEnd(g, Advance(g, m), Left(m) - 1);
      }
    }
  }

  /** Launching, one step, or a crash at a boundary does not change where the run will end up. */
  lemma SameDestination(g: Config, m: Machine, e: Event)
    requires Consistent(g, m) && (e.Die? ==> AtBoundary(m))
    ensures Complete(g, React(g, m, e)) == Complete(g, m)
  {
    hide Advance;
    match e
    case Launch =>
    case Tick =>
      if m.process.Some? {
        ReactKeeps(g, m, Tick);
        AdvanceRuns(g, m);
        StepsAdd(g, m, 1, 8);
        assert Steps(g, m, 1) == Steps(g, Advance(g, m), 0);
        EndIsStable(g, m, 9);
      } else {
        NoProcess(g, m);
      }
    case Die =>
      if m.process.Some? && !Finished(m) {
        var m0, k := Start(Crash(m)), m.process.value.pc / 2;
        ReactKeeps(g, Crash(m), Launch);
        ResumeRebuilds(g, m);
        StepsAdd(g, m0, k, 8);
        EndIsStable(g, m0, k + 8);
      }
  }

  lemma AdvanceRuns(g: Config, m: Machine)
    requires m.process.Some?
    ensures Advance(g, m).process.Some?
  {
  }

  lemma NoProcess(g: Config, m: Machine)
    requires m.process.None?
    ensures Advance(g, m) == m
  {
  }

  predicate DiesAtBoundaries(g: Config, m: Machine, events: seq<Event>)
  {
    forall k :: 0 <= k < |events| && events[k].Die? ==> AtBoundary(Run(g, m, events[..k]))
  }

  /**
   * Crash-resume equivalence: any number of crashes at stage boundaries and resumptions with the same command
   * lead, once finished, to exactly the transactions and instruction ids of one uninterrupted run.
   */
  lemma {:induction false} ResumedRunsAgree(g: Config, registered: bool, events: seq<Event>)
    requires DiesAtBoundaries(g, Fresh(registered), events)
    ensures Complete(g, Run(g, Fresh(registered), events)) == Complete(g, Fresh(registered))
    ensures Finished(Run(g, Fresh(registered), events)) ==>
              Run(g, Fresh(registered), events) == Complete(g, Fresh(registered))
  {
    var m := Run(g, Fresh(registered), events);
    DestinationFixed(g, registered, events);
    if Finished(m) {
      StepsToEnd(g, m, 8);
    }
  }

  lemma {:induction false} DestinationFixed(g: Config, registered: bool, events: seq<Event>)
    requires DiesAtBoundaries(g, Fresh(registered), events)
    ensures Consistent(g, Run(g, Fresh(registered), events))
    ensures Complete(g, Run(g, Fresh(registered), events)) == Complete(g, Fresh(registered))
  {
    hide Advance, Consistent, React, Complete, AtBoundary;
    var n := |events| - 1;
    if n < 0 {
      FreshConsistent(g, registered);
    } else {
      forall k | 0 <= k < n && events[..n][k].Die? ensures AtBoundary(Run(g, Fresh(registered), events[..n][..k])) {
        assert events[..n][..k] == events[..k] && events[k].Die?;
      }
      DestinationFixed(g, registered, events[..n]);
      ReactKeeps(g, Run(g, Fresh(registered), events[..n]), events[n]);
      SameDestination(g, Run(g, Fresh(registered), events[..n]), events[n]);
    }
  }

  lemma FreshConsistent(g: Config, registered: bool)
    ensures Consistent(g, Fresh(registered))
  {
  }

  // ---- Exactly which crashes are harmless ----

  function One(b: bool): nat { if b then 1 else 0 }

  /** Transactions the process at `pc` with saved state `s` will still send. */
  function StillToSend(g: Config, s: SavedState, pc: nat): nat
  {
    One(pc == 0 && 'r' in g.command && 'r' !in s.completed) + One(pc <= 2 && 'R' in g.command && 'R' !in s.completed)
    + One(pc <= 4 && 'a' in g.command && 'a' !in s.completed) + One(pc <= 6 && 'p' in g.command)
  }

  lemma AdvanceSends(g: Config, m: Machine)
    requires Consistent(g, m) && m.process.Some?
    ensures var m' := Advance(g, m);
            && m'.process.Some? && m.calls <= m'.calls
            && |m'.calls| + StillToSend(g, m'.process.value.state, m'.process.value.pc)
               == |m.calls| + StillToSend(g, m.process.value.state, m.process.value.pc)
  {
  }

  lemma {:induction false} StepsSend(g: Config, m: Machine, n: nat)
    requires Consistent(g, m) && m.process.Some?
    ensures var m' := Steps(g, m, n);
            && m'.process.Some? && m.calls <= m'.calls
            && |m'.calls| + StillToSend(g, m'.process.value.state, m'.process.value.pc)
               == |m.calls| + StillToSend(g, m.process.value.state, m.process.value.pc)
    decreases n
  {
    hide Advance, Consistent, StillToSend;
    if n > 0 {
      AdvanceSends(g, m);
      ReactKeeps(g, m, Tick);
      StepsSend(g, Advance(g, m), n - 1);
    }
  }

  /** A whole run sends exactly what is still to send. */
  lemma CompleteSends(g: Config, m: Machine)
    requires Consistent(g, m) && m.process.Some?
    ensures m.calls <= Complete(g, m).calls
    ensures |Complete(g, m).calls| == |m.calls| + StillToSend(g, m.process.value.state, m.process.value.pc)
  {
    hide Advance, Consistent;
    StepsSend(g, m, 8);
    EndIsStable(g, m, 8);
  }

  /**
   * A crash leaves the final transactions unchanged exactly when no transaction of the current stage is unsaved:
   * a crash between a transaction and its save sends it again, and so does one between promotion and file removal.
   */
  lemma CrashHarmlessIff(g: Config, m: Machine)
    requires Consistent(g, m) && m.process.Some?
    ensures var pc := m.process.value.pc;
            Complete(g, Crash(m)).calls == Complete(g, m).calls <==>
              pc in {0, 2, 4, 6, 8} || (pc == 7 && 'p' !in g.command)
  {
    hide Advance;
    var pc := m.process.value.pc;
    if AtBoundary(m) {
      SameDestination(g, m, Die);
    } else {
      ReactKeeps(g, Crash(m), Launch);
      CompleteSends(g, m);
      CompleteSends(g, Start(Crash(m)));
    }
  }

  // ---- Exactly which runs are equivalent to an uninterrupted one ----

  /** The process at this point can die without a transaction being sent twice; so can one that is not there. */
  predicate MayDie(g: Config, m: Machine)
  {
    m.process.Some? ==> m.process.value.pc in {0, 2, 4, 6, 8} || (m.process.value.pc == 7 && 'p' !in g.command)
  }

  predicate DiesHarmlessly(g: Config, m: Machine, events: seq<Event>)
  {
    forall k :: 0 <= k < |events| && events[k].Die? ==> MayDie(g, Run(g, m, events[..k]))
  }

  /** The transactions that will have been sent in the end. */
  function FinalCalls(g: Config, m: Machine): seq<Effect> { Complete(g, m).calls }

  /** A crash never makes them fewer, and a harmful one makes them more: what one crash repeats no other takes back. */
  lemma EventAddsCalls(g: Config, m: Machine, e: Event)
    requires Consistent(g, m)
    ensures |FinalCalls(g, React(g, m, e))| >= |FinalCalls(g, m)|
    ensures !e.Die? || MayDie(g, m) ==> FinalCalls(g, React(g, m, e)) == FinalCalls(g, m)
    ensures e.Die? && !MayDie(g, m) ==> |FinalCalls(g, React(g, m, e))| > |FinalCalls(g, m)|
  {
    hide Advance, Complete;
    if !e.Die? {
      SameDestination(g, m, e);
    } else if m.process.Some? {
      CrashHarmlessIff(g, m);
      if !MayDie(g, m) { HarmfulCrash(g, m); }
    }
  }

  lemma HarmfulCrash(g: Config, m: Machine)
    requires Consistent(g, m) && m.process.Some? && !MayDie(g, m)
    ensures |FinalCalls(g, Crash(m))| > |FinalCalls(g, m)|
  {
    hide Advance, Complete;
    ReactKeeps(g, m, Die);
    ReactKeeps(g, Crash(m), Launch);
    CompleteSends(g, m);
    CompleteSends(g, Start(Crash(m)));
    StartedAlready(g, Crash(m));
  }

  lemma StartedAlready(g: Config, m: Machine)
    ensures Complete(g, Start(m)) == Complete(g, m)
  {
  }

  lemma {:induction false} RunAddsCalls(g: Config, registered: bool, events: seq<Event>)
    ensures var m0 := Fresh(registered);
            var m := Run(g, m0, events);
            && Consistent(g, m)
            && (DiesHarmlessly(g, m0, events) ==> FinalCalls(g, m) == FinalCalls(g, m0))
            && (!DiesHarmlessly(g, m0, events) ==> |FinalCalls(g, m)| > |FinalCalls(g, m0)|)
            && |FinalCalls(g, m)| >= |FinalCalls(g, m0)|
  {
    hide Consistent, React, FinalCalls, MayDie;
    var m0, n := Fresh(registered), |events| - 1;
    if n < 0 {
      FreshConsistent(g, registered);
    } else {
      var front := events[..n];
      assert forall k :: 0 <= k < n ==> front[..k] == events[..k] && front[k] == events[k];
      RunAddsCalls(g, registered, front);
      ReactKeeps(g, Run(g, m0, front), events[n]);
      EventAddsCalls(g, Run(g, m0, front), events[n]);
      assert DiesHarmlessly(g, m0, events) <==>
             DiesHarmlessly(g, m0, front) && (events[n].Die? ==> MayDie(g, Run(g, m0, front)));
    }
  }

  /**
   * A finished run, whatever crashes and resumptions it went through, has sent exactly the transactions of one
   * uninterrupted run if and only if every crash was harmless: at a stage boundary, or before the removal of the file
   * with nothing promoted. Two harmful crashes cannot make up for each other.
   */
  lemma RunsAgreeIff(g: Config, registered: bool, events: seq<Event>)
    requires Finished(Run(g, Fresh(registered), events))
    ensures Run(g, Fresh(registered), events).calls == Complete(g, Fresh(registered)).calls <==>
            DiesHarmlessly(g, Fresh(registered), events)
  {
    hide Advance, Consistent, Run;
    var m := Run(g, Fresh(registered), events);
    RunAddsCalls(g, registered, events);
    StepsAtEnd(g, m, 8);
  }

  lemma RunSnoc(g: Config, m: Machine, events: seq<Event>, e: Event)
    ensures Run(g, m, events + [e]) == React(g, Run(g, m, events), e)
  {
    hide React;
    assert (events + [e])[..|events|] == events;
  }

  /** Crashed between its only transaction and the save, a process of stage R. */
  const UP_TO_CRASH: seq<Event> := [Launch, Tick, Tick, Die]

  lemma CrashedOnce(g: Config)
    requires g.command == "R"
    ensures Run(g, Fresh(true), UP_TO_CRASH) == Machine([RequestAttestation(g.ids(0))], true, None, None)
    ensures !DiesHarmlessly(g, Fresh(true), UP_TO_CRASH)
  {
    hide Run;
    var m0 := Fresh(true);
    assert Run(g, m0, []) == m0 by { RunNothing(g, m0); }
    RunSnoc(g, m0, [], Launch);
    assert [] + [Launch] == [Launch];
    RunSnoc(g, m0, [Launch], Tick);
    RunSnoc(g, m0, [Launch] + [Tick], Tick);
    RunSnoc(g, m0, [Launch] + [Tick] + [Tick], Die);
    assert UP_TO_CRASH == [Launch] + [Tick] + [Tick] + [Die];
    assert UP_TO_CRASH[..3] == [Launch] + [Tick] + [Tick];
  }

  lemma RunNothing(g: Config, m: Machine)
    ensures Run(g, m, []) == m
  {
  }

  /** One crash between a transaction and its save: the attestation that one run requests once is requested twice. */
  lemma RepeatedTransaction(g: Config)
    requires g.command == "R"
    ensures var m := Run(g, Fresh(true), UP_TO_CRASH);
            && |Complete(g, m).calls| == 2 && Complete(g, m).calls[0] == RequestAttestation(g.ids(0))
            && |Complete(g, Fresh(true)).calls| == 1
  {
    hide Run, Complete;
    CrashedOnce(g);
    StartedAlready(g, Fresh(true));
    StartedAlready(g, Run(g, Fresh(true), UP_TO_CRASH));
    CompleteSends(g, Start(Fresh(true)));
    CompleteSends(g, Start(Run(g, Fresh(true), UP_TO_CRASH)));
  }

  // ---- Safe under any crash ----

  function LastAttestation(calls: seq<Effect>): nat
  {
    if |calls| == 0 then 0 else
    match calls[|calls| - 1]
    case Register(id) => id
    case RequestAttestation(id) => id
    case _ => LastAttestation(calls[..|calls| - 1])
  }

  /** Every availability check names the attestation most recently requested. */
  predicate ChecksFresh(calls: seq<Effect>)
  {
    forall j :: 0 <= j < |calls| && calls[j].RequestAvailability? ==> calls[j].attestId == LastAttestation(calls[..j])
  }

  function Registrations(calls: seq<Effect>): nat
  {
    if |calls| == 0 then 0 else Registrations(calls[..|calls| - 1]) + One(calls[|calls| - 1].Register?)
  }

  predicate Tracks(g: Config, m: Machine)
  {
    && (AttestDone(g, Load(m.file)) && FreshDone(g, Load(m.file)) ==> Load(m.file).attestId == LastAttestation(m.calls))
    && ('r' !in g.command && 'R' !in g.command ==> LastAttestation(m.calls) == 0)
    && (m.process.Some? && m.process.value.pc in {1, 3, 4} ==> m.process.value.attestId == LastAttestation(m.calls))
  }

  /** The state kept whatever happens. */
  predicate SafeState(g: Config, unregistered: bool, m: Machine)
  {
    && Consistent(g, m) && Tracks(g, m) && ChecksFresh(m.calls)
    && Registrations(m.calls) == One(unregistered && m.registered)
    && (!unregistered ==> m.registered)
  }

  lemma AppendCall(calls: seq<Effect>, e: Effect)
    requires ChecksFresh(calls) && (e.RequestAvailability? ==> e.attestId == LastAttestation(calls))
    ensures ChecksFresh(calls + [e]) && Registrations(calls + [e]) == Registrations(calls) + One(e.Register?)
    ensures LastAttestation(calls + [e]) ==
            if e.Register? then e.id else if e.RequestAttestation? then e.id else LastAttestation(calls)
  {
    var all := calls + [e];
    assert all[..|all| - 1] == calls;
    forall j | 0 <= j < |all| && all[j].RequestAvailability? ensures all[j].attestId == LastAttestation(all[..j]) {
      assert all[..j] == calls[..j];
      if j < |calls| {
        assert all[j] == calls[j];
      } else {
        assert calls[..j] == calls;
      }
    }
  }

  lemma ReactSafe(g: Config, unregistered: bool, m: Machine, e: Event)
    requires SafeState(g, unregistered, m)
    ensures SafeState(g, unregistered, React(g, m, e))
  {
    if e.Tick? {
      AdvanceSafe(g, unregistered, m);
    } else {
      hide ChecksFresh, LastAttestation, Registrations, Advance;
      ReactKeeps(g, m, e);
    }
  }

  lemma AdvanceSafe(g: Config, unregistered: bool, m: Machine)
    requires SafeState(g, unregistered, m)
    ensures SafeState(g, unregistered, Advance(g, m))
  {
    hide ChecksFresh, LastAttestation, Registrations;
    ReactKeeps(g, m, Tick);
    var m' := Advance(g, m);
    if |m'.calls| > |m.calls| {
      AppendCall(m.calls, m'.calls[|m.calls|]);
      assert m'.calls == m.calls + [m'.calls[|m.calls|]];
    } else {
      assert m'.calls == m.calls;
    }
  }

  /**
   * Whatever crashes happen, also between a transaction and its save: the machine is registered at most once, and
   * every availability check carries the id of the attestation request that precedes it most recently, or the zero id
   * if the command requests none.
   */
  lemma {:induction false} SafeUnderAnyCrash(g: Config, registered: bool, events: seq<Event>)
    ensures var calls := Run(g, Fresh(registered), events).calls;
            ChecksFresh(calls) && Registrations(calls) <= 1 && (registered ==> Registrations(calls) == 0)
  {
    hide React;
    AlwaysSafe(g, registered, events);
  }

  lemma {:induction false} AlwaysSafe(g: Config, registered: bool, events: seq<Event>)
    ensures SafeState(g, !registered, Run(g, Fresh(registered), events))
  {
    hide React, SafeState;
    if |events| == 0 {
      FreshSafe(g, registered);
    } else {
      AlwaysSafe(g, registered, events[..|events| - 1]);
      ReactSafe(g, !registered, Run(g, Fresh(registered), events[..|events| - 1]), events[|events| - 1]);
    }
  }

  lemma FreshSafe(g: Config, registered: bool)
    ensures SafeState(g, !registered, Fresh(registered))
  {
  }

  // ---- What is promoted ----

  /** The id of the latest availability check, if there was one. */
  function LastCheck(calls: seq<Effect>): Option<nat>
  {
    if |calls| == 0 then None
    else if calls[|calls| - 1].RequestAvailability? then Some(calls[|calls| - 1].id)
    else LastCheck(calls[..|calls| - 1])
  }

  predicate PromotesWhat(g: Config, before: seq<Effect>, instructionId: nat)
  {
    if 'a' in g.command then LastCheck(before) == Some(instructionId) else instructionId == g.givenId
  }

  /** Every promotion is of the latest availability check, or of the given id if the command asks for no check. */
  predicate PromotesChecked(g: Config, calls: seq<Effect>)
  {
    forall j :: 0 <= j < |calls| && calls[j].Promote? ==> PromotesWhat(g, calls[..j], calls[j].instructionId)
  }

  /** Every transaction carries the id that the chain gave it. */
  predicate IdsInOrder(g: Config, calls: seq<Effect>)
  {
    forall j :: 0 <= j < |calls| && !calls[j].Promote? ==> calls[j].id == g.ids(j)
  }

  predicate ChecksKnown(g: Config, m: Machine)
  {
    && ('a' in Load(m.file).completed ==> LastCheck(m.calls) == Some(Load(m.file).instructionId))
    && (m.process.Some? && m.process.value.pc == 5 ==> LastCheck(m.calls) == Some(m.process.value.instructionId))
  }

  predicate PromotionState(g: Config, m: Machine)
  {
    Consistent(g, m) && ChecksKnown(g, m) && PromotesChecked(g, m.calls) && IdsInOrder(g, m.calls)
  }

  lemma OneMoreCall(g: Config, calls: seq<Effect>, e: Effect)
    requires PromotesChecked(g, calls) && IdsInOrder(g, calls)
    requires if e.Promote? then PromotesWhat(g, calls, e.instructionId) else e.id == g.ids(|calls|)
    ensures PromotesChecked(g, calls + [e]) && IdsInOrder(g, calls + [e])
    ensures LastCheck(calls + [e]) == if e.RequestAvailability? then Some(e.id) else LastCheck(calls)
  {
    var all := calls + [e];
    assert all[..|calls|] == calls;
    forall j | 0 <= j < |all| && all[j].Promote? ensures PromotesWhat(g, all[..j], all[j].instructionId) {
      assert all[..j] == calls[..j];
      if j < |calls| { assert all[j] == calls[j]; } else { assert calls[..j] == calls; }
    }
  }

  lemma AdvancePromotes(g: Config, m: Machine)
    requires PromotionState(g, m)
    ensures PromotionState(g, Advance(g, m))
  {
    hide PromotesChecked, IdsInOrder, LastCheck;
    ReactKeeps(g, m, Tick);
    hide Consistent;
    var m' := Advance(g, m);
    if |m'.calls| > |m.calls| {
      assert m'.calls == m.calls + [m'.calls[|m.calls|]];
      SentWell(g, m);
      OneMoreCall(g, m.calls, m'.calls[|m.calls|]);
      SentUnsaved(g, m);
    } else {
      assert m'.calls == m.calls;
      SavedWell(g, m);
    }
  }

  /** What a micro-step sends is a promotion of what was checked, or carries the next id. */
  lemma SentWell(g: Config, m: Machine)
    requires Consistent(g, m) && ChecksKnown(g, m) && |Advance(g, m).calls| > |m.calls|
    ensures var e := Advance(g, m).calls[|m.calls|];
            if e.Promote? then PromotesWhat(g, m.calls, e.instructionId) else e.id == g.ids(|m.calls|)
  {
    hide LastCheck;
  }

  lemma SentUnsaved(g: Config, m: Machine)
    requires Consistent(g, m) && ChecksKnown(g, m) && |Advance(g, m).calls| > |m.calls|
    requires var e := Advance(g, m).calls[|m.calls|];
             LastCheck(Advance(g, m).calls) == if e.RequestAvailability? then Some(e.id) else LastCheck(m.calls)
    ensures ChecksKnown(g, Advance(g, m))
  {
    hide LastCheck;
  }

  lemma SavedWell(g: Config, m: Machine)
    requires Consistent(g, m) && ChecksKnown(g, m) && Advance(g, m).calls == m.calls
    ensures ChecksKnown(g, Advance(g, m))
  {
    hide LastCheck;
  }

  /**
   * Whatever crashes happen and whatever the command: each promotion is of the latest availability check before it, or
   * of the given id if the command asks for none; and every transaction carries the id the chain gave it.
   */
  lemma {:induction false} PromotesUnderAnyCrash(g: Config, registered: bool, events: seq<Event>)
    ensures PromotionState(g, Run(g, Fresh(registered), events))
    ensures PromotesChecked(g, Run(g, Fresh(registered), events).calls)
    ensures IdsInOrder(g, Run(g, Fresh(registered), events).calls)
  {
    if |events| > 0 {
      var m, e := Run(g, Fresh(registered), events[..|events| - 1]), events[|events| - 1];
      PromotesUnderAnyCrash(g, registered, events[..|events| - 1]);
      hide Advance, PromotesChecked, IdsInOrder, LastCheck;
      if e.Tick? {
        hide PromotionState;
        AdvancePromotes(g, m);
      } else {
        ReactKeeps(g, m, e);
      }
    }
  }

  // ---- What one uninterrupted run does ----

  /** The transactions of the four stages, written down one after another. */
  function Attestations(g: Config, registered: bool): seq<Effect>
  {
    var first := if 'r' !in g.command then [] else if registered then [RequestAttestation(g.ids(0))]
      else [Register(g.ids(0))];
    if 'R' in g.command then first + [RequestAttestation(g.ids(|first|))] else first
  }

  function Script(g: Config, registered: bool): seq<Effect>
  {
    var attested := Attestations(g, registered);
    var attestId := if attested == [] then 0 else attested[|attested| - 1].id;
    var checked := if 'a' in g.command then attested + [RequestAvailability(attestId, g.ids(|attested|))] else attested;
    if 'p' in g.command
    then checked + [Promote(if 'a' in g.command then g.ids(|attested|) else g.givenId)]
    else checked
  }

  /** The run is at the start of a stage, and completing it completes the whole. */
  predicate OnTheWay(g: Config, m: Machine, whole: Machine)
  {
    Consistent(g, m) && m.process.Some? && Steps(g, m, 8) == whole
  }

  lemma OneStepOn(g: Config, m: Machine, whole: Machine)
    requires OnTheWay(g, m, whole)
    ensures OnTheWay(g, Advance(g, m), whole)
  {
    hide Advance, Consistent;
    SameDestination(g, m, Tick);
    ReactKeeps(g, m, Tick);
    AdvanceRuns(g, m);
  }

  lemma RegisterStage(g: Config, registered: bool) returns (m: Machine)
    ensures OnTheWay(g, m, Complete(g, Fresh(registered)))
    ensures m.process.value.pc == 2 && m.process.value.instructionId == 0
            && m.registered == (registered || 'r' in g.command)
    ensures m.process.value.state.completed == (if 'r' in g.command then "r" else "")
    ensures m.calls == if 'r' !in g.command then [] else if registered then [RequestAttestation(g.ids(0))]
            else [Register(g.ids(0))]
    ensures m.process.value.attestId == if 'r' in g.command then g.ids(0) else 0
  {
    hide OnTheWay;
    m := Start(Fresh(registered));
    assert OnTheWay(g, m, Complete(g, Fresh(registered))) by { FreshOnTheWay(g, registered); }
    var whole := Complete(g, Fresh(registered));
    OneStepOn(g, m, whole);
    m := Advance(g, m);
    if 'r' in g.command {
      OneStepOn(g, m, whole);
      m := Advance(g, m);
      assert "" + "r" == "r";
    }
    assert OnTheWay(g, m, whole);
    StaysConsistent(g, m, whole);
  }

  lemma AttestStage(g: Config, registered: bool) returns (m: Machine)
    ensures OnTheWay(g, m, Complete(g, Fresh(registered)))
    ensures m.process.value.pc == 4 && m.registered == (registered || 'r' in g.command)
    ensures 'a' !in m.process.value.state.completed && m.calls == Attestations(g, registered)
    ensures m.process.value.attestId == if m.calls == [] then 0 else m.calls[|m.calls| - 1].id
  {
    hide OnTheWay;
    var whole := Complete(g, Fresh(registered));
    m := RegisterStage(g, registered);
    OneStepOn(g, m, whole);
    m := Advance(g, m);
    if 'R' in g.command {
      OneStepOn(g, m, whole);
      m := Advance(g, m);
    }
    StaysConsistent(g, m, whole);
  }

  lemma CheckStage(g: Config, registered: bool) returns (m: Machine)
    ensures OnTheWay(g, m, Complete(g, Fresh(registered)))
    ensures m.process.value.pc == 6 && m.registered == (registered || 'r' in g.command)
    ensures var attested := Attestations(g, registered);
            && m.calls == (if 'a' !in g.command then attested
                           else attested + [RequestAvailability(if attested == [] then 0
                                                                else attested[|attested| - 1].id, g.ids(|attested|))])
            && m.process.value.instructionId == if 'a' in g.command then g.ids(|attested|) else g.givenId
  {
    hide OnTheWay, Attestations;
    var whole := Complete(g, Fresh(registered));
    m := AttestStage(g, registered);
    OneStepOn(g, m, whole);
    m := Advance(g, m);
    if 'a' in g.command {
      OneStepOn(g, m, whole);
      m := Advance(g, m);
    }
    StaysConsistent(g, m, whole);
  }

  /**
   * One uninterrupted run sends exactly the transactions of the stages asked for, in order: registration or a fresh
   * attestation, another attestation, the availability check of the latest one, and the promotion of that check or of
   * the given id. It ends with the machine registered if stage r was asked for, and without a state file.
   */
  lemma CompleteRunsScript(g: Config, registered: bool)
    ensures var m := Complete(g, Fresh(registered));
            m.calls == Script(g, registered) && m.registered == (registered || 'r' in g.command) && m.file.None?
              && Finished(m)
  {
    hide OnTheWay, Attestations, Complete;
    var whole := Complete(g, Fresh(registered));
    var m := CheckStage(g, registered);
    StaysConsistent(g, m, whole);
    OneStepOn(g, m, whole);
    m := Advance(g, m);
    OneStepOn(g, m, whole);
    m := Advance(g, m);
    ArrivedThere(g, m, whole);
  }

  lemma ArrivedThere(g: Config, m: Machine, whole: Machine)
    requires OnTheWay(g, m, whole) && Finished(m)
    ensures m == whole
  {
    StepsAtEnd(g, m, 8);
  }

  lemma FreshOnTheWay(g: Config, registered: bool)
    ensures OnTheWay(g, Start(Fresh(registered)), Complete(g, Fresh(registered)))
  {
    FreshConsistent(g, registered);
    ReactKeeps(g, Fresh(registered), Launch);
  }

  lemma StaysConsistent(g: Config, m: Machine, whole: Machine)
    requires OnTheWay(g, m, whole)
    ensures Consistent(g, m) && m.process.Some?
  {
  }

  // ---- The driver itself ----

  /** The chain and disk the driver works on; `lifetime` is the number of micro-steps before the process dies. */
  class Driver {
    var calls: seq<Effect>
    var registered: bool
    var file: Option<SavedState>

    constructor (registered: bool)
      ensures Outside() == Fresh(registered)
    {
      calls, file := [], None;
      this.registered := registered;
    }

    function Outside(): Machine
      reads this
    {
      Machine(calls, registered, file, None)
    }

    /** The process at `p`, with `left` micro-steps to live, is on its way to `target`. */
    ghost predicate Towards(g: Config, target: Machine, p: Process, left: nat)
      reads this
    {
      Steps(g, Machine(calls, registered, file, Some(p)), left) == target
    }

    /** The process has died where `target` says. */
    ghost predicate Dead(target: Machine)
      reads this
    {
      calls == target.calls && registered == target.registered && file == target.file && !Finished(target)
    }

    /** A transaction: logged, and answered with the next instruction id. */
    method Transact(g: Config, e: nat -> Effect) returns (id: nat)
      modifies this`calls
      ensures id == g.ids(|old(calls)|) && calls == old(calls) + [e(id)]
    {
      id := g.ids(|calls|);
      calls := calls + [e(id)];
    }

    /** Stage r: register the machine, or request a fresh attestation if it is registered already; then save. */
    method PreRegister(g: Config, state: SavedState, lifetime: nat, ghost target: Machine)
        returns (alive: bool, state': SavedState, attestId: nat, left: nat)
      requires Towards(g, target, Process(state, 0, 0, 0), lifetime)
      modifies this
      ensures if alive then Towards(g, target, Process(state', attestId, 0, 2), left) else Dead(target)
    {
      alive, state', attestId, left := false, state, 0, lifetime;
      if left == 0 { return; }
      if 'r' !in g.command { return true, state, 0, left - 1; }
      if 'r' in state.completed { return true, state, state.attestId, left - 1; }
      if registered {
        attestId := Transact(g, (id: nat) => RequestAttestation(id));
      } else {
        attestId := Transact(g, (id: nat) => Register(id));
        registered := true;
      }
      left := left - 1;
      assert Towards(g, target, Process(state, attestId, 0, 1), left);
      if left == 0 { return; }
      state' := state.(completed := state.completed + "r", attestId := attestId);
      file := Some(state');
      return true, state', attestId, left - 1;
    }

    /** Stage R: request a fresh attestation; then save. */
    method Attest(g: Config, state: SavedState, previous: nat, lifetime: nat, ghost target: Machine)
        returns (alive: bool, state': SavedState, attestId: nat, left: nat)
      requires Towards(g, target, Process(state, previous, 0, 2), lifetime)
      modifies this
      ensures if alive then Towards(g, target, Process(state', attestId, 0, 4), left) else Dead(target)
    {
      alive, state', attestId, left := false, state, previous, lifetime;
      if left == 0 { return; }
      if 'R' !in g.command { return true, state, previous, left - 1; }
      if 'R' in state.completed { return true, state, state.attestId, left - 1; }
      attestId := Transact(g, (id: nat) => RequestAttestation(id));
      left := left - 1;
      assert Towards(g, target, Process(state, attestId, 0, 3), left);
      if left == 0 { return; }
      state' := state.(completed := state.completed + "R", attestId := attestId);
      file := Some(state');
      return true, state', attestId, left - 1;
    }

    /**
     * Stage a: ask for the availability check of that attestation; then save. Without the stage, the given id is
     * used.
     */
    method CheckAvailability(g: Config, state: SavedState, attestId: nat, lifetime: nat, ghost target: Machine)
        returns (alive: bool, state': SavedState, instructionId: nat, left: nat)
      requires Towards(g, target, Process(state, attestId, 0, 4), lifetime)
      modifies this
      ensures if alive then Towards(g, target, Process(state', attestId, instructionId, 6), left) else Dead(target)
    {
      alive, state', instructionId, left := false, state, 0, lifetime;
      if left == 0 { return; }
      if 'a' !in g.command { return true, state, g.givenId, left - 1; }
      if 'a' in state.completed { return true, state, state.instructionId, left - 1; }
      instructionId := Transact(g, (id: nat) => RequestAvailability(attestId, id));
      left := left - 1;
      assert Towards(g, target, Process(state, attestId, instructionId, 5), left);
      if left == 0 { return; }
      state' := state.(completed := state.completed + "a", instructionId := instructionId);
      file := Some(state');
      return true, state', instructionId, left - 1;
    }

    /** Stage p, and the removal of the state file at the end. */
    method PromoteAndFinish(g: Config, state: SavedState, attestId: nat, instructionId: nat, lifetime: nat,
                            ghost target: Machine)
        returns (finished: bool)
      requires Towards(g, target, Process(state, attestId, instructionId, 6), lifetime)
      modifies this
      ensures calls == target.calls && registered == target.registered && file == target.file
              && finished == Finished(target)
    {
      if lifetime == 0 { return false; }
      if 'p' in g.command {
        var _ := Transact(g, (_: nat) => Promote(instructionId));
      }
      assert Towards(g, target, Process(state, attestId, instructionId, 7), lifetime - 1);
      if lifetime == 1 { return false; }
      file := None;
      assert Towards(g, target, Process(state, attestId, instructionId, 8), lifetime - 2);
      StepsAtEnd(g, Machine(calls, registered, file, Some(Process(state, attestId, instructionId, 8))), lifetime - 2);
      return true;
    }

    /**
     * One run, stage by stage, on the saved state it loads. It dies after `lifetime` micro-steps unless it finishes
     * first; either way transactions, registration and file are those of the machine after that many steps.
     */
    method RegisterNode(g: Config, lifetime: nat) returns (finished: bool)
      modifies this
      ensures var m := Steps(g, Start(old(Outside())), lifetime);
              calls == m.calls && registered == m.registered && file == m.file && finished == Finished(m)
    {
      ghost var target := Steps(g, Start(Outside()), lifetime);
      var state := Load(file);
      var alive, attestId, instructionId, left;
      alive, state, attestId, left := PreRegister(g, state, lifetime, target);
      if !alive { return false; }
      alive, state, attestId, left := Attest(g, state, attestId, left, target);
      if !alive { return false; }
      alive, state, instructionId, left := CheckAvailability(g, state, attestId, left, target);
      if !alive { return false; }
      finished := PromoteAndFinish(g, state, attestId, instructionId, left, target);
    }
  }

  lemma {:induction false} StepsAtEnd(g: Config, m: Machine, n: nat)
    requires Finished(m)
    ensures Steps(g, m, n) == m
    decreases n
  {
    if n > 0 {
      StepsAtEnd(g, m, n - 1);
    }
  }
}
