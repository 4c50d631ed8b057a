/**
 The session functions of appServer.ts as they mutate the fields of a runtime. Each method is the stretch
 of one of them between two awaits. `Turn` says what every one of them is: a step of `SessionRuntime` that
 keeps the runtime sound and undoes nothing; the other postconditions say what its caller gets.
 */
module SessionLifecycle {
  import opened Options
  import opened SessionRuntime

  class ManagedSession {
    const maxRecoveryAttempts: nat
    var registered: bool
    var state: State
    var session: Option<nat>
    var stopRequested: bool
    var startupDiagnostic: bool
    var recoveryCount: nat
    var recoveryTimer: bool
    var tasks: seq<Task>
    var spawned: nat
    var installed: set<nat>
    var told: set<nat>
    var starting: set<nat>
    var failing: set<nat>
    var exiting: set<nat>

    ghost function Model(): Runtime
      reads this
    {
      Runtime(registered, state, session, stopRequested, startupDiagnostic, recoveryCount, recoveryTimer, tasks,
              spawned, installed, told, starting, failing, exiting)
    }

    ghost predicate Valid()
      reads this
    {
      Sound(Model(), maxRecoveryAttempts)
    }

    /** Something that may still bring a worker is under way. */
    ghost predicate Pending()
      reads this
    {
      LaunchPending(Model())
    }

    twostate predicate Turn(s: Step)
      reads this
    {
      && Valid()
      && Model() == Next(old(Model()), s, maxRecoveryAttempts)
      && Continues(old(Model()), Model(), maxRecoveryAttempts)
    }

    constructor (reason: Reason, maxAttempts: nat)
      ensures Valid() && Model() == Created(reason) && maxRecoveryAttempts == maxAttempts
    {
      maxRecoveryAttempts := maxAttempts;
      registered, state, session, stopRequested, startupDiagnostic := true, Starting, None, false, false;
      recoveryCount, recoveryTimer, tasks, spawned := 0, false, [Launching(reason)], 0;
      installed, told, starting, failing, exiting := {}, {}, {}, {}, {};
      new;
      AlwaysSound(reason, [], maxAttempts);
    }

    method EndTask(i: nat)
      requires i < |tasks|
      modifies this`tasks
      ensures Model() == Done(old(Model()), i)
    {
      tasks := tasks[..i] + tasks[i + 1..];
    }

    /** launchPreparedSession up to the spawn: a runtime that is no longer wanted spawns nothing, now or later. */
    method LaunchPreparedSession(i: nat)
      requires Valid() && i < |tasks| && tasks[i].Launching?
      modifies this`tasks
      ensures Turn(PassCheck(i))
      ensures stopRequested || !registered <==> !Pending()
    {
      NextContinues(Model(), PassCheck(i), maxRecoveryAttempts);
      var reason := tasks[i].reason;
      EndTask(i);
      if stopRequested || !registered { return; }
      tasks := tasks + [Spawning(reason)];
    }

    /** launchPreparedSession after the spawn: the worker becomes the session's, or is told to stop, and nothing
        else is in flight beside it. */
    method SpawnReturned(i: nat, awaitsReady: bool, stopEvent: bool)
      requires Valid() && i < |tasks| && tasks[i].Spawning?
      modifies this
      ensures Turn(Spawned(i, awaitsReady, stopEvent))
      ensures if old(stopRequested) || !registered then old(spawned) in told && session == None
        else session == Some(old(spawned)) && (stopEvent && !old(startupDiagnostic) ==> old(spawned) in told)
      ensures tasks == [] && !recoveryTimer && !Pending()
    {
      NextContinues(Model(), Spawned(i, awaitsReady, stopEvent), maxRecoveryAttempts);
      OnlyTask(Model(), i);
      EndTask(i);
      InstallOrStop(awaitsReady, stopEvent);
    }

    method InstallOrStop(awaitsReady: bool, stopEvent: bool)
      modifies this
      ensures Model() == Arrive(old(Model()), awaitsReady, stopEvent)
    {
      var worker := spawned;
      spawned := spawned + 1;
      if stopRequested || !registered {
        told := told + {worker};
        return;
      }
      InstallWorker(worker, stopEvent);
      WatchWorker(worker, awaitsReady);
    }

    method InstallWorker(worker: nat, stopEvent: bool)
      modifies this`session, this`installed, this`stopRequested, this`told, this`state, this`recoveryTimer
      ensures Model() == Install(old(Model()), worker, stopEvent)
    {
      session := Some(worker);
      installed := installed + {worker};
      if stopEvent && !startupDiagnostic { RequestRuntimeStop(); }
    }

    method WatchWorker(worker: nat, awaitsReady: bool)
      modifies this`state, this`startupDiagnostic, this`exiting, this`starting
      ensures Model() == Watch(old(Model()), worker, awaitsReady)
    {
      state := Starting;
      startupDiagnostic := false;
      exiting := exiting + {worker};
      if awaitsReady { starting := starting + {worker}; } else { MarkRuntimeReady(worker); }
    }

    /** Only the installed worker of a wanted runtime can make it run; an ended runtime cannot run again. */
    method MarkRuntimeReady(worker: nat)
      modifies this`state, this`startupDiagnostic
      ensures Model() == MarkReady(old(Model()), worker)
      ensures old(Valid()) ==> Valid() && Continues(old(Model()), Model(), maxRecoveryAttempts)
      ensures old(Valid()) && old(IsTerminal(state)) ==> Model() == old(Model())
      ensures state != old(state) ==> state == Running && session == Some(worker) && !stopRequested
    {
      if session != Some(worker) || !registered || stopRequested { return; }
      state := Running;
      startupDiagnostic := false;
    }

    /** waitForRuntimeReady once the worker is ready. */
    method WorkerReady(worker: nat)
      requires Valid() && worker in starting
      modifies this`starting, this`state, this`startupDiagnostic
      ensures Turn(Ready(worker))
      ensures session != Some(worker) ==> OnlyWaits(old(Model()), Model())
    {
      NextContinues(Model(), Ready(worker), maxRecoveryAttempts);
      starting := starting - {worker};
      MarkRuntimeReady(worker);
    }

    /** waitForRuntimeReady when the worker fails or times out: the failure is diagnosed for the installed worker
        of a runtime that is wanted and has not ended, and for no other. */
    method StartupFailed(worker: nat)
      requires Valid() && worker in starting
      modifies this`starting, this`startupDiagnostic, this`failing
      ensures Turn(StartupFails(worker))
      ensures startupDiagnostic && !old(startupDiagnostic) ==>
        session == Some(worker) && !stopRequested && registered && !IsTerminal(state)
      ensures session != Some(worker) ==> OnlyWaits(old(Model()), Model())
    {
      NextContinues(Model(), StartupFails(worker), maxRecoveryAttempts);
      starting := starting - {worker};
      if session != Some(worker) || !registered || stopRequested { return; }
      startupDiagnostic := true;
      failing := failing + {worker};
    }

    /** waitForRuntimeReady once the failure is on record: the worker is told to stop. */
    method StartupFailureRecorded(worker: nat)
      requires Valid() && worker in failing
      modifies this`failing, this`told
      ensures Turn(FailureRecorded(worker))
      ensures worker in told && OnlyWaits(old(Model()), Model())
    {
      NextContinues(Model(), FailureRecorded(worker), maxRecoveryAttempts);
      failing := failing - {worker};
      told := told + {worker};
    }

    /** handleSessionExit up to the inspection: afterwards the worker is not the session's, and if it was, its
        inspection is the one thing in flight, even if the runtime was stopped. */
    method HandleSessionExit(worker: nat)
      requires Valid() && worker in exiting
      modifies this`exiting, this`session, this`tasks
      ensures Turn(Exits(worker))
      ensures registered ==> session != Some(worker)
      ensures registered && old(session) == Some(worker) ==> tasks == [Inspecting(stopRequested)] && !Pending()
      ensures old(session) != Some(worker) ==> OnlyWaits(old(Model()), Model())
    {
      NextContinues(Model(), Exits(worker), maxRecoveryAttempts);
      if registered && session == Some(worker) { OnlyInspection(Model(), worker, maxRecoveryAttempts); }
      exiting := exiting - {worker};
      if session != Some(worker) || !registered { return; }
      session := None;
      tasks := tasks + [Inspecting(stopRequested)];
    }

    /** handleSessionExit after the inspection: the runtime has ended, or one more recovery is due and none was
        asked to stop; it completes only if the worker succeeded and no stop was requested. */
    method ConcludeExit(i: nat, succeeded: bool, recoverable: bool)
      requires Valid() && i < |tasks| && tasks[i].Inspecting?
      modifies this`tasks, this`state, this`recoveryTimer, this`recoveryCount
      ensures Turn(Inspected(i, succeeded, recoverable))
      ensures tasks == [] && session.None?
      ensures registered ==> IsTerminal(state) != recoveryTimer
      ensures recoveryTimer ==> !stopRequested && recoveryCount == old(recoveryCount) + 1 <= maxRecoveryAttempts
      ensures registered && state == Completed ==> succeeded && !stopRequested && !startupDiagnostic
      ensures registered && stopRequested ==> state == if startupDiagnostic then Failed else Stopped
    {
      NextContinues(Model(), Inspected(i, succeeded, recoverable), maxRecoveryAttempts);
      OnlyTask(Model(), i);
      var stopSeen := tasks[i].stopSeen;
      EndTask(i);
      if !registered { return; }
      if startupDiagnostic {
        FinishRuntime(Failed);
      } else if stopRequested {
        FinishRuntime(Stopped);
      } else if succeeded && !stopSeen {
        FinishRuntime(Completed);
      } else if recoverable && !stopSeen && recoveryCount < maxRecoveryAttempts {
        recoveryCount := recoveryCount + 1;
        recoveryTimer := true;
      } else {
        FinishRuntime(Failed);
      }
    }

    method FinishRuntime(verdict: State)
      modifies this`state, this`recoveryTimer
      ensures Model() == Finish(old(Model()), verdict)
    {
      recoveryTimer := false;
      state := verdict;
    }

    /** recoverSession up to its first await: a recovery is under way exactly when the runtime is still wanted. */
    method RecoverSession()
      requires recoveryTimer
      modifies this`recoveryTimer, this`tasks, this`state
      ensures Model() == Next(old(Model()), TimerFires, maxRecoveryAttempts)
      ensures old(Valid()) ==> Turn(TimerFires) && (Pending() <==> registered && !stopRequested)
    {
      if old(Valid()) { NextContinues(Model(), TimerFires, maxRecoveryAttempts); }
      recoveryTimer := false;
      if stopRequested || !registered {
        if registered { FinishRuntime(Stopped); }
        return;
      }
      tasks := tasks + [Preparing];
    }

    /** recoverSession once the launch is prepared: it goes on exactly when the runtime is still wanted. */
    method ResumeRecovery(i: nat)
      requires Valid() && i < |tasks| && tasks[i].Preparing?
      modifies this`tasks
      ensures Turn(Prepared(i))
      ensures Pending() <==> registered && !stopRequested
    {
      NextContinues(Model(), Prepared(i), maxRecoveryAttempts);
      OnlyTask(Model(), i);
      EndTask(i);
      if stopRequested || !registered { return; }
      tasks := tasks + [Launching(Recovery)];
    }

    /** A launch that fails before or in the spawn: a first launch ends the runtime at once, any other waits for
        its failure to be recorded; either way no worker comes of it. */
    method LaunchRejected(i: nat)
      requires Valid() && i < |tasks| && (tasks[i].Launching? || tasks[i].Spawning?)
      modifies this`tasks, this`state
      ensures Turn(LaunchFails(i))
      ensures !Pending() && (tasks == [] <==> old(tasks[i].reason).Initial?) && (tasks == [] ==> state == Failed)
    {
      NextContinues(Model(), LaunchFails(i), maxRecoveryAttempts);
      OnlyTask(Model(), i);
      var reason := tasks[i].reason;
      EndTask(i);
      if reason.Initial? { state := Failed; } else { tasks := tasks + [RecordingFailure(reason)]; }
    }

    /** The catch blocks around a launch, after the failure has been recorded: the runtime has ended and nothing
        is in flight any more. */
    method LaunchFailed(i: nat)
      requires Valid() && i < |tasks| && tasks[i].RecordingFailure?
      modifies this`tasks, this`state, this`recoveryTimer
      ensures Turn(LaunchFailureRecorded(i))
      ensures IsTerminal(state) && tasks == [] && !Pending() && session.None?
    {
      NextContinues(Model(), LaunchFailureRecorded(i), maxRecoveryAttempts);
      OnlyTask(Model(), i);
      var reason := tasks[i].reason;
      EndTask(i);
      FinishRuntime(if stopRequested && reason.Recovery? then Stopped else Failed);
    }

    /** A stop reaches the installed worker, or ends a runtime that has none; no recovery is due afterwards. */
    method RequestRuntimeStop()
      modifies this`stopRequested, this`told, this`state, this`recoveryTimer
      ensures Model() == RequestStop(old(Model()))
      ensures old(Valid()) ==> Turn(StopRequest) && !recoveryTimer
      ensures stopRequested && if session.Some? then session.value in told else state == Stopped
    {
      if old(Valid()) { NextContinues(Model(), StopRequest, maxRecoveryAttempts); }
      stopRequested := true;
      if session.None? {
        FinishRuntime(Stopped);
        return;
      }
      told := told + {session.value};
    }

    /** The server's own shutdown: no worker is left running untold and none will come, but the recorded verdict
        stays as it was. */
    method Close()
      requires Valid()
      modifies this`recoveryTimer, this`registered, this`stopRequested, this`told
      ensures Turn(Shutdown)
      ensures !registered && !recoveryTimer && (IsTerminal(state) || stopRequested)
      ensures session.Some? ==> session.value in told
    {
      NextContinues(Model(), Shutdown, maxRecoveryAttempts);
      recoveryTimer := false;
      if !IsTerminal(state) {
        stopRequested := true;
        if session.Some? { told := told + {session.value}; }
      }
      registered := false;
    }
  }
}
