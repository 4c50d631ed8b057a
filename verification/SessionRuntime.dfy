/**
 The life of one session runtime (appServer.ts): launching a worker, readiness, exit, bounded recovery and
 stop, interleaved at every await.

 A `Task` is a suspended continuation of launchPreparedSession, handleSessionExit or recoverSession; `Next`
 is what one event-loop turn does. Workers are numbered in the order they were spawned.
 */
module SessionRuntime {
  import opened Options

  datatype State = Starting | Running | Completed | Failed | Stopped

  /** Who asked for the launch: a new session, a recovery timer, or the recovery scan at server start. */
  datatype Reason = Initial | Recovery | Restart

  datatype Task =
    | Launching(reason: Reason)          // before the last check ahead of the spawn
    | Spawning(reason: Reason)           // awaiting spawnSession
    | Inspecting(stopSeen: bool)         // awaiting the verdict on an exited worker
    | Preparing                          // awaiting the recovery launch descriptor
    | RecordingFailure(reason: Reason)   // awaiting the launch-failure record

  datatype Runtime = Runtime(
    registered: bool,         // sessions.get(id) is this runtime
    state: State,
    session: Option<nat>,     // the installed worker
    stopRequested: bool,
    startupDiagnostic: bool,  // a startup failure was diagnosed
    recoveryCount: nat,
    recoveryTimer: bool,
    tasks: seq<Task>,
    spawned: nat,
    installed: set<nat>,
    told: set<nat>,           // workers told to stop
    starting: set<nat>,       // workers whose readiness is awaited
    failing: set<nat>,        // workers whose startup failure is being recorded
    exiting: set<nat>)        // workers whose exit is awaited

  datatype Step =
    | PassCheck(task: nat)
    | LaunchFails(task: nat)
    | Spawned(task: nat, awaitsReady: bool, stopEvent: bool)
    | Ready(worker: nat)
    | StartupFails(worker: nat)
    | FailureRecorded(worker: nat)
    | Exits(worker: nat)
    | Inspected(task: nat, succeeded: bool, recoverable: bool)
    | TimerFires
    | Prepared(task: nat)
    | PrepareFails(task: nat)
    | LaunchFailureRecorded(task: nat)
    | StopRequest
    | Forget
    | Shutdown

  predicate IsTerminal(s: State) { s.Completed? || s.Failed? || s.Stopped? }

  function Created(reason: Reason): Runtime {
    Runtime(true, Starting, None, false, false, 0, false, [Launching(reason)], 0, {}, {}, {}, {}, {})
  }

  /** Still wanted: not stopped, not forgotten. */
  predicate Wanted(r: Runtime) { !r.stopRequested && r.registered }

  function Drop(tasks: seq<Task>, i: nat): seq<Task>
    requires i < |tasks|
  {
    tasks[..i] + tasks[i + 1..]
  }

  function Done(r: Runtime, i: nat): Runtime
    requires i < |r.tasks|
  {
    r.(tasks := Drop(r.tasks, i))
  }

  function Then(r: Runtime, i: nat, t: Task): Runtime
    requires i < |r.tasks|
  {
    r.(tasks := Drop(r.tasks, i) + [t])
  }

  function Finish(r: Runtime, s: State): Runtime { r.(recoveryTimer := false, state := s) }

  function RequestStop(r: Runtime): Runtime {
    var e := r.(stopRequested := true);
    if e.session.None? then Finish(e, Stopped) else e.(told := e.told + {e.session.value})
  }

  function MarkReady(r: Runtime, w: nat): Runtime {
    if r.session != Some(w) || !Wanted(r) then r else r.(state := Running, startupDiagnostic := false)
  }

  /** `stopEvent`: among the events the worker had already emitted was an accepted stop. */
  function Install(r: Runtime, w: nat, stopEvent: bool): Runtime {
    var e := r.(session := Some(w), installed := r.installed + {w});
    if stopEvent && !e.startupDiagnostic then RequestStop(e) else e
  }

  function Watch(r: Runtime, w: nat, awaitsReady: bool): Runtime {
    var e := r.(state := Starting, startupDiagnostic := false, exiting := r.exiting + {w});
    if awaitsReady then e.(starting := e.starting + {w}) else MarkReady(e, w)
  }

  /** A spawned worker is installed, or told to stop when nobody wants it any more. */
  function Arrive(r: Runtime, awaitsReady: bool, stopEvent: bool): Runtime {
    var w := r.spawned;
    var e := r.(spawned := w + 1);
    if Wanted(e) then Watch(Install(e, w, stopEvent), w, awaitsReady) else e.(told := e.told + {w})
  }

  function Verdict(r: Runtime, succeeded: bool, recoverable: bool, maxRecoveryAttempts: nat): Runtime {
    if !r.registered then r
    else if r.startupDiagnostic then Finish(r, Failed)
    else if r.stopRequested then Finish(r, Stopped)
    else if succeeded then Finish(r, Completed)
    else if recoverable && r.recoveryCount < maxRecoveryAttempts
    then r.(recoveryCount := r.recoveryCount + 1, recoveryTimer := true)
    else Finish(r, Failed)
  }

  function Next(r: Runtime, s: Step, maxRecoveryAttempts: nat): Runtime {
    match s
    case PassCheck(i) =>
      if !(i < |r.tasks| && r.tasks[i].Launching?) then r
      else if Wanted(r) then Then(r, i, Spawning(r.tasks[i].reason)) else Done(r, i)
    case LaunchFails(i) =>
      if !(i < |r.tasks| && (r.tasks[i].Launching? || r.tasks[i].Spawning?)) then r
      else if r.tasks[i].reason.Initial? then Done(r, i).(state := Failed)
      else Then(r, i, RecordingFailure(r.tasks[i].reason))
    case Spawned(i, awaitsReady, stopEvent) =>
      if i < |r.tasks| && r.tasks[i].Spawning? then Arrive(Done(r, i), awaitsReady, stopEvent) else r
    case Ready(w) =>
      if w in r.starting then MarkReady(r.(starting := r.starting - {w}), w) else r
    case StartupFails(w) =>
      if w !in r.starting then r else
      var e := r.(starting := r.starting - {w});
      if e.session != Some(w) || !Wanted(e) then e else e.(startupDiagnostic := true, failing := e.failing + {w})
    case FailureRecorded(w) =>
      if w in r.failing then r.(failing := r.failing - {w}, told := r.told + {w}) else r
    case Exits(w) =>
      if w !in r.exiting then r else
      var e := r.(exiting := r.exiting - {w});
      if e.session != Some(w) || !e.registered then e
      else e.(session := None, tasks := e.tasks + [Inspecting(e.stopRequested)])
    case Inspected(i, succeeded, recoverable) =>
      if !(i < |r.tasks| && r.tasks[i].Inspecting?) then r else
      var seen := r.tasks[i].stopSeen;
      Verdict(Done(r, i), succeeded && !seen, recoverable && !seen, maxRecoveryAttempts)
    case TimerFires =>
      if !r.recoveryTimer then r else
      var e := r.(recoveryTimer := false);
      if Wanted(e) then e.(tasks := e.tasks + [Preparing]) else if e.registered then Finish(e, Stopped) else e
    case Prepared(i) =>
      if !(i < |r.tasks| && r.tasks[i].Preparing?) then r
      else if Wanted(r) then Then(r, i, Launching(Recovery)) else Done(r, i)
    case PrepareFails(i) =>
      if i < |r.tasks| && r.tasks[i].Preparing? then Then(r, i, RecordingFailure(Recovery)) else r
    case LaunchFailureRecorded(i) =>
      if !(i < |r.tasks| && r.tasks[i].RecordingFailure?) then r
      else Finish(Done(r, i), if r.stopRequested && r.tasks[i].reason.Recovery? then Stopped else Failed)
    case StopRequest => RequestStop(r)
    case Forget => if IsTerminal(r.state) then r.(registered := false) else r
    case Shutdown =>
      var e := r.(recoveryTimer := false, registered := false);
      if IsTerminal(e.state) then e else
      e.(stopRequested := true, told := if e.session.Some? then e.told + {e.session.value} else e.told)
  }

  function From(r: Runtime, steps: seq<Step>, max: nat): Runtime {
    if steps == [] then r else Next(From(r, steps[..|steps| - 1], max), steps[|steps| - 1], max)
  }

  // ---------------------------------------------------------------- what every turn keeps

  predicate LaunchPending(r: Runtime) {
    r.recoveryTimer || (r.tasks != [] && (r.tasks[0].Launching? || r.tasks[0].Spawning? || r.tasks[0].Preparing?))
  }

  function Count(b: bool): nat { if b then 1 else 0 }

  ghost predicate Sound(r: Runtime, max: nat) {
    // one thread of control: a worker, a suspended task, or a timer
    && |r.tasks| + Count(r.session.Some?) + Count(r.recoveryTimer) <= 1
    && r.spawned + Count(LaunchPending(r)) <= 1 + r.recoveryCount <= 1 + max
    && (IsTerminal(r.state) ==> r.session.None?)
    && (IsTerminal(r.state) && !r.stopRequested ==> r.tasks == [])
    && (r.session.Some? ==> r.session.value in r.installed)
    && (r.session.Some? && r.stopRequested ==> r.session.value in r.told)
    && (!r.registered ==> r.stopRequested || IsTerminal(r.state))
    // an ended runtime is waiting for nothing any more, or was stopped while one task was in flight
    && (IsTerminal(r.state) ==> !r.recoveryTimer && (r.tasks == [] || r.state == Stopped))
    // a stop request is never forgotten
    && (r.stopRequested && r.registered ==>
          IsTerminal(r.state) || r.session.Some? || (r.tasks != [] && r.tasks[0].Inspecting?))
    && (forall w :: w in r.installed || w in r.told <==> 0 <= w < r.spawned)
    && r.starting + r.failing + r.exiting <= r.installed
  }

  lemma OnlyTask(r: Runtime, i: nat)
    requires |r.tasks| <= 1 && i < |r.tasks|
    ensures Done(r, i).tasks == [] && forall t :: Then(r, i, t).tasks == [t]
  {
    forall t ensures Then(r, i, t).tasks == [t] {}
  }

  lemma ArriveSound(r: Runtime, awaitsReady: bool, stopEvent: bool, max: nat)
    requires Sound(r, max) && r.tasks == [] && r.session.None? && !r.recoveryTimer
    requires r.spawned + 1 <= 1 + r.recoveryCount && (IsTerminal(r.state) ==> r.stopRequested)
    ensures Sound(Arrive(r, awaitsReady, stopEvent), max)
  {}

  lemma TaskSound(r: Runtime, s: Step, i: nat, max: nat)
    requires Sound(r, max) && i < |r.tasks|
    requires s == PassCheck(i) || s == LaunchFails(i) || s == Prepared(i) || s == PrepareFails(i)
      || s == LaunchFailureRecorded(i) || (s.Inspected? && s.task == i)
    ensures Sound(Next(r, s, max), max)
  {
    OnlyTask(r, i);
  }

  lemma ReadinessSound(r: Runtime, s: Step, max: nat)
    requires Sound(r, max) && (s.Ready? || s.StartupFails? || s.FailureRecorded?)
    ensures Sound(Next(r, s, max), max)
  {}

  lemma ExitSound(r: Runtime, w: nat, max: nat)
    requires Sound(r, max)
    ensures Sound(Next(r, Exits(w), max), max)
  {
    if r.session == Some(w) { assert r.tasks == []; }
  }

  lemma TimerSound(r: Runtime, max: nat)
    requires Sound(r, max)
    ensures Sound(Next(r, TimerFires, max), max)
  {
    if r.recoveryTimer { assert r.tasks == []; }
  }

  lemma StopSound(r: Runtime, max: nat)
    requires Sound(r, max)
    ensures Sound(Next(r, StopRequest, max), max)
  {}

  lemma LeaveSound(r: Runtime, s: Step, max: nat)
    requires Sound(r, max) && (s.Forget? || s.Shutdown?)
    ensures Sound(Next(r, s, max), max)
  {}

  lemma NextSound(r: Runtime, s: Step, max: nat)
    requires Sound(r, max)
    ensures Sound(Next(r, s, max), max)
  {
    match s
    case PassCheck(i) => if i < |r.tasks| { TaskSound(r, s, i, max); }
    case LaunchFails(i) => if i < |r.tasks| { TaskSound(r, s, i, max); }
    case Inspected(i, _, _) => if i < |r.tasks| { TaskSound(r, s, i, max); }
    case Prepared(i) => if i < |r.tasks| { TaskSound(r, s, i, max); }
    case PrepareFails(i) => if i < |r.tasks| { TaskSound(r, s, i, max); }
    case LaunchFailureRecorded(i) => if i < |r.tasks| { TaskSound(r, s, i, max); }
    case Spawned(i, awaitsReady, stopEvent) =>
      if i < |r.tasks| && r.tasks[i].Spawning? {
        OnlyTask(r, i);
        ArriveSound(Done(r, i), awaitsReady, stopEvent, max);
      }
    case Ready(_) => ReadinessSound(r, s, max);
    case StartupFails(_) => ReadinessSound(r, s, max);
    case FailureRecorded(_) => ReadinessSound(r, s, max);
    case Exits(w) => ExitSound(r, w, max);
    case TimerFires => TimerSound(r, max);
    case StopRequest => StopSound(r, max);
    case Forget => LeaveSound(r, s, max);
    case Shutdown => LeaveSound(r, s, max);
  }

  lemma {:induction false} FromSound(r: Runtime, steps: seq<Step>, max: nat)
    requires Sound(r, max)
    ensures Sound(From(r, steps, max), max)
  {
    if steps != [] {
      FromSound(r, steps[..|steps| - 1], max);
      NextSound(From(r, steps[..|steps| - 1], max), steps[|steps| - 1], max);
    }
  }

  lemma AlwaysSound(reason: Reason, steps: seq<Step>, max: nat)
    ensures Sound(From(Created(reason), steps, max), max)
  {
    FromSound(Created(reason), steps, max);
  }

  // ---------------------------------------------------------------- the theorems

  /** A runtime launches at most one worker more than it may recover; every worker it ever spawned was
      installed or told to stop; a stop request reaches the installed worker, and leads to a verdict. */
  lemma {:induction false} WorkersAccountedFor(reason: Reason, steps: seq<Step>, max: nat)
    ensures var r := From(Created(reason), steps, max);
      && r.spawned <= 1 + max && (forall w :: w in r.installed || w in r.told <==> 0 <= w < r.spawned)
      && (r.stopRequested && r.session.Some? ==> r.session.value in r.told)
      && (r.stopRequested && r.registered && r.session.None? ==>
            IsTerminal(r.state) || exists t :: t in r.tasks && t.Inspecting?)
  {
    AlwaysSound(reason, steps, max);
    var r := From(Created(reason), steps, max);
    if r.tasks != [] { assert r.tasks[0] in r.tasks; }
  }

  lemma {:induction false} TerminalFrom(r: Runtime, more: seq<Step>, max: nat)
    requires Sound(r, max) && IsTerminal(r.state)
    ensures IsTerminal(From(r, more, max).state)
  {
    if more != [] {
      TerminalFrom(r, more[..|more| - 1], max);
      FromSound(r, more[..|more| - 1], max);
      TerminalNext(From(r, more[..|more| - 1], max), more[|more| - 1], max);
    }
  }

  lemma TerminalNext(r: Runtime, s: Step, max: nat)
    requires Sound(r, max) && IsTerminal(r.state)
    ensures IsTerminal(Next(r, s, max).state)
  {}

  /** A runtime that has ended never starts or runs again, whatever was still in flight. */
  lemma {:induction false} EndedForGood(reason: Reason, steps: seq<Step>, more: seq<Step>, max: nat)
    requires IsTerminal(From(Created(reason), steps, max).state)
    ensures IsTerminal(From(From(Created(reason), steps, max), more, max).state)
  {
    AlwaysSound(reason, steps, max);
    TerminalFrom(From(Created(reason), steps, max), more, max);
  }

  lemma TasksInstallNothing(r: Runtime, s: Step, i: nat, max: nat)
    requires i < |r.tasks|
    requires s == PassCheck(i) || s == LaunchFails(i) || s == Prepared(i) || s == PrepareFails(i)
      || s == LaunchFailureRecorded(i)
    ensures var q := Next(r, s, max);
      && q.installed == r.installed && q.spawned == r.spawned
      && q.session == r.session && q.stopRequested == r.stopRequested
  {}

  /** Only a spawned worker is ever installed, and no step takes a stop request back. */
  lemma OnlySpawnsInstall(r: Runtime, s: Step, max: nat)
    requires !s.Spawned?
    ensures var q := Next(r, s, max);
      && q.installed == r.installed && q.spawned == r.spawned && (q.session == r.session || q.session == None)
      && (r.stopRequested ==> q.stopRequested)
  {
    match s
    case PassCheck(i) => if i < |r.tasks| { TasksInstallNothing(r, s, i, max); }
    case LaunchFails(i) => if i < |r.tasks| { TasksInstallNothing(r, s, i, max); }
    case Prepared(i) => if i < |r.tasks| { TasksInstallNothing(r, s, i, max); }
    case PrepareFails(i) => if i < |r.tasks| { TasksInstallNothing(r, s, i, max); }
    case LaunchFailureRecorded(i) => if i < |r.tasks| { TasksInstallNothing(r, s, i, max); }
    case _ =>
  }

  lemma NextAfterStop(r: Runtime, s: Step, max: nat)
    requires r.stopRequested
    ensures Next(r, s, max).stopRequested && Next(r, s, max).installed == r.installed
  {
    if !s.Spawned? { OnlySpawnsInstall(r, s, max); }
  }

  /** Once a stop is requested no further worker is ever installed. */
  lemma {:induction false} NothingInstalledAfterStop(r: Runtime, more: seq<Step>, max: nat)
    requires r.stopRequested
    ensures From(r, more, max).stopRequested && From(r, more, max).installed == r.installed
  {
    if more != [] {
      NothingInstalledAfterStop(r, more[..|more| - 1], max);
      NextAfterStop(From(r, more[..|more| - 1], max), more[|more| - 1], max);
    }
  }

  lemma NextReplaced(r: Runtime, s: Step, w: nat, max: nat)
    requires w < r.spawned && r.session != Some(w)
    ensures w < Next(r, s, max).spawned && Next(r, s, max).session != Some(w)
  {
    if !s.Spawned? { OnlySpawnsInstall(r, s, max); }
  }

  lemma {:induction false} ReplacedFrom(r: Runtime, more: seq<Step>, w: nat, max: nat)
    requires w < r.spawned && r.session != Some(w)
    ensures w < From(r, more, max).spawned && From(r, more, max).session != Some(w)
  {
    if more != [] {
      ReplacedFrom(r, more[..|more| - 1], w, max);
      NextReplaced(From(r, more[..|more| - 1], max), more[|more| - 1], w, max);
    }
  }

  /** What may still change when a worker that is not the installed one becomes ready, fails or exits: who is
      waited for and who has been told to stop, never the runtime itself. */
  predicate OnlyWaits(r: Runtime, q: Runtime) {
    q == r.(starting := q.starting, failing := q.failing, exiting := q.exiting, told := q.told)
  }

  lemma NextIgnores(r: Runtime, w: nat, s: Step, max: nat)
    requires r.session != Some(w)
    requires s == Ready(w) || s == StartupFails(w) || s == FailureRecorded(w) || s == Exits(w)
    ensures OnlyWaits(r, Next(r, s, max))
  {}

  /** A worker that was spawned and is not the installed one never becomes it again, and whatever it does from
      then on, at any later time, leaves the runtime as it is. */
  lemma {:induction false} ReplacedWorkerIgnored(r: Runtime, more: seq<Step>, w: nat, s: Step, max: nat)
    requires w < r.spawned && r.session != Some(w)
    requires s == Ready(w) || s == StartupFails(w) || s == FailureRecorded(w) || s == Exits(w)
    ensures From(r, more, max).session != Some(w)
    ensures OnlyWaits(From(r, more, max), Next(From(r, more, max), s, max))
  {
    ReplacedFrom(r, more, w, max);
    NextIgnores(From(r, more, max), w, s, max);
  }

  /** What no turn undoes: an ended runtime stays ended, a stop request stands and keeps workers out, and the
      number of workers only grows, up to its limit. */
  predicate Continues(r: Runtime, q: Runtime, max: nat) {
    && (IsTerminal(r.state) ==> IsTerminal(q.state))
    && (r.stopRequested ==> q.stopRequested && q.installed == r.installed)
    && r.spawned <= q.spawned <= 1 + max
  }

  lemma {:induction false} NextContinues(r: Runtime, s: Step, max: nat)
    requires Sound(r, max)
    ensures Sound(Next(r, s, max), max) && Continues(r, Next(r, s, max), max)
  {
    NextSound(r, s, max);
    if IsTerminal(r.state) { TerminalNext(r, s, max); }
    if !s.Spawned? { OnlySpawnsInstall(r, s, max); }
  }

  /** The inspection of an exited worker is the one thing in flight. */
  lemma OnlyInspection(r: Runtime, w: nat, max: nat)
    requires Sound(r, max) && w in r.exiting && r.registered && r.session == Some(w)
    ensures Next(r, Exits(w), max).tasks == [Inspecting(r.stopRequested)] && !LaunchPending(Next(r, Exits(w), max))
  {
    assert r.tasks == [] && !r.recoveryTimer;
  }

  // ---------------------------------------------------------------- how final a verdict is

  /** The steps that change the verdict on an ended runtime: a stop request on one that did not end as stopped;
      and, where a stop was requested with a task in flight, that task ending in a failure of its own: an exit
      inspected after a diagnosed startup failure, or a first or restart launch that fails. */
  predicate Overrules(r: Runtime, s: Step) {
    match s
    case StopRequest => r.state != Stopped
    case Inspected(i, _, _) => i < |r.tasks| && r.tasks[i].Inspecting? && r.registered && r.startupDiagnostic
    case LaunchFails(i) =>
      i < |r.tasks| && (r.tasks[i].Launching? || r.tasks[i].Spawning?) && r.tasks[i].reason.Initial?
    case LaunchFailureRecorded(i) => i < |r.tasks| && r.tasks[i].RecordingFailure? && !r.tasks[i].reason.Recovery?
    case _ => false
  }

  lemma NextVerdict(r: Runtime, s: Step, max: nat)
    requires Sound(r, max) && IsTerminal(r.state)
    ensures Next(r, s, max).state != r.state <==> Overrules(r, s)
    ensures Overrules(r, s) ==> Next(r, s, max).state == if s.StopRequest? then Stopped else Failed
  {}

  /** Exactly which steps change the verdict on an ended runtime, on any run, and to what. */
  lemma {:induction false} VerdictChanges(reason: Reason, steps: seq<Step>, s: Step, max: nat)
    requires IsTerminal(From(Created(reason), steps, max).state)
    ensures var r := From(Created(reason), steps, max);
      && (Next(r, s, max).state != r.state <==> Overrules(r, s))
      && (Overrules(r, s) ==> Next(r, s, max).state == if s.StopRequest? then Stopped else Failed)
  {
    AlwaysSound(reason, steps, max);
    NextVerdict(From(Created(reason), steps, max), s, max);
  }

  /** How often the verdict changes while `more` happens. */
  function Changes(r: Runtime, more: seq<Step>, max: nat): nat {
    if more == [] then 0 else
    var q := From(r, more[..|more| - 1], max);
    Changes(r, more[..|more| - 1], max) + Count(Next(q, more[|more| - 1], max).state != q.state)
  }

  /** How many changes an ended runtime has left: two while a task is in flight, one unless it is stopped. */
  function Left(r: Runtime): nat { if r.tasks != [] then 2 else if r.state != Stopped then 1 else 0 }

  lemma NextLeft(r: Runtime, s: Step, max: nat)
    requires Sound(r, max) && IsTerminal(r.state)
    ensures Left(Next(r, s, max)) + Count(Next(r, s, max).state != r.state) <= Left(r)
  {
    NextVerdict(r, s, max);
    if r.tasks == [] { assert Next(r, s, max).tasks == []; }
  }

  lemma {:induction false} ChangesFrom(r: Runtime, more: seq<Step>, max: nat)
    requires Sound(r, max) && IsTerminal(r.state)
    ensures Changes(r, more, max) + Left(From(r, more, max)) <= Left(r)
  {
    if more != [] {
      var before := more[..|more| - 1];
      ChangesFrom(r, before, max);
      FromSound(r, before, max);
      TerminalFrom(r, before, max);
      NextLeft(From(r, before, max), more[|more| - 1], max);
    }
  }

  /** The verdict on an ended runtime changes at most twice, and never again once it is stopped and nothing is
      in flight. */
  lemma {:induction false} VerdictSettles(reason: Reason, steps: seq<Step>, more: seq<Step>, max: nat)
    requires IsTerminal(From(Created(reason), steps, max).state)
    ensures var r := From(Created(reason), steps, max);
      && Changes(r, more, max) <= 2
      && (r.tasks == [] ==> Changes(r, more, max) <= 1)
      && (r.tasks == [] && r.state == Stopped ==> Changes(r, more, max) == 0)
  {
    AlwaysSound(reason, steps, max);
    ChangesFrom(From(Created(reason), steps, max), more, max);
  }

  // ---- runs on which it changes

  lemma OneMore(r: Runtime, steps: seq<Step>, s: Step, all: seq<Step>, max: nat)
    requires all == steps + [s]
    ensures From(r, all, max) == Next(From(r, steps, max), s, max)
  {
    assert all[..|steps|] == steps;
  }

  lemma Launched(reason: Reason)
    ensures From(Created(reason), [PassCheck(0)], 2) == Created(reason).(tasks := [Spawning(reason)])
  {
    OneMore(Created(reason), [], PassCheck(0), [PassCheck(0)], 2);
    assert Drop([Launching(reason)], 0) == [];
  }

  /** A first launch whose worker failed to start. */
  lemma FailedToStart()
    ensures From(Created(Initial), [PassCheck(0), Spawned(0, true, false), StartupFails(0)], 2)
      == Created(Initial).(tasks := [], session := Some(0), startupDiagnostic := true, spawned := 1, installed := {0},
                           failing := {0}, exiting := {0})
  {
    Launched(Initial);
    assert Drop([Spawning(Initial)], 0) == [];
    var two := [PassCheck(0), Spawned(0, true, false)];
    OneMore(Created(Initial), [PassCheck(0)], Spawned(0, true, false), two, 2);
    OneMore(Created(Initial), two, StartupFails(0), two + [StartupFails(0)], 2);
    assert {0} - {0} == {};
  }

  /** The same, stopped after its worker has exited. */
  lemma StoppedWhileInspected()
    ensures From(Created(Initial), [PassCheck(0), Spawned(0, true, false), StartupFails(0), Exits(0), StopRequest], 2)
      == Created(Initial).(state := Stopped, tasks := [Inspecting(false)], stopRequested := true,
                           startupDiagnostic := true, spawned := 1, installed := {0}, failing := {0})
  {
    FailedToStart();
    var three := [PassCheck(0), Spawned(0, true, false), StartupFails(0)];
    var four := [PassCheck(0), Spawned(0, true, false), StartupFails(0), Exits(0)];
    OneMore(Created(Initial), three, Exits(0), four, 2);
    OneMore(Created(Initial), four, StopRequest,
            [PassCheck(0), Spawned(0, true, false), StartupFails(0), Exits(0), StopRequest], 2);
    assert {0} - {0} == {};
  }

  /** A stop that arrives while a failed startup is being inspected is overruled by the startup failure, and a
      second stop overrules that. */
  lemma VerdictOverruled()
    ensures var steps := [PassCheck(0), Spawned(0, true, false), StartupFails(0), Exits(0), StopRequest];
      var r := From(Created(Initial), steps, 2);
      var q := Next(r, Inspected(0, false, false), 2);
      r.state == Stopped && q.state == Failed && Next(q, StopRequest, 2).state == Stopped
  {
    StoppedWhileInspected();
  }

  lemma RanAndExited()
    ensures From(Created(Initial), [PassCheck(0), Spawned(0, false, false), Exits(0)], 2)
      == Created(Initial).(state := Running, tasks := [Inspecting(false)], spawned := 1, installed := {0})
  {
    var two := [PassCheck(0), Spawned(0, false, false)];
    Launched(Initial);
    assert Drop([Spawning(Initial)], 0) == [];
    OneMore(Created(Initial), [PassCheck(0)], Spawned(0, false, false), two, 2);
    OneMore(Created(Initial), two, Exits(0), [PassCheck(0), Spawned(0, false, false), Exits(0)], 2);
    assert {0} - {0} == {};
  }

  /** A stop on a completed runtime turns it into a stopped one. */
  lemma StopOverrulesCompleted()
    ensures var r := From(Created(Initial), [PassCheck(0), Spawned(0, false, false), Exits(0)], 2);
      var q := Next(r, Inspected(0, true, false), 2);
      q.state == Completed && Next(q, StopRequest, 2).state == Stopped
  {
    RanAndExited();
  }

  /** A stop during a first launch is overruled when the launch fails. */
  lemma FailedLaunchOverrules()
    ensures var r := From(Created(Initial), [PassCheck(0), StopRequest], 2);
      r.state == Stopped && !r.startupDiagnostic && Next(r, LaunchFails(0), 2).state == Failed
  {
    Launched(Initial);
    OneMore(Created(Initial), [PassCheck(0)], StopRequest, [PassCheck(0), StopRequest], 2);
  }

  /** So is one during the launch of a session recovered at server start, when its failure has been recorded. */
  lemma FailedRestartOverrules()
    ensures var r := From(Created(Restart), [PassCheck(0), LaunchFails(0), StopRequest], 2);
      r.state == Stopped && !r.startupDiagnostic && Next(r, LaunchFailureRecorded(0), 2).state == Failed
  {
    Launched(Restart);
    assert Drop([Spawning(Restart)], 0) == [];
    OneMore(Created(Restart), [PassCheck(0)], LaunchFails(0), [PassCheck(0), LaunchFails(0)], 2);
    var two := [PassCheck(0), LaunchFails(0)];
    OneMore(Created(Restart), two, StopRequest, [PassCheck(0), LaunchFails(0), StopRequest], 2);
  }
}
