/**
 Reservation of Fleet VMs (fleet.ts) under every interleaving at await points.

 `reserve`, `release` and `configure` run one after another behind the promise-chain lock; clones rewrite
 machine settings in the same configuration file without it; and `configure` holds a snapshot of the whole
 file across its awaits and writes that snapshot back.
 */
module FleetReservations {
  import opened Options

  /** Who holds a VM, and the workspace staged on it, if any. */
  datatype Claim = Claim(machine: nat, session: nat, workspace: Option<nat>)

  /** The parts of the configuration file that matter here; settings of a VM are opaque. */
  datatype Config = Config(primary: bool, enabled: bool, machines: map<nat, nat>, owners: map<nat, Claim>)

  datatype Change = SetRole(primary: bool) | SetEnabled(enabled: bool) | SetMachine(vm: nat, settings: nat) | SetOther

  datatype Operation = Reserve(vm: nat, claim: Claim) | Release(vm: nat, claim: Claim) | Configure(change: Change)

  /** An operation in the lock's queue; the head holds the lock. */
  datatype Progress = Waiting | Begun(snapshot: Config) | Committed
  datatype Job = Job(operation: Operation, progress: Progress)

  datatype Event = Reserved(vm: nat, claim: Claim) | Released(vm: nat, claim: Claim)

  datatype World = World(config: Config, queue: seq<Job>, log: seq<Event>)

  datatype Step =
    | Submit(operation: Operation)
    | Begin
    | Commit(runnable: bool)                 // what the VM inventory says about the reserved VM
    | Abort                                  // an await of the head rejects
    | Unlock
    | WriteSettings(vm: nat, settings: nat)  // a clone or session clone, outside the lock

  predicate SameHolder(a: Claim, b: Claim) { a.machine == b.machine && a.session == b.session }

  /** The checks configure makes on its snapshot before it first awaits. */
  predicate Allowed(c: Config, change: Change) {
    match change
    case SetRole(primary) => primary == c.primary || c.owners == map[]
    case SetEnabled(enabled) => enabled || c.owners == map[]
    case _ => true
  }

  function Configured(snapshot: Config, change: Change): Outcome<Config> {
    match change
    case SetRole(primary) => Returned(snapshot.(primary := primary))
    case SetEnabled(enabled) => Returned(snapshot.(enabled := enabled))
    case SetMachine(vm, settings) =>
      if vm in snapshot.owners then Threw else Returned(snapshot.(machines := snapshot.machines[vm := settings]))
    case SetOther => Returned(snapshot)
  }

  /** The claim left in the file: the new one over the old one, whose workspace survives. */
  function Merged(c: Config, vm: nat, claim: Claim): Claim {
    if vm in c.owners && claim.workspace.None? then claim.(workspace := c.owners[vm].workspace) else claim
  }

  predicate StagedElsewhere(c: Config, vm: nat, claim: Claim) {
    exists other ::
      && other in c.owners && other != vm
      && c.owners[other].workspace == claim.workspace && !SameHolder(c.owners[other], claim)
  }

  function Reserving(c: Config, runnable: bool, vm: nat, claim: Claim): Outcome<Config> {
    if !runnable || !c.primary || !c.enabled then Threw
    else if vm in c.owners && !SameHolder(c.owners[vm], claim) then Threw
    else if vm in c.owners && c.owners[vm].workspace.Some? && claim.workspace.Some?
            && c.owners[vm].workspace != claim.workspace then Threw
    else if claim.workspace.Some? && StagedElsewhere(c, vm, claim) then Threw
    else Returned(c.(owners := c.owners[vm := Merged(c, vm, claim)]))
  }

  function Releasing(c: Config, vm: nat, claim: Claim): Outcome<Config> {
    if vm in c.owners && !SameHolder(c.owners[vm], claim) then Threw
    else Returned(c.(owners := c.owners - {vm}))
  }

  function Head(w: World): Operation
    requires w.queue != []
  {
    w.queue[0].operation
  }

  function Committing(w: World, runnable: bool): Outcome<Config>
    requires w.queue != [] && w.queue[0].progress.Begun?
  {
    match Head(w)
    case Reserve(vm, claim) => Reserving(w.config, runnable, vm, claim)
    case Release(vm, claim) => Releasing(w.config, vm, claim)
    case Configure(change) => Configured(w.queue[0].progress.snapshot, change)
  }

  function Logged(op: Operation): seq<Event> {
    match op
    case Reserve(vm, claim) => [Reserved(vm, claim)]
    case Release(vm, claim) => [Released(vm, claim)]
    case Configure(_) => []
  }

  function Advance(w: World, p: Progress): World
    requires w.queue != []
  {
    w.(queue := [Job(Head(w), p)] + w.queue[1..])
  }

  function Next(w: World, s: Step): World {
    match s
    case Submit(op) => w.(queue := w.queue + [Job(op, Waiting)])
    case Begin =>
      if w.queue == [] || !w.queue[0].progress.Waiting? then w
      else if Head(w).Configure? && !Allowed(w.config, Head(w).change) then w.(queue := w.queue[1..])
      else Advance(w, Begun(w.config))
    case Commit(runnable) =>
      if w.queue == [] || !w.queue[0].progress.Begun? then w else (
      match Committing(w, runnable)
      case Threw => w.(queue := w.queue[1..])
      case Returned(config) => Advance(w, Progress.Committed).(config := config, log := w.log + Logged(Head(w))))
    case Abort => if w.queue != [] && w.queue[0].progress.Begun? then w.(queue := w.queue[1..]) else w
    case Unlock => if w.queue != [] && w.queue[0].progress.Committed? then w.(queue := w.queue[1..]) else w
    case WriteSettings(vm, settings) => w.(config := w.config.(machines := w.config.machines[vm := settings]))
  }

  function Start(primary: bool, enabled: bool, machines: map<nat, nat>): World {
    World(Config(primary, enabled, machines, map[]), [], [])
  }

  function From(w: World, steps: seq<Step>): World {
    if steps == [] then w else Next(From(w, steps[..|steps| - 1]), steps[|steps| - 1])
  }

  // ---------------------------------------------------------------- invariants

  /** Machines that stage the same workspace have the same holder. */
  ghost predicate OneHolderPerWorkspace(owners: map<nat, Claim>) {
    forall a, b | a in owners && b in owners && owners[a].workspace.Some? ::
      owners[a].workspace == owners[b].workspace ==> SameHolder(owners[a], owners[b])
  }

  /** Only the head has begun, and its snapshot is stale in the machine settings at most. */
  ghost predicate SnapshotFresh(w: World) {
    && (forall i | 0 < i < |w.queue| :: w.queue[i].progress.Waiting?)
    && (w.queue != [] && w.queue[0].progress.Begun? ==>
          var s := w.queue[0].progress.snapshot;
          && s.owners == w.config.owners && s.primary == w.config.primary && s.enabled == w.config.enabled
          && (Head(w).Configure? ==> Allowed(s, Head(w).change)))
  }

  /** A consistent file: no workspace with two holders, and no owners unless this is an enabled primary. */
  ghost predicate Consistent(c: Config) {
    OneHolderPerWorkspace(c.owners) && (c.owners != map[] ==> c.primary && c.enabled)
  }

  ghost predicate Sound(w: World) { SnapshotFresh(w) && Consistent(w.config) }

  predicate SameButMachines(s: Config, c: Config) { s == c.(machines := s.machines) }

  lemma ReservingConsistent(c: Config, runnable: bool, vm: nat, claim: Claim)
    requires Consistent(c)
    ensures var r := Reserving(c, runnable, vm, claim);
      r.Returned? ==> Consistent(r.value) && Held(r.value.owners, claim) == Held(c.owners, claim) + {vm}
  {}

  lemma CommitSound(w: World, runnable: bool)
    requires Sound(w) && w.queue != [] && w.queue[0].progress.Begun?
    ensures Sound(Next(w, Commit(runnable)))
  {}

  lemma NextSound(w: World, s: Step)
    requires Sound(w)
    ensures Sound(Next(w, s))
  {
    if s.Commit? && w.queue != [] && w.queue[0].progress.Begun? { CommitSound(w, s.runnable); }
  }

  lemma {:induction false} FromSound(w: World, steps: seq<Step>)
    requires Sound(w)
    ensures Sound(From(w, steps))
  {
    if steps != [] {
      FromSound(w, steps[..|steps| - 1]);
      NextSound(From(w, steps[..|steps| - 1]), steps[|steps| - 1]);
    }
  }

  // ---------------------------------------------------------------- the theorems

  /** On every interleaving: machines staging one workspace have one holder, and VMs are held only while the
      instance is an enabled primary. */
  lemma ReservationsConsistent(primary: bool, enabled: bool, machines: map<nat, nat>, steps: seq<Step>)
    ensures var c := From(Start(primary, enabled, machines), steps).config;
      OneHolderPerWorkspace(c.owners) && (c.owners != map[] ==> c.primary && c.enabled)
  {
    FromSound(Start(primary, enabled, machines), steps);
  }

  /** The claim stands, with its staged workspace. */
  ghost predicate Stands(c: Config, vm: nat, claim: Claim) {
    vm in c.owners && SameHolder(c.owners[vm], claim) && (claim.workspace.Some? ==> c.owners[vm] == claim)
  }

  /** From position `from` on, the log has a release of the VM by the holder of the claim itself. */
  ghost predicate GivenUp(log: seq<Event>, from: nat, vm: nat, claim: Claim) {
    exists i :: from <= i < |log| && log[i].Released? && log[i].vm == vm && SameHolder(log[i].claim, claim)
  }

  /** A step never gives a held VM to another holder nor forgets its staged workspace: only a release by the
      holder frees the VM, and only a reservation takes a free one. */
  lemma NextGuards(w: World, s: Step, vm: nat)
    requires Sound(w)
    ensures w.log <= Next(w, s).log
    ensures vm in w.config.owners ==>
      Stands(Next(w, s).config, vm, w.config.owners[vm]) || GivenUp(Next(w, s).log, |w.log|, vm, w.config.owners[vm])
    ensures vm !in w.config.owners && vm in Next(w, s).config.owners ==>
      Next(w, s).log == w.log + [Reserved(vm, Next(w, s).config.owners[vm])]
  {
    if s.Commit? && w.queue != [] && w.queue[0].progress.Begun? && Head(w).Release?
      && Committing(w, s.runnable).Returned? {
      assert Next(w, s).log[|w.log|] == Released(Head(w).vm, Head(w).claim);
    }
  }

  /** A reservation survives every interleaving until its own holder releases it. */
  lemma {:induction false} ClaimSurvives(w: World, steps: seq<Step>, vm: nat)
    requires Sound(w) && vm in w.config.owners
    ensures w.log <= From(w, steps).log
    ensures Stands(From(w, steps).config, vm, w.config.owners[vm])
      || GivenUp(From(w, steps).log, |w.log|, vm, w.config.owners[vm])
  {
    if steps != [] {
      var u, v := From(w, steps[..|steps| - 1]), From(w, steps);
      ClaimSurvives(w, steps[..|steps| - 1], vm);
      FromSound(w, steps[..|steps| - 1]);
      NextGuards(u, steps[|steps| - 1], vm);
      if GivenUp(u.log, |w.log|, vm, w.config.owners[vm]) {
        var claim := w.config.owners[vm];
        var i :| |w.log| <= i < |u.log| && u.log[i].Released? && u.log[i].vm == vm && SameHolder(u.log[i].claim, claim);
        assert v.log[i] == u.log[i];
      }
    }
  }

  // ---------------------------------------------------------------- who can move a session's VMs

  predicate HeldBy(owners: map<nat, Claim>, vm: nat, me: Claim) { vm in owners && SameHolder(owners[vm], me) }

  function Held(owners: map<nat, Claim>, me: Claim): set<nat> { set vm | vm in owners && SameHolder(owners[vm], me) }

  predicate Mine(op: Operation, me: Claim) { !op.Configure? && SameHolder(op.claim, me) }

  /** The step is no commit of a reservation or release made in the name of this session. */
  predicate ByOthers(w: World, s: Step, me: Claim) { s.Commit? && w.queue != [] ==> !Mine(Head(w), me) }

  ghost predicate AllByOthers(w: World, steps: seq<Step>, me: Claim) {
    forall i | 0 <= i < |steps| :: ByOthers(From(w, steps[..i]), steps[i], me)
  }

  /** The session's claims, VM by VM. */
  function Claims(owners: map<nat, Claim>, me: Claim): map<nat, Claim> { map vm | vm in Held(owners, me) :: owners[vm] }

  lemma NextKeepsClaims(w: World, s: Step, me: Claim)
    requires Sound(w) && ByOthers(w, s, me)
    ensures Claims(Next(w, s).config.owners, me) == Claims(w.config.owners, me)
  {}

  /** Whatever everybody else does, and in whatever order, a session holds exactly the VMs it held, with the
      workspaces it staged on them. */
  lemma {:induction false} OthersKeepClaims(w: World, steps: seq<Step>, me: Claim)
    requires Sound(w) && AllByOthers(w, steps, me)
    ensures Claims(From(w, steps).config.owners, me) == Claims(w.config.owners, me)
  {
    if steps != [] {
      var before := steps[..|steps| - 1];
      assert forall i | 0 <= i < |before| :: before[..i] == steps[..i];
      OthersKeepClaims(w, before, me);
      FromSound(w, before);
      NextKeepsClaims(From(w, before), steps[|steps| - 1], me);
    }
  }

  // ---------------------------------------------------------------- settings a clone writes

  predicate Has(c: Config, vm: nat, x: nat) { vm in c.machines && c.machines[vm] == x }

  /** A configure has begun, still holds the lock, and what it is going to write lacks this setting: its snapshot
      does and it does not set it itself, or it sets another one. */
  predicate Stale(w: World, vm: nat, x: nat) {
    w.queue != [] && w.queue[0].progress.Begun? && Head(w).Configure? &&
    var snapshot := w.queue[0].progress.snapshot;
    match Head(w).change
    case SetMachine(v, y) => v !in snapshot.owners && (if v == vm then y != x else !Has(snapshot, vm, x))
    case _ => !Has(snapshot, vm, x)
  }

  /** Nobody waits to set this machine by a configure of his own. */
  predicate NoSetterWaits(w: World, vm: nat) {
    forall i | 0 <= i < |w.queue| && w.queue[i].progress.Waiting? :: !Sets(w.queue[i].operation, vm)
  }

  predicate Sets(op: Operation, vm: nat) { op.Configure? && op.change.SetMachine? && op.change.vm == vm }

  /** No later write of the machine's settings. */
  predicate LeavesAlone(s: Step, vm: nat) {
    !(s.WriteSettings? && s.vm == vm) && !(s.Submit? && Sets(s.operation, vm))
  }

  datatype Ending = NotYet | ByCommit | ByAbort

  /** How the section under the lock ends: by its commit or by an abort, whichever comes first. */
  function EndOf(steps: seq<Step>): Ending {
    if steps == [] then NotYet else
    var before := EndOf(steps[..|steps| - 1]);
    if before != NotYet then before
    else match steps[|steps| - 1]
      case Commit(_) => ByCommit
      case Abort => ByAbort
      case _ => NotYet
  }

  /** The setting is in the file and will stay there; is in the file, to be overwritten; or is gone for good. */
  ghost predicate Kept(w: World, vm: nat, x: nat) { Has(w.config, vm, x) && !Stale(w, vm, x) }

  ghost predicate AtRisk(w: World, vm: nat, x: nat) { Has(w.config, vm, x) && Stale(w, vm, x) }

  ghost predicate Gone(w: World, vm: nat, x: nat) {
    && !Has(w.config, vm, x)
    && (w.queue != [] && w.queue[0].progress.Begun? && Head(w).Configure? ==>
          !Sets(Head(w), vm) && !Has(w.queue[0].progress.snapshot, vm, x))
  }

  lemma KeptStays(w: World, s: Step, vm: nat, x: nat)
    requires Sound(w) && NoSetterWaits(w, vm) && LeavesAlone(s, vm) && Kept(w, vm, x)
    ensures Kept(Next(w, s), vm, x)
  {}

  lemma GoneStays(w: World, s: Step, vm: nat, x: nat)
    requires Sound(w) && NoSetterWaits(w, vm) && LeavesAlone(s, vm) && Gone(w, vm, x)
    ensures Gone(Next(w, s), vm, x)
  {}

  lemma RiskEnds(w: World, s: Step, vm: nat, x: nat)
    requires Sound(w) && NoSetterWaits(w, vm) && LeavesAlone(s, vm) && AtRisk(w, vm, x)
    ensures match s
      case Commit(_) => Gone(Next(w, s), vm, x)
      case Abort => Kept(Next(w, s), vm, x)
      case _ => AtRisk(Next(w, s), vm, x)
  {}

  lemma NoSetterStays(w: World, s: Step, vm: nat)
    requires Sound(w) && NoSetterWaits(w, vm) && LeavesAlone(s, vm)
    ensures NoSetterWaits(Next(w, s), vm)
  {}

  ghost predicate Settled(w: World, v: World, end: Ending, vm: nat, x: nat) {
    if !Stale(w, vm, x) then Kept(v, vm, x)
    else match end
      case NotYet => AtRisk(v, vm, x)
      case ByAbort => Kept(v, vm, x)
      case ByCommit => Gone(v, vm, x)
  }

  lemma {:induction false} SettingFrom(w: World, steps: seq<Step>, vm: nat, x: nat)
    requires Sound(w) && Has(w.config, vm, x) && NoSetterWaits(w, vm)
    requires forall i | 0 <= i < |steps| :: LeavesAlone(steps[i], vm)
    ensures NoSetterWaits(From(w, steps), vm) && Settled(w, From(w, steps), EndOf(steps), vm, x)
  {
    if steps != [] {
      var before, s := steps[..|steps| - 1], steps[|steps| - 1];
      var u := From(w, before);
      SettingFrom(w, before, vm, x);
      FromSound(w, before);
      NoSetterStays(u, s, vm);
      if Kept(u, vm, x) { KeptStays(u, s, vm, x); }
      else if AtRisk(u, vm, x) { RiskEnds(u, s, vm, x); }
      else { GoneStays(u, s, vm, x); }
    }
  }

  /** Exactly when a machine setting that a clone writes survives, on every run without a later write of it: it is
      lost if and only if a configure with a stale snapshot has begun and holds the lock at that moment, and ends
      by its commit. */
  lemma {:induction false} CloneSettingSurvives(w: World, steps: seq<Step>, vm: nat, x: nat)
    requires Sound(w) && NoSetterWaits(w, vm) && forall i | 0 <= i < |steps| :: LeavesAlone(steps[i], vm)
    ensures var v := Next(w, WriteSettings(vm, x));
      Has(From(v, steps).config, vm, x) <==> !(Stale(v, vm, x) && EndOf(steps) == ByCommit)
  {
    var v := Next(w, WriteSettings(vm, x));
    NextSound(w, WriteSettings(vm, x));
    SettingFrom(v, steps, vm, x);
  }

  /** A run on which it is lost: the clone writes while a configure awaits, and the snapshot goes back to the file. */
  lemma CloneSettingsLost()
    ensures var w := From(Start(true, true, map[]), [Submit(Configure(SetOther)), Begin, WriteSettings(7, 1)]);
      7 in w.config.machines && 7 !in Next(w, Commit(true)).config.machines
  {
    var w0 := Start(true, true, map[]);
    var s1 := [Submit(Configure(SetOther))];
    var s2 := [Submit(Configure(SetOther)), Begin];
    var s3 := [Submit(Configure(SetOther)), Begin, WriteSettings(7, 1)];
    assert s1[..0] == [] && s2[..1] == s1 && s3[..2] == s2;
    assert From(w0, s1) == Next(w0, s1[0]);
    assert From(w0, s2) == Next(From(w0, s1), Begin);
    assert From(w0, s3) == Next(From(w0, s2), WriteSettings(7, 1));
  }
}
