/**
 The Fleet configuration file as fleet.ts reads, changes and rewrites it, and `prepareSessionTarget`, which
 strings reservations together with awaits, retries and one replacement.

 Every await lets everybody else in. `OthersRun` allows exactly the runs of `FleetReservations` in which nothing
 is reserved or released in the name of this session; what such runs leave alone is proved, not assumed.
 */
module FleetService {
  import opened Options
  import opened FleetReservations

  lemma OneMore(held: set<nat>, others: set<nat>, vm: nat)
    requires held - {vm} == others && vm in held
    ensures held == others + {vm}
  {}

  lemma Replaced(held: set<nat>, before: set<nat>, touched: set<nat>, vm: nat)
    requires held == (before - touched) + {vm}
    ensures held - {vm} == before - (touched + {vm}) && |touched + {vm}| <= |touched| + 1
  {}

  /** The workspace of this session is staged for another one. */
  predicate StagedByOther(owners: map<nat, Claim>, me: Claim) {
    me.workspace.Some? &&
    exists vm | vm in owners :: owners[vm].workspace == me.workspace && !SameHolder(owners[vm], me)
  }

  /** The VM is held by this session for its workspace. */
  predicate Stages(owners: map<nat, Claim>, vm: nat, me: Claim) {
    HeldBy(owners, vm, me) && owners[vm].workspace == me.workspace
  }

  /** The configuration file is as some run of everybody else may leave it. */
  ghost predicate LeftByOthers(before: Config, after: Config, me: Claim) {
    exists w, steps :: Sound(w) && w.config == before && AllByOthers(w, steps, me) && From(w, steps).config == after
  }

  lemma OthersLeave(before: Config, after: Config, me: Claim)
    requires LeftByOthers(before, after, me)
    ensures Consistent(after) && Claims(after.owners, me) == Claims(before.owners, me)
    ensures Held(after.owners, me) == Held(before.owners, me)
  {
    var w, steps :| Sound(w) && w.config == before && AllByOthers(w, steps, me) && From(w, steps).config == after;
    OthersKeepClaims(w, steps, me);
    FromSound(w, steps);
    assert forall owners :: Claims(owners, me).Keys == Held(owners, me);
  }

  lemma SameClaims(before: map<nat, Claim>, after: map<nat, Claim>, me: Claim)
    requires Claims(after, me) == Claims(before, me) && Held(after, me) == Held(before, me)
    ensures forall vm | vm in Held(after, me) :: vm in before && after[vm] == before[vm]
  {
    forall vm | vm in Held(after, me) ensures vm in before && after[vm] == before[vm] {
      assert Claims(after, me)[vm] == after[vm] && Claims(before, me)[vm] == before[vm];
    }
  }

  lemma NobodyRan(c: Config, me: Claim)
    requires Consistent(c)
    ensures LeftByOthers(c, c, me)
  {
    var w := World(c, [], []);
    assert Sound(w) && AllByOthers(w, [], me) && From(w, []).config == c;
  }

  class FleetFile {
    var primary: bool
    var enabled: bool
    var machines: map<nat, nat>
    var owners: map<nat, Claim>

    ghost function Model(): Config
      reads this
    {
      Config(primary, enabled, machines, owners)
    }

    ghost predicate Valid()
      reads this
    {
      Consistent(Model())
    }

    // ------------------------------------------------------------ the locked sections

    method CommitReserve(runnable: bool, vm: nat, claim: Claim) returns (ok: bool)
      modifies this`owners
      ensures WrittenBy(Reserving(old(Model()), runnable, vm, claim), ok)
    {
      if !runnable || !primary || !enabled { return false; }
      if vm in owners && !SameHolder(owners[vm], claim) { return false; }
      if vm in owners && owners[vm].workspace.Some? && claim.workspace.Some?
        && owners[vm].workspace != claim.workspace { return false; }
      if claim.workspace.Some? {
        var todo := owners.Keys;
        while todo != {}
          invariant todo <= owners.Keys && owners == old(owners)
          invariant forall other | other in owners && other !in todo && other != vm ::
            owners[other].workspace == claim.workspace ==> SameHolder(owners[other], claim)
          decreases |todo|
        {
          var other :| other in todo;
          todo := todo - {other};
          if other != vm && owners[other].workspace == claim.workspace && !SameHolder(owners[other], claim) {
            assert StagedElsewhere(Model(), vm, claim);
            return false;
          }
        }
      }
      var kept := if vm in owners && claim.workspace.None? then owners[vm].workspace else claim.workspace;
      owners := owners[vm := Claim(claim.machine, claim.session, kept)];
      return true;
    }

    method CommitRelease(vm: nat, claim: Claim) returns (ok: bool)
      modifies this`owners
      ensures WrittenBy(Releasing(old(Model()), vm, claim), ok)
    {
      if vm in owners && !SameHolder(owners[vm], claim) { return false; }
      owners := owners - {vm};
      return true;
    }

    /** configure's last stretch: its changed snapshot replaces the file. With a snapshot that is current but for
        machine settings, which the lock guarantees, nobody loses a VM and the file stays consistent. */
    method CommitConfigure(snapshot: Config, change: Change) returns (ok: bool)
      modifies this
      ensures WrittenBy(Configured(snapshot, change), ok)
      ensures old(Valid()) && SameButMachines(snapshot, old(Model())) && Allowed(snapshot, change) ==>
        Valid() && owners == old(owners)
      ensures forall vm, x | change == SetMachine(vm, x) :: ok ==> vm !in snapshot.owners && Has(Model(), vm, x)
      ensures forall vm | vm in snapshot.machines && !(change.SetMachine? && change.vm == vm) ::
        ok ==> Has(Model(), vm, snapshot.machines[vm])
    {
      var role, on, settings := snapshot.primary, snapshot.enabled, snapshot.machines;
      match change {
        case SetRole(p) => role := p;
        case SetEnabled(e) => on := e;
        case SetMachine(vm, s) =>
          if vm in snapshot.owners { return false; }
          settings := settings[vm := s];
        case SetOther =>
      }
      primary, enabled, machines, owners := role, on, settings, snapshot.owners;
      return true;
    }

    twostate predicate WrittenBy(outcome: Outcome<Config>, ok: bool)
      reads this
    {
      ok == outcome.Returned? && Model() == if ok then outcome.value else old(Model())
    }

    // ------------------------------------------------------------ one session among others

    /** Everybody else runs for a while. */
    method OthersRun(ghost me: Claim)
      requires Valid()
      modifies this
      ensures LeftByOthers(old(Model()), Model(), me)
    {
      NobodyRan(Model(), me);
    }

    /** An await: whatever everybody else does meanwhile, this session holds what it held. */
    method Await(ghost me: Claim)
      requires Valid()
      modifies this
      ensures Valid() && Held(owners, me) == Held(old(owners), me)
      ensures forall vm | vm in Held(owners, me) :: vm in old(owners) && owners[vm] == old(owners)[vm]
    {
      OthersRun(me);
      OthersLeave(old(Model()), Model(), me);
      SameClaims(old(owners), owners, me);
    }

    /** A clone or session clone rewrites the settings of one machine, outside the lock. */
    method WriteMachine(vm: nat, settings: nat)
      requires Valid()
      modifies this`machines
      ensures Valid() && machines == old(machines)[vm := settings]
    {
      machines := machines[vm := settings];
    }

    /** configure, with its waits for the lock, on its own inspections, and for the answer. Whatever it changes and
        however stale its snapshot of machine settings is, no session loses or gains a VM by it. */
    method Configure(change: Change, ghost me: Claim) returns (ok: bool)
      requires Valid()
      modifies this
      ensures Valid() && Held(owners, me) == Held(old(owners), me)
    {
      Await(me);
      var snapshot := Config(primary, enabled, machines, owners);
      if !Allowed(snapshot, change) { return false; }
      var writes: seq<(nat, nat)> := *;
      for i := 0 to |writes|
        invariant Valid() && SameButMachines(snapshot, Model()) && Held(owners, me) == Held(old(owners), me)
      {
        WriteMachine(writes[i].0, writes[i].1);
      }
      var inspected: bool := *;
      if !inspected { return false; }
      ok := CommitConfigure(snapshot, change);
      Await(me);
    }

    /** reserve, with its waits for the lock and for the VM inventory. */
    method ReserveFor(vm: nat, me: Claim) returns (ok: bool)
      requires Valid()
      modifies this
      ensures Valid() && Held(owners, me) == Held(old(owners), me) + (if ok then {vm} else {})
      ensures ok && me.workspace.Some? ==> Stages(owners, vm, me)
    {
      Await(me);
      var runnable: bool := *;
      ReservingConsistent(Model(), runnable, vm, me);
      ok := CommitReserve(runnable, vm, me);
      Await(me);
    }

    /** releaseSessionTarget: nothing to do unless this session holds the VM. */
    method ReleaseSessionTarget(vm: nat, me: Claim)
      requires Valid()
      modifies this
      ensures Valid() && Held(owners, me) == Held(old(owners), me) - {vm}
    {
      if !HeldBy(owners, vm, me) { return; }
      Await(me);
      assert vm in Held(owners, me);
      var ok := CommitRelease(vm, me);
      Await(me);
    }

    /** cloneForSession: refuses a workspace staged for another session; otherwise adopts a clone this session
        already holds, or reserves an unclaimed or a fresh one. */
    method CloneForSession(me: Claim, existing: seq<nat>, skip: Option<nat>, freshVm: nat) returns (vm: Outcome<nat>)
      requires Valid()
      modifies this
      ensures Valid() && Held(owners, me) == Held(old(owners), me) + (if vm.Returned? then {vm.value} else {})
      ensures vm.Returned? && vm.value !in Held(old(owners), me) && me.workspace.Some? ==>
        Stages(owners, vm.value, me) && !StagedByOther(owners, me)
      ensures vm.Returned? ==> vm.value == freshVm || (vm.value in existing && skip != Some(vm.value))
    {
      Await(me);
      var available: bool := *;
      if !available || StagedByOther(owners, me) { return Threw; }
      for i := 0 to |existing|
        invariant Valid() && Held(owners, me) == Held(old(owners), me)
      {
        var usable: bool := *;
        if skip == Some(existing[i]) || !usable { continue; }
        if existing[i] !in owners || HeldBy(owners, existing[i], me) {
          var mine := existing[i] in owners;
          var settings: nat := *;
          WriteMachine(existing[i], settings);
          if mine { return Returned(existing[i]); }
          var ok := ReserveFor(existing[i], me);
          return if ok then Returned(existing[i]) else Threw;
        }
      }
      Await(me);
      var clonedOk: bool := *;
      if !clonedOk { return Threw; }
      var settings: nat := *;
      WriteMachine(freshVm, settings);
      Await(me);
      WriteMachine(freshVm, settings);
      var ok := ReserveFor(freshVm, me);
      return if ok then Returned(freshVm) else Threw;
    }

    /** One try to reach a VM over SSH: start it, then poll for up to 60 rounds. */
    method StartAndConnect(me: Claim) returns (ok: bool)
      requires Valid()
      modifies this
      ensures Valid() && Held(owners, me) == Held(old(owners), me)
    {
      Await(me);
      var started: bool := *;
      if !started { return false; }
      for attempt := 0 to 60
        invariant Valid() && Held(owners, me) == Held(old(owners), me)
      {
        Await(me);
        var connected: bool, permanent: bool := *, *;
        if connected { return true; }
        if permanent && attempt >= 2 { return false; }
      }
      return false;
    }

    /** Reserve the VM unless it is a clone held already, check its settings, start it and connect. */
    method TryTarget(vm: nat, cloned: bool, me: Claim) returns (ok: bool)
      requires Valid() && (cloned ==> vm in Held(owners, me))
      modifies this
      ensures Valid() && Held(owners, me) - {vm} == Held(old(owners), me) - {vm}
      ensures ok ==> vm in Held(owners, me)
    {
      ok := true;
      if !cloned { ok := ReserveFor(vm, me); }
      if !ok { return; }
      var configured: bool := *;
      if !configured { return false; }
      ok := StartAndConnect(me);
    }

    /** The catch block: look for a replacement, let go of the VM that failed, and mark a failed clone unusable. */
    method GiveUp(vm: nat, cloned: bool, isFirst: bool, me: Claim) returns (replacementFound: bool)
      requires Valid()
      modifies this
      ensures Valid() && Held(owners, me) == Held(old(owners), me) - {vm}
      ensures replacementFound ==> isFirst
    {
      if isFirst { Await(me); }
      var found: bool := *;
      replacementFound := isFirst && found;
      ReleaseSessionTarget(vm, me);
      if replacementFound && cloned && vm in machines {
        var settings: nat := *;
        WriteMachine(vm, settings);
      }
    }

    /** The catch block and what follows it: let go of the failed VM, then clone a replacement if there is one. */
    method Replace(vm: nat, cloned: bool, isFirst: bool, me: Claim, existing: seq<nat>, freshVm: nat)
      returns (next: Outcome<nat>)
      requires Valid()
      modifies this
      ensures Valid() && (next.Returned? ==> isFirst)
      ensures Held(owners, me) == (Held(old(owners), me) - {vm}) + (if next.Returned? then {next.value} else {})
    {
      var replacementBase := GiveUp(vm, cloned, isFirst, me);
      if !replacementBase { return Threw; }
      next := CloneForSession(me, existing, if cloned then Some(vm) else None, freshVm);
    }

    /** All or nothing: success returns one VM, held by this session; failure leaves it holding none of the VMs
        the call touched. There is at most one replacement, and no other VM of the session is affected. */
    method PrepareSessionTarget(isClone: bool, selected: nat, me: Claim, existing: seq<nat>, fresh1: nat, fresh2: nat)
      returns (result: Outcome<nat>, ghost touched: set<nat>, replacements: nat)
      requires Valid()
      modifies this
      ensures Valid()
      ensures Held(owners, me) == (Held(old(owners), me) - touched) + (if result.Returned? then {result.value} else {})
      ensures result.Returned? ==> result.value in touched
      ensures replacements <= 1 && |touched| <= 1 + replacements
    {
      touched, replacements, result := {}, 0, Threw;
      Await(me);
      var listed: bool := *;
      if !listed { return; }
      var cloned := isClone;
      var vm := selected;
      if cloned {
        var clone := CloneForSession(me, existing, None, fresh1);
        if clone.Threw? { return; }
        vm := clone.value;
      }
      touched := {vm};
      ghost var before := Held(old(owners), me);
      while true
        invariant Valid()
        invariant replacements <= 1 && |touched| <= 1 + replacements && vm in touched
        invariant Held(owners, me) - {vm} == before - touched
        invariant cloned ==> vm in Held(owners, me)
        decreases 1 - replacements
      {
        var ok := TryTarget(vm, cloned, me);
        if ok {
          OneMore(Held(owners, me), before - touched, vm);
          return Returned(vm), touched, replacements;
        }
        var next := Replace(vm, cloned, replacements == 0, me, existing, fresh2);
        if next.Threw? { return; }
        vm := next.value;
        Replaced(Held(owners, me), before, touched, vm);
        touched := touched + {vm};
        replacements := replacements + 1;
        cloned := true;
      }
    }
  }
}
