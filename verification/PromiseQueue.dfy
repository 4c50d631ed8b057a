/**
 The promise chains that queue work (workspaceCheckpoints.ts, and the lock of fleet.ts): every submission is
 chained behind the promise found in a map, and a map entry is deleted when the promise it holds has settled.

 Promise reactions run later than the event that causes them, so submitting, starting, settling and clearing
 are separate steps, interleaved in any way. The lock of fleet.ts is the case of one key and no clearing.
 */
module PromiseQueue {
  import opened Options

  datatype Phase = Waiting | Running | Settled(failed: bool)

  /** A chained operation and the promise it was chained behind. */
  datatype Operation = Operation(key: string, previous: Option<nat>, phase: Phase, cleared: bool)

  /** All operations in order of submission, and the map from keys to the last promise of their chain. */
  datatype Chains = Chains(operations: seq<Operation>, queues: map<string, nat>)

  datatype Step =
    | Submit(key: string)
    | Start(i: nat)
    | Settle(i: nat, failed: bool)
    | Clear(i: nat)

  const EMPTY := Chains([], map[])

  /** The promise an operation waits for has settled, whether or not it failed. */
  predicate Ready(c: Chains, i: nat)
    requires i < |c.operations|
  {
    var p := c.operations[i].previous;
    p.Some? ==> p.value < |c.operations| && c.operations[p.value].phase.Settled?
  }

  function Next(c: Chains, s: Step): Chains {
    match s
    case Submit(key) =>
      var previous := if key in c.queues then Some(c.queues[key]) else None;
      Chains(c.operations + [Operation(key, previous, Waiting, false)], c.queues[key := |c.operations|])
    case Start(i) =>
      if i < |c.operations| && c.operations[i].phase == Waiting && Ready(c, i) then
        c.(operations := c.operations[i := c.operations[i].(phase := Running)])
      else c
    case Settle(i, failed) =>
      if i < |c.operations| && c.operations[i].phase == Running then
        c.(operations := c.operations[i := c.operations[i].(phase := Settled(failed))])
      else c
    case Clear(i) =>
      if i < |c.operations| && c.operations[i].phase.Settled? && !c.operations[i].cleared then
        var o := c.operations[i];
        Chains(c.operations[i := o.(cleared := true)],
               if o.key in c.queues && c.queues[o.key] == i then c.queues - {o.key} else c.queues)
      else c
  }

  function After(steps: seq<Step>): Chains {
    if steps == [] then EMPTY else Next(After(steps[..|steps| - 1]), steps[|steps| - 1])
  }

  // ---------------------------------------------------------------- what every step keeps

  predicate Earlier(c: Chains, i: nat, j: nat)
    requires j < |c.operations|
  {
    i < j && c.operations[i].key == c.operations[j].key
  }

  /** A map entry is the last operation of its key, and a key with work that is not over has an entry. */
  predicate Mapped(c: Chains) {
    && (forall k | k in c.queues :: c.queues[k] < |c.operations| && c.operations[c.queues[k]].key == k)
    && (forall k, j | k in c.queues && c.queues[k] < j < |c.operations| :: c.operations[j].key != k)
    && (forall i | 0 <= i < |c.operations| && !c.operations[i].phase.Settled? :: c.operations[i].key in c.queues)
  }

  /** Every operation waits for the one submitted just before it, unless all earlier ones are over. */
  predicate Chained(c: Chains) {
    forall i, j | 0 <= i < j < |c.operations| && Earlier(c, i, j) :: LinkedUp(c, i, j)
  }

  predicate LinkedUp(c: Chains, i: nat, j: nat)
    requires i < |c.operations| && j < |c.operations|
  {
    match c.operations[j].previous
    case None => c.operations[i].phase.Settled?
    case Some(p) => i <= p < j && c.operations[p].key == c.operations[j].key
  }

  /** An operation starts only when all earlier ones of its key are over, so at most one runs at a time. */
  predicate FirstInFirstOut(c: Chains) {
    forall i, j | 0 <= i < j < |c.operations| && Earlier(c, i, j) && c.operations[j].phase != Waiting ::
      c.operations[i].phase.Settled?
  }

  predicate Fair(c: Chains) { Mapped(c) && Chained(c) && FirstInFirstOut(c) }

  lemma TailIsLast(c: Chains, i: nat, j: nat)
    requires Fair(c) && i < |c.operations| && j < |c.operations| && c.operations[j].key == c.operations[i].key
    requires c.operations[i].key in c.queues && c.queues[c.operations[i].key] == i && c.operations[i].phase.Settled?
    ensures j <= i && c.operations[j].phase.Settled?
  {
    if j < i { assert Earlier(c, j, i); }
  }

  lemma ClearKeepsMapped(c: Chains, i: nat)
    requires Fair(c)
    ensures Mapped(Next(c, Clear(i)))
  {
    var d := Next(c, Clear(i));
    forall j | 0 <= j < |d.operations| && !d.operations[j].phase.Settled? ensures d.operations[j].key in d.queues {
      assert d.operations[j].key == c.operations[j].key && !c.operations[j].phase.Settled?;
      if d != c && c.operations[j].key == c.operations[i].key && c.queues[c.operations[i].key] == i {
        TailIsLast(c, i, j);
      }
    }
  }

  lemma MappedKept(c: Chains, s: Step)
    requires Fair(c)
    ensures Mapped(Next(c, s))
  {
    match s {
      case Clear(i) => ClearKeepsMapped(c, i);
      case Submit(key) =>
      case _ => PhaseKeepsMapped(c, s);
    }
  }

  lemma PhaseKeepsMapped(c: Chains, s: Step)
    requires Mapped(c) && (s.Start? || s.Settle?)
    ensures Mapped(Next(c, s))
  {
    var d := Next(c, s);
    assert d.queues == c.queues && |d.operations| == |c.operations|;
    forall i | 0 <= i < |d.operations|
      ensures d.operations[i].key == c.operations[i].key
      ensures c.operations[i].phase.Settled? ==> d.operations[i].phase.Settled?
    {}
  }

  lemma ChainedKept(c: Chains, s: Step)
    requires Mapped(c) && Chained(c)
    ensures Chained(Next(c, s))
  {
    var d := Next(c, s);
    forall i, j | 0 <= i < j < |d.operations| && Earlier(d, i, j) ensures LinkedUp(d, i, j) {
      if j < |c.operations| { assert Earlier(c, i, j) && LinkedUp(c, i, j); }
    }
  }

  lemma FirstInFirstOutKept(c: Chains, s: Step)
    requires Fair(c)
    ensures FirstInFirstOut(Next(c, s))
  {
    var d := Next(c, s);
    forall i, j | 0 <= i < j < |d.operations| && Earlier(d, i, j) && d.operations[j].phase != Waiting
      ensures d.operations[i].phase.Settled?
    {
      assert j < |c.operations| && Earlier(c, i, j) && LinkedUp(c, i, j);
      var p := c.operations[j].previous;
      if p.Some? && i < p.value { assert Earlier(c, i, p.value); }
    }
  }

  lemma {:induction false} AlwaysFair(steps: seq<Step>)
    ensures Fair(After(steps))
  {
    if steps != [] {
      var c, s := After(steps[..|steps| - 1]), steps[|steps| - 1];
      AlwaysFair(steps[..|steps| - 1]);
      MappedKept(c, s);
      ChainedKept(c, s);
      FirstInFirstOutKept(c, s);
      assert After(steps) == Next(c, s);
    }
  }

  // ---------------------------------------------------------------- over every run

  /** Work of one key runs one at a time in submission order, also when work fails: at any time the operations
      of a key are some settled ones, then at most one running, then waiting ones. */
  lemma OneAtATimeInOrder(steps: seq<Step>, i: nat, j: nat)
    requires i < j < |After(steps).operations| && After(steps).operations[i].key == After(steps).operations[j].key
    ensures After(steps).operations[i].phase.Settled? || After(steps).operations[j].phase == Waiting
  {
    AlwaysFair(steps);
    assert Earlier(After(steps), i, j);
  }

  /** An entry disappears only when its own operation, the last of the key, is over; so is then all earlier
      work of the key, and a later submission skips nothing. */
  lemma RemovedByItsTail(steps: seq<Step>, s: Step, key: string)
    requires key in After(steps).queues && key !in Next(After(steps), s).queues
    ensures s == Clear(After(steps).queues[key])
    ensures forall i | 0 <= i < |After(steps).operations| && After(steps).operations[i].key == key ::
      After(steps).operations[i].phase.Settled? && i <= After(steps).queues[key]
  {
    AlwaysFair(steps);
    var c := After(steps);
    forall i | 0 <= i < |c.operations| && c.operations[i].key == key
      ensures c.operations[i].phase.Settled? && i <= c.queues[key]
    {
      if i < c.queues[key] { assert Earlier(c, i, c.queues[key]); }
    }
  }

  /** Nothing is forgotten: as long as a key has work that is not over, its first such operation is running or
      free to start. */
  lemma {:induction false} NeverStuck(steps: seq<Step>, i: nat)
    requires i < |After(steps).operations| && !After(steps).operations[i].phase.Settled?
    ensures exists j | 0 <= j <= i ::
      && After(steps).operations[j].key == After(steps).operations[i].key
      && (After(steps).operations[j].phase == Running
          || (After(steps).operations[j].phase == Waiting && Ready(After(steps), j)))
    decreases i
  {
    AlwaysFair(steps);
    var c := After(steps);
    if c.operations[i].phase == Waiting && !Ready(c, i) {
      var p := c.operations[i].previous.value;
      PreviousIsEarlier(steps);
      NeverStuck(steps, p);
    }
  }

  predicate BackLinks(c: Chains) {
    forall i | 0 <= i < |c.operations| && c.operations[i].previous.Some? ::
      c.operations[i].previous.value < i && Earlier(c, c.operations[i].previous.value, i)
  }

  lemma BackLinksKept(c: Chains, s: Step)
    requires Mapped(c) && BackLinks(c)
    ensures BackLinks(Next(c, s))
  {}

  lemma {:induction false} PreviousIsEarlier(steps: seq<Step>)
    ensures BackLinks(After(steps))
  {
    if steps != [] {
      var before := steps[..|steps| - 1];
      PreviousIsEarlier(before);
      AlwaysFair(before);
      BackLinksKept(After(before), steps[|before|]);
      assert After(steps) == Next(After(before), steps[|before|]);
    }
  }

  /** Without clearing, and with one key, every submission waits for the one before it: the lock of fleet.ts. */
  predicate LockSteps(steps: seq<Step>, key: string) {
    forall i | 0 <= i < |steps| :: !steps[i].Clear? && (steps[i].Submit? ==> steps[i].key == key)
  }

  /** One chain, each operation behind the one before it, and the map holding the last. */
  predicate OneChain(c: Chains, key: string) {
    && (forall i | 0 <= i < |c.operations| :: c.operations[i].key == key)
    && (forall i | 0 < i < |c.operations| :: c.operations[i].previous == Some(i - 1))
    && c.queues == if c.operations == [] then map[] else map[key := |c.operations| - 1]
  }

  lemma NextOneChain(c: Chains, s: Step, key: string)
    requires OneChain(c, key) && !s.Clear? && (s.Submit? ==> s.key == key)
    ensures OneChain(Next(c, s), key)
  {}

  lemma {:induction false} LockChain(steps: seq<Step>, key: string)
    requires LockSteps(steps, key)
    ensures OneChain(After(steps), key)
  {
    if steps != [] {
      LockChain(steps[..|steps| - 1], key);
      NextOneChain(After(steps[..|steps| - 1]), steps[|steps| - 1], key);
    }
  }

  /** At most one section under the lock runs at a time, and all sections before it are over. */
  lemma OneSectionAtATime(steps: seq<Step>, key: string, i: nat, j: nat)
    requires LockSteps(steps, key) && i < |After(steps).operations| && j < |After(steps).operations| && i != j
    requires After(steps).operations[j].phase == Running
    ensures After(steps).operations[i].phase.Settled? <==> i < j
    ensures After(steps).operations[i].phase != Running
  {
    LockChain(steps, key);
    if i < j { OneAtATimeInOrder(steps, i, j); } else { OneAtATimeInOrder(steps, j, i); }
  }

  // ---------------------------------------------------------------- the queue itself

  lemma NextFair(c: Chains, s: Step)
    requires Fair(c) && BackLinks(c)
    ensures Fair(Next(c, s)) && BackLinks(Next(c, s))
  {
    MappedKept(c, s);
    ChainedKept(c, s);
    FirstInFirstOutKept(c, s);
    BackLinksKept(c, s);
  }

  /** A waiting operation may start exactly when all earlier work of its key is over. */
  lemma {:induction false} ReadyMeansFirst(c: Chains, j: nat)
    requires Fair(c) && BackLinks(c) && j < |c.operations|
    ensures Ready(c, j) <==> EarlierOver(c, j)
  {
    var p := c.operations[j].previous;
    if p.Some? {
      assert Earlier(c, p.value, j);
      forall i | 0 <= i < j && Earlier(c, i, j) && Ready(c, j) ensures c.operations[i].phase.Settled? {
        assert LinkedUp(c, i, j);
        if i < p.value { assert Earlier(c, i, p.value); }
      }
    } else {
      forall i | 0 <= i < j && Earlier(c, i, j) ensures c.operations[i].phase.Settled? { assert LinkedUp(c, i, j); }
    }
  }

  predicate EarlierOver(c: Chains, j: nat)
    requires j < |c.operations|
  {
    forall i | 0 <= i < j && Earlier(c, i, j) :: c.operations[i].phase.Settled?
  }

  class CheckpointQueue {
    var queues: map<string, nat>
    var operations: seq<Operation>

    constructor ()
      ensures Valid() && Model() == EMPTY
    {
      queues, operations := map[], [];
    }

    ghost function Model(): Chains
      reads this
    {
      Chains(operations, queues)
    }

    ghost predicate Valid()
      reads this
    {
      Fair(Model()) && BackLinks(Model())
    }

    /** A submission waits for all earlier work of its key and for nothing else. */
    method RunWorkspaceCheckpoint(key: string) returns (operation: nat)
      requires Valid()
      modifies this
      ensures Valid() && Model() == Next(old(Model()), Submit(key)) && operation == old(|operations|)
      ensures operations[operation].phase == Waiting
      ensures Ready(Model(), operation) <==> EarlierOver(Model(), operation)
    {
      NextFair(Model(), Submit(key));
      var previous := if key in queues then Some(queues[key]) else None;
      operation := |operations|;
      operations := operations + [Operation(key, previous, Waiting, false)];
      queues := queues[key := operation];
      ReadyMeansFirst(Model(), operation);
    }

    /** When work starts, no other work of its key runs, and all that was submitted before it is over. */
    method StartWork(i: nat)
      requires Valid() && i < |operations| && operations[i].phase == Waiting && Ready(Model(), i)
      modifies this
      ensures Valid() && Model() == Next(old(Model()), Start(i)) && EarlierOver(Model(), i)
      ensures forall j | 0 <= j < |operations| && j != i && operations[j].key == operations[i].key ::
        operations[j].phase != Running
    {
      NextFair(Model(), Start(i));
      operations := operations[i := operations[i].(phase := Running)];
      forall j | 0 <= j < |operations| && j != i && operations[j].key == operations[i].key
        ensures operations[j].phase != Running && (j < i ==> operations[j].phase.Settled?)
      {
        assert if j < i then Earlier(Model(), j, i) else Earlier(Model(), i, j);
      }
    }

    method Resolve(i: nat, failed: bool)
      requires Valid() && i < |operations| && operations[i].phase == Running
      modifies this
      ensures Valid() && Model() == Next(old(Model()), Settle(i, failed))
    {
      NextFair(Model(), Settle(i, failed));
      operations := operations[i := operations[i].(phase := Settled(failed))];
    }

    /** Clearing an operation drops its key only when nothing of the key is unfinished, and no other key at all. */
    method ClearEntry(i: nat)
      requires Valid() && i < |operations| && operations[i].phase.Settled? && !operations[i].cleared
      modifies this
      ensures Valid() && Model() == Next(old(Model()), Clear(i))
      ensures forall j | 0 <= j < |operations| && !operations[j].phase.Settled? :: operations[j].key in queues
      ensures forall k | k != operations[i].key :: k in queues <==> k in old(queues)
      ensures forall k | k in queues :: k in old(queues) && queues[k] == old(queues)[k]
    {
      NextFair(Model(), Clear(i));
      var key := operations[i].key;
      operations := operations[i := operations[i].(cleared := true)];
      if key in queues && queues[key] == i { queues := queues - {key}; }
    }
  }
}
