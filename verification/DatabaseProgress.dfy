/**
 Progress of the brokered SQLite protocol: nobody waits forever behind leases that keep being given up,
 and well-behaved workers never deadlock.
 */
module DatabaseProgress {
  import opened Options
  import opened DatabaseCoordinator

  /** Closed brokers own nothing: neither a connection nor a queued request. */
  ghost predicate Live(d: Db) {
    && (forall c | c in d.connections :: c.broker !in d.closed)
    && (forall r | r in d.pending && r.Worker? :: r.broker !in d.closed)
    && (!d.present ==> d.pending == [])
  }

  /** How many queued requests are older than `a`. */
  function Ahead(p: seq<Request>, a: nat): nat {
    if p == [] then 0 else (if p[0].arrival < a then 1 else 0) + Ahead(p[1..], a)
  }

  /** `q` is what is left of the queue `p`. */
  ghost predicate LeftOf(q: seq<Request>, p: seq<Request>) {
    && (forall r | r in q :: r in p)
    && (forall a: nat :: Ahead(q, a) <= Ahead(p, a))
  }

  // ---------------------------------------------------------------- what a step leaves of the queue

  lemma {:induction false} WithoutLeft(p: seq<Request>, b: nat)
    ensures LeftOf(Without(p, b), p)
  {
    SplitQueue(p, b);
    if p != [] {
      WithoutLeft(p[1..], b);
      assert ([p[0]] + Without(p[1..], b))[1..] == Without(p[1..], b);
    }
  }

  lemma {:induction false} UnregisteredLeft(d: Db, b: nat)
    requires Live(d)
    ensures var e := Unregistered(d, b); LeftOf(e.pending, d.pending) && Live(e)
  {
    WithoutLeft(d.pending, b);
    SplitQueue(d.pending, b);
  }

  lemma {:induction false} CloseAllLeft(d: Db, closes: seq<nat>)
    requires Live(d)
    ensures var e := CloseAll(d, closes);
      LeftOf(e.pending, d.pending) && Live(e) && e.arrivals == d.arrivals
        && e.draining == d.draining && (d.draining ==> e.present == d.present) && (d.owner.None? ==> e.owner.None?)
    decreases |closes|
  {
    if closes != [] {
      UnregisteredLeft(d, closes[0]);
      CloseAllLeft(CloseQuietly(d, closes[0]), closes[1..]);
    }
  }

  lemma {:induction false} RunQueuedLeft(d: Db, r: Request)
    requires Live(d) && d.draining && d.present && (r.Worker? ==> r.broker !in d.closed)
    ensures var e := RunQueued(d, r);
      LeftOf(e.pending, d.pending) && Live(e) && e.arrivals == d.arrivals && e.draining && e.present
        && (d.owner.None? && e.owner.Some? ==> e.owner == Caller(r))
  {
    if r.Host? {
      CloseAllLeft(d.(journal := d.journal + [Ran(r, true)]), r.closes);
    } else {
      StatementFrame(d, r);
    }
  }

  /** A drain runs at least the request at the head of the queue. */
  lemma {:induction false} DrainedLeft(d: Db)
    requires Live(d) && d.draining && d.present
    ensures Live(Drained(d)) && Drained(d).present && Drained(d).arrivals == d.arrivals
    ensures LeftOf(Drained(d).pending, d.pending)
    ensures d.owner.None? && d.pending != [] ==> LeftOf(Drained(d).pending, d.pending[1..])
    decreases |d.pending|
  {
    if d.owner.None? && d.pending != [] {
      var r, rest := d.pending[0], d.(pending := d.pending[1..]);
      RunQueuedLeft(rest, r);
      DrainedLeft(RunQueued(rest, r));
    }
  }

  lemma {:induction false} DrainLeft(d: Db)
    requires Live(d) && !d.draining && d.present
    ensures Live(Drain(d)) && Drain(d).arrivals == d.arrivals
    ensures LeftOf(Drain(d).pending, d.pending)
    ensures d.owner.None? && d.pending != [] ==> LeftOf(Drain(d).pending, d.pending[1..])
  {
    DrainedLeft(d.(draining := true));
  }

  lemma {:induction false} WithoutTail(p: seq<Request>, b: nat)
    requires p != [] && Without(p, b) != []
    ensures LeftOf(Without(p, b)[1..], p[1..])
  {
    WithoutLeft(p[1..], b);
    assert ([p[0]] + Without(p[1..], b))[1..] == Without(p[1..], b);
  }

  /** The owner's worker commits, rolls back, closes its connection, or exits. */
  predicate Releasing(d: Db, s: Step) {
    d.owner.Some? && match s
      case Exit(b) => b == d.owner.value.broker
      case Ask(b, c, statement, accepted) =>
        c.Some? && Connection(b, c.value) == d.owner.value && accepted && (statement.End? || statement.Close?)
      case HostOperation(_) => false
  }

  /** A step adds at most the request that just arrived; a release takes the head off the queue. */
  ghost predicate Shrinks(d: Db, e: Db, s: Step) {
    && Live(e)
    && e.arrivals == d.arrivals + (if s.Exit? then 0 else 1)
    && (forall r | r in e.pending :: r in d.pending || (r.arrival == d.arrivals && !Releasing(d, s)))
    && (forall a: nat | a < d.arrivals :: Ahead(e.pending, a) <= Ahead(d.pending, a))
    && (Releasing(d, s) && d.pending != [] ==> LeftOf(e.pending, d.pending[1..]))
  }

  lemma {:induction false} AppendAhead(p: seq<Request>, r: Request, a: nat)
    ensures Ahead(p + [r], a) == Ahead(p, a) + (if r.arrival < a then 1 else 0)
  {
    if p != [] {
      assert (p + [r])[1..] == p[1..] + [r];
      AppendAhead(p[1..], r, a);
    }
  }

  lemma {:induction false} QueueingShrinks(d: Db, e: Db, r: Request, s: Step)
    requires Live(d) && !s.Exit? && r.arrival == d.arrivals && !Releasing(d, s) && (r.Worker? ==> r.broker !in d.closed)
    requires e == d.(arrivals := d.arrivals + 1, present := true, pending := d.pending + [r])
    ensures Shrinks(d, e, s)
  {
    forall a: nat | a < d.arrivals ensures Ahead(e.pending, a) <= Ahead(d.pending, a) { AppendAhead(d.pending, r, a); }
  }

  lemma {:induction false} RejectionShrinks(d: Db, e: Db, s: Step)
    requires Live(d) && s.Ask? && s.broker in d.closed && (d.owner.Some? ==> d.owner.value in d.connections)
    requires e == d.(arrivals := d.arrivals + 1, journal := e.journal)
    ensures Shrinks(d, e, s)
  {}

  lemma {:induction false} StatementLive(d: Db, r: Request)
    requires Live(d) && r.Worker? && r.broker !in d.closed && (d.owner.Some? ==> d.owner == Caller(r))
    ensures Live(RunStatement(d, r))
    ensures RunStatement(d, r).owner.None? <==>
      if Perform(d, r).1 && r.statement.Begin? then Caller(r).None?
      else d.owner.None? || (Perform(d, r).1 && (r.statement.End? || r.statement.Close?))
  {}

  lemma {:induction false} ExecuteShrinks(d: Db, f: Db, r: Request, s: Step)
    requires Good(d) && Quiet(d) && Live(d) && s.Ask?
    requires r == Worker(d.arrivals, s.broker, s.connection, s.statement, s.accepted) && r.broker !in d.closed
    requires d.owner.Some? ==> d.owner == Caller(r)
    requires f == d.(arrivals := d.arrivals + 1, present := true)
    ensures Shrinks(d, Settle(Execute(f, r)), s)
  {
    var g := RunStatement(f, r);
    StatementFrame(f, r);
    StatementLive(f, r);
    if f.owner.Some? && g.owner.None? { DrainLeft(g); }
  }

  lemma {:induction false} AskShrinks(d: Db, s: Step)
    requires Good(d) && Quiet(d) && Live(d) && s.Ask?
    ensures Shrinks(d, Next(d, s), s)
  {
    var r := Worker(d.arrivals, s.broker, s.connection, s.statement, s.accepted);
    HandleCases(d, r);
    if s.broker in d.closed {
      RejectionShrinks(d, Next(d, s), s);
    } else if d.owner.Some? && d.owner != Caller(r) {
      QueueingShrinks(d, Next(d, s), r, s);
    } else {
      ExecuteShrinks(d, d.(arrivals := d.arrivals + 1, present := true), r, s);
    }
  }

  lemma {:induction false} ExitShrinks(d: Db, b: nat)
    requires Good(d) && Quiet(d) && Live(d)
    ensures Shrinks(d, CloseBroker(d, b), Exit(b))
  {
    if b !in d.closed {
      var e := Unregistered(d, b);
      UnregisteredLeft(d, b);
      if e.present {
        DrainLeft(e);
        if e.pending != [] { WithoutTail(d.pending, b); }
      }
    }
  }

  lemma {:induction false} NextShrinks(d: Db, s: Step)
    requires Good(d) && Quiet(d) && Live(d)
    ensures Shrinks(d, Next(d, s), s)
  {
    match s
    case Ask(_, _, _, _) => AskShrinks(d, s);
    case HostOperation(closes) =>
      var r := Host(d.arrivals, closes);
      if d.owner.Some? {
        QueueingShrinks(d, Next(d, s), r, s);
      } else {
        CloseAllLeft(d.(arrivals := d.arrivals + 1, present := true, journal := d.journal + [Ran(r, true)]), closes);
      }
    case Exit(b) => ExitShrinks(d, b);
  }

  // ---------------------------------------------------------------- bounded waiting

  lemma {:induction false} AlwaysLive(steps: seq<Step>)
    ensures Live(After(steps)) && Good(After(steps)) && Quiet(After(steps))
  {
    AlwaysGood(steps);
    if steps != [] {
      AlwaysLive(steps[..|steps| - 1]);
      NextShrinks(After(steps[..|steps| - 1]), steps[|steps| - 1]);
    }
  }

  /** How often a lease is given up while `more` follows `steps`. */
  function Releases(steps: seq<Step>, more: seq<Step>): nat
    decreases |more|
  {
    if more == [] then 0 else
    (if Releasing(After(steps), more[0]) then 1 else 0) + Releases(steps + [more[0]], more[1..])
  }

  lemma {:induction false} AnsweredForGood(steps: seq<Step>, s: Step, a: nat)
    requires a < After(steps).arrivals && Queued(After(steps).pending, a) == 0
    ensures Queued(After(steps + [s]).pending, a) == 0 && a < After(steps + [s]).arrivals
  {
    var d := After(steps);
    AlwaysLive(steps);
    AlwaysLive(steps + [s]);
    assert (steps + [s])[..|steps|] == steps;
    NextShrinks(d, s);
    QueuedMember(d.pending, a);
    QueuedMember(Next(d, s).pending, a);
  }

  /** While a request goes on waiting, every release leaves fewer older requests in front of it. */
  lemma {:induction false} CloserToTheHead(steps: seq<Step>, s: Step, a: nat)
    requires a < After(steps).arrivals && Queued(After(steps).pending, a) > 0
    ensures var d, e := After(steps), After(steps + [s]);
      && a < e.arrivals
      && (Queued(e.pending, a) > 0 ==>
            Ahead(e.pending, a) + (if Releasing(d, s) then 1 else 0) <= Ahead(d.pending, a))
  {
    var d := After(steps);
    assert (steps + [s])[..|steps|] == steps;
    AlwaysLive(steps);
    NextShrinks(d, s);
    QueuedMember(d.pending, a);
    QueuedMember(Next(d, s).pending, a);
    if Queued(Next(d, s).pending, a) > 0 && Releasing(d, s) { assert d.pending[0].arrival < a; }
  }

  /** No request starves: once leases have been given up more often than there were older requests in front
      of it, a queued request has been answered, whatever else happened in between. */
  lemma {:induction false} BoundedWait(steps: seq<Step>, more: seq<Step>, a: nat)
    requires a < After(steps).arrivals
    requires Queued(After(steps).pending, a) > 0 ==> Releases(steps, more) > Ahead(After(steps).pending, a)
    ensures Answers(After(steps + more).journal, a) == 1
    decreases |more|
  {
    if more == [] {
      assert steps + more == steps;
      Conservation(steps, a);
    } else {
      assert steps + more == (steps + [more[0]]) + more[1..];
      if Queued(After(steps).pending, a) == 0 {
        AnsweredForGood(steps, more[0], a);
      } else {
        CloserToTheHead(steps, more[0], a);
      }
      BoundedWait(steps + [more[0]], more[1..], a);
    }
  }

  // ---------------------------------------------------------------- deadlock freedom

  predicate Blocked(d: Db, b: nat) { exists r :: r in d.pending && FromBroker(r, b) }

  /** A worker blocks on its one outstanding request, and inside a transaction uses only that connection. */
  predicate Permitted(d: Db, s: Step) {
    s.Ask? ==> (
      && !Blocked(d, s.broker)
      && (d.owner.Some? && d.owner.value.broker == s.broker ==> s.connection == Some(d.owner.value.id)))
  }

  ghost predicate Disciplined(steps: seq<Step>) {
    forall n | 0 <= n < |steps| :: Permitted(After(steps[..n]), steps[n])
  }

  /** No worker waits twice, and the worker that holds the lease does not wait at all. */
  ghost predicate Unblocked(d: Db) {
    && (forall r, s | r in d.pending && s in d.pending && r.Worker? && s.Worker? && r.broker == s.broker :: r == s)
    && (d.owner.Some? ==> forall r | r in d.pending && r.Worker? :: r.broker != d.owner.value.broker)
  }

  lemma {:induction false} DrainedUnblocked(d: Db)
    requires Good(d) && Live(d) && Unblocked(d) && d.draining && d.present
    ensures Unblocked(Drained(d))
    decreases |d.pending|
  {
    if d.owner.None? && d.pending != [] {
      var r, rest := d.pending[0], d.(pending := d.pending[1..]);
      if r.Host? { QueuedHostKeeps(d, rest, r); } else { QueuedStatementKeeps(d, rest, r); }
      RunQueuedLeft(rest, r);
      assert forall q | q in rest.pending :: q in d.pending && q.arrival > r.arrival;
      DrainedUnblocked(RunQueued(rest, r));
    }
  }

  lemma {:induction false} ExecuteUnblocked(d: Db, f: Db, r: Request)
    requires Good(d) && Quiet(d) && Live(d) && Unblocked(d)
    requires r.Worker? && r.arrival == d.arrivals && !Blocked(d, r.broker) && r.broker !in d.closed
    requires d.owner.None? || d.owner == Caller(r)
    requires f == d.(arrivals := d.arrivals + 1, present := true)
    ensures Unblocked(Settle(Execute(f, r)))
  {
    var g := RunStatement(f, r);
    StatementFrame(f, r);
    StatementLive(f, r);
    if f.owner.Some? && g.owner.None? {
      DirectKeeps(d, f, r);
      DrainedUnblocked(g.(draining := true));
    }
  }

  lemma {:induction false} AskUnblocked(d: Db, s: Step)
    requires Good(d) && Quiet(d) && Live(d) && Unblocked(d) && s.Ask? && Permitted(d, s)
    ensures Unblocked(Next(d, s))
  {
    var r := Worker(d.arrivals, s.broker, s.connection, s.statement, s.accepted);
    HandleCases(d, r);
    if s.broker !in d.closed && (d.owner.None? || d.owner == Caller(r)) {
      ExecuteUnblocked(d, d.(arrivals := d.arrivals + 1, present := true), r);
    }
  }

  lemma {:induction false} HostUnblocked(d: Db, closes: seq<nat>)
    requires Good(d) && Quiet(d) && Live(d) && Unblocked(d)
    ensures Unblocked(Next(d, HostOperation(closes)))
  {
    if d.owner.None? {
      CloseAllLeft(d.(arrivals := d.arrivals + 1, present := true,
                      journal := d.journal + [Ran(Host(d.arrivals, closes), true)]), closes);
    }
  }

  lemma {:induction false} ExitUnblocked(d: Db, b: nat)
    requires Good(d) && Quiet(d) && Live(d) && Unblocked(d)
    ensures Unblocked(Next(d, Exit(b)))
  {
    if b !in d.closed && d.present {
      UnregisteredKeeps(d, b);
      UnregisteredLeft(d, b);
      DrainedUnblocked(Unregistered(d, b).(draining := true));
    }
  }

  lemma {:induction false} NextUnblocked(d: Db, s: Step)
    requires Good(d) && Quiet(d) && Live(d) && Unblocked(d) && Permitted(d, s)
    ensures Unblocked(Next(d, s))
  {
    match s
    case Ask(_, _, _, _) => AskUnblocked(d, s);
    case HostOperation(closes) => HostUnblocked(d, closes);
    case Exit(b) => ExitUnblocked(d, b);
  }

  lemma {:induction false} AlwaysUnblocked(steps: seq<Step>)
    requires Disciplined(steps)
    ensures Unblocked(After(steps))
  {
    if steps != [] {
      var before := steps[..|steps| - 1];
      assert forall n | 0 <= n < |before| :: before[..n] == steps[..n];
      AlwaysUnblocked(before);
      AlwaysLive(before);
      NextUnblocked(After(before), steps[|steps| - 1]);
    }
  }

  lemma {:induction false} OwnerAnsweredAtOnce(d: Db, s: Step)
    requires Good(d) && Quiet(d) && Live(d) && d.owner.Some?
    requires s.Ask? && s.broker == d.owner.value.broker && s.connection == Some(d.owner.value.id)
    ensures Answers(Next(d, s).journal, d.arrivals) == 1
  {
    var r := Worker(d.arrivals, s.broker, s.connection, s.statement, s.accepted);
    var f := d.(arrivals := d.arrivals + 1, present := true);
    StatementFrame(f, r);
    assert Next(d, s) == Settle(Execute(f, r));
    NextKeeps(d, s);
    NextShrinks(d, s);
    QueuedMember(Next(d, s).pending, d.arrivals);
  }

  /** Deadlock freedom for disciplined workers. Whenever requests are queued there is an owner whose own worker
      is free to act; whatever statement it sends next on its connection is answered at once; and when that
      gives the lease up (or the worker exits) the head of the queue is answered in the same turn, and the
      queue goes on draining until someone owns the lease or nobody waits. */
  lemma {:induction false} NoDeadlock(steps: seq<Step>, statement: Statement, accepted: bool)
    requires Disciplined(steps) && After(steps).pending != []
    ensures var d := After(steps); d.owner.Some? && !Blocked(d, d.owner.value.broker)
    ensures var d := After(steps);
      var e := Next(d, Ask(d.owner.value.broker, Some(d.owner.value.id), statement, accepted));
      Answers(e.journal, d.arrivals) == 1
    ensures var d := After(steps);
      forall s | Releasing(d, s) ::
        var e := Next(d, s); Answers(e.journal, d.pending[0].arrival) == 1 && (e.owner.None? ==> e.pending == [])
  {
    var d := After(steps);
    AlwaysLive(steps);
    AlwaysUnblocked(steps);
    var ask := Ask(d.owner.value.broker, Some(d.owner.value.id), statement, accepted);
    OwnerAnsweredAtOnce(d, ask);
    forall s | Releasing(d, s)
      ensures var e := Next(d, s); Answers(e.journal, d.pending[0].arrival) == 1 && (e.owner.None? ==> e.pending == [])
    {
      NextKeeps(d, s);
      NextShrinks(d, s);
      QueuedMember(Next(d, s).pending, d.pending[0].arrival);
      assert (steps + [s])[..|steps|] == steps;
    }
  }
}
