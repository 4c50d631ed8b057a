/**
 The brokered SQLite protocol of workerDatabaseBroker.ts, for one database key.

 Workers hand statements to their broker; the coordinator runs them at once, or queues them behind
 the connection that holds an explicit transaction. `Db` is the whole state the host event loop keeps
 for the key, `journal` records every effect visible outside (statements run, requests rejected,
 brokers exited), and `After` is the state after an arbitrary interleaving of worker requests, host
 operations and broker exits.
 */
module DatabaseCoordinator {
  import opened Options

  datatype Connection = Connection(broker: nat, id: nat)

  /** What a request asks for. `Other` is every exec, all, get or run that is no transaction boundary. */
  datatype Statement = Open(allowed: bool) | Begin | End | Other | Close

  /** `arrival` numbers the requests in the order the host received them. `accepted` is SQLite's verdict,
      should the request get that far; `closes` lists the brokers a host operation closes while it starts. */
  datatype Request =
    | Worker(arrival: nat, broker: nat, connection: Option<nat>, statement: Statement, accepted: bool)
    | Host(arrival: nat, closes: seq<nat>)

  datatype Event = Ran(request: Request, ok: bool) | Rejected(request: Request) | Exited(broker: nat)

  datatype Db = Db(
    present: bool,                // the coordinator's map has an entry for the key
    owner: Option<Connection>,
    pending: seq<Request>,
    draining: bool,
    connections: set<Connection>, // open SQLite connections of all brokers
    used: map<nat, nat>,        // connection ids each broker has used up
    closed: set<nat>,             // brokers that were closed
    journal: seq<Event>,
    arrivals: nat)

  const INITIAL := Db(false, None, [], false, {}, map[], {}, [], 0)

  function Caller(r: Request): Option<Connection> {
    if r.Worker? && r.connection.Some? then Some(Connection(r.broker, r.connection.value)) else None
  }

  // ---------------------------------------------------------------- the steps

  /** The broker's own part of a request: its connection table, and whether the statement succeeded. */
  function Perform(d: Db, r: Request): (Db, bool)
    requires r.Worker?
  {
    if r.statement.Open? then
      if !r.statement.allowed then (d, false) else
      var id := (if r.broker in d.used then d.used[r.broker] else 0) + 1;
      var e := d.(used := d.used[r.broker := id]);
      if r.accepted then (e.(connections := e.connections + {Connection(r.broker, id)}), true) else (e, false)
    else if r.connection.None? || Caller(r).value !in d.connections || !r.accepted then (d, false)
    else if r.statement.Close? then (d.(connections := d.connections - {Caller(r).value}), true)
    else (d, true)
  }

  /** One statement and its effect on the lease: a successful BEGIN takes it, a successful end or close
      by the holder gives it up. */
  function RunStatement(d: Db, r: Request): Db
    requires r.Worker?
  {
    var (e, ok) := Perform(d, r);
    e.(journal := d.journal + [Ran(r, ok)],
       owner := if ok && r.statement.Begin? then Caller(r)
                else if ok && d.owner.Some? && d.owner == Caller(r) && (r.statement.End? || r.statement.Close?)
                then None
                else d.owner)
  }

  predicate FromBroker(r: Request, b: nat) { r.Worker? && r.broker == b }

  function Of(p: seq<Request>, b: nat): seq<Request> {
    if p == [] then [] else if FromBroker(p[0], b) then [p[0]] + Of(p[1..], b) else Of(p[1..], b)
  }

  function Without(p: seq<Request>, b: nat): (q: seq<Request>)
    ensures |q| <= |p|
  {
    if p == [] then [] else if FromBroker(p[0], b) then Without(p[1..], b) else [p[0]] + Without(p[1..], b)
  }

  function Rejections(p: seq<Request>): (j: seq<Event>) {
    if p == [] then [] else [Rejected(p[0])] + Rejections(p[1..])
  }

  /** A broker closes: its connections go, its queued requests are rejected, its lease lapses. */
  function Unregistered(d: Db, b: nat): (e: Db)
    ensures |e.pending| <= |d.pending|
  {
    var e := d.(closed := d.closed + {b},
                connections := (set c | c in d.connections && c.broker != b),
                journal := d.journal + [Exited(b)]);
    if !e.present then e else
    e.(pending := Without(d.pending, b),
       journal := e.journal + Rejections(Of(d.pending, b)),
       owner := if d.owner.Some? && d.owner.value.broker == b then None else d.owner)
  }

  /** The map entry is dropped once it holds neither an owner nor a queue. */
  function Settle(d: Db): Db {
    if d.owner.None? && d.pending == [] then d.(present := false) else d
  }

  /** A close issued while a host operation starts: the drain it asks for finds nothing to do. */
  function CloseQuietly(d: Db, b: nat): (e: Db)
    ensures |e.pending| <= |d.pending|
  {
    if b in d.closed then d else
    var e := Unregistered(d, b);
    if e.draining then e else Settle(e)
  }

  function CloseAll(d: Db, closes: seq<nat>): (e: Db)
    ensures |e.pending| <= |d.pending|
    decreases |closes|
  {
    if closes == [] then d else CloseAll(CloseQuietly(d, closes[0]), closes[1..])
  }

  function RunHost(d: Db, r: Request): (e: Db)
    requires r.Host?
    ensures |e.pending| <= |d.pending|
  {
    CloseAll(d.(journal := d.journal + [Ran(r, true)]), r.closes)
  }

  function RunQueued(d: Db, r: Request): (e: Db)
    ensures |e.pending| <= |d.pending|
  {
    if r.Host? then RunHost(d, r) else RunStatement(d, r)
  }

  /** Queued requests run in order until one of them takes the lease. */
  function Drained(d: Db): Db
    decreases |d.pending|
  {
    if d.owner.Some? || d.pending == [] then d
    else Drained(RunQueued(d.(pending := d.pending[1..]), d.pending[0]))
  }

  function Drain(d: Db): Db {
    if d.draining then d else Settle(Drained(d.(draining := true)).(draining := false))
  }

  function Execute(d: Db, r: Request): Db
    requires r.Worker?
  {
    var e := RunStatement(d, r);
    if d.owner.Some? && e.owner.None? then Drain(e) else e
  }

  function Dispatch(d: Db, r: Request): Db
    requires r.Worker?
  {
    if d.owner.Some? && d.owner != Caller(r) then d.(present := true, pending := d.pending + [r])
    else Settle(Execute(d.(present := true), r))
  }

  function Handle(d: Db, r: Request): Db
    requires r.Worker?
  {
    var e := d.(arrivals := d.arrivals + 1);
    if r.broker in d.closed then e.(journal := d.journal + [Rejected(r)]) else Dispatch(e, r)
  }

  function RunWhenAvailable(d: Db, r: Request): Db
    requires r.Host?
  {
    var e := d.(arrivals := d.arrivals + 1, present := true);
    if d.owner.Some? then e.(pending := d.pending + [r])
    else
      var f := RunHost(e, r);
      if f.pending == [] then f.(present := false) else f
  }

  function CloseBroker(d: Db, b: nat): Db {
    if b in d.closed then d else
    var e := Unregistered(d, b);
    if !e.present then e else Drain(e)
  }

  datatype Step =
    | Ask(broker: nat, connection: Option<nat>, statement: Statement, accepted: bool)
    | HostOperation(closes: seq<nat>)
    | Exit(broker: nat)

  function Next(d: Db, s: Step): Db {
    match s
    case Ask(b, c, statement, accepted) => Handle(d, Worker(d.arrivals, b, c, statement, accepted))
    case HostOperation(closes) => RunWhenAvailable(d, Host(d.arrivals, closes))
    case Exit(b) => CloseBroker(d, b)
  }

  function After(steps: seq<Step>): Db {
    if steps == [] then INITIAL else Next(After(steps[..|steps| - 1]), steps[|steps| - 1])
  }

  // ---------------------------------------------------------------- what the journal means

  /** The connections with an explicit transaction open, as SQLite itself would count them: one joins by
      its own successful BEGIN and leaves by its own successful end or close, or when its broker exits. */
  function OpenTransactions(j: seq<Event>): set<Connection> {
    if j == [] then {} else
    var before := OpenTransactions(j[..|j| - 1]);
    match j[|j| - 1]
    case Rejected(_) => before
    case Exited(b) => set c | c in before && c.broker != b
    case Ran(r, ok) =>
      if Caller(r).None? || !ok then before
      else if r.statement.Begin? then before + {Caller(r).value}
      else if r.statement.End? || r.statement.Close? then before - {Caller(r).value}
      else before
  }

  /** While a transaction is open, only its own connection runs statements and no host operation starts. */
  ghost predicate Serial(j: seq<Event>) {
    forall i, c | 0 <= i < |j| && j[i].Ran? && c in OpenTransactions(j[..i]) :: Caller(j[i].request) == Some(c)
  }

  /** How often request `a` has been answered: it ran, or it was rejected. */
  function Answers(j: seq<Event>, a: nat): nat {
    if j == [] then 0 else
    Answers(j[..|j| - 1], a) + (if !j[|j| - 1].Exited? && j[|j| - 1].request.arrival == a then 1 else 0)
  }

  /** How often request `a` is waiting. */
  function Queued(p: seq<Request>, a: nat): nat {
    if p == [] then 0 else (if p[0].arrival == a then 1 else 0) + Queued(p[1..], a)
  }

  /** Event i belonged to the connection that held the open transaction when it ran. */
  ghost predicate InsideTransaction(j: seq<Event>, i: nat)
    requires i < |j|
  {
    j[i].Ran? && Caller(j[i].request).Some? && Caller(j[i].request).value in OpenTransactions(j[..i])
  }

  /** Every request younger than `a` that already ran did so inside the open transaction. */
  ghost predicate OvertakenFairly(j: seq<Event>, a: nat) {
    forall i | 0 <= i < |j| && j[i].Ran? && j[i].request.arrival > a :: InsideTransaction(j, i)
  }

  // ---------------------------------------------------------------- invariants

  ghost predicate LeaseMatches(d: Db) {
    && OpenTransactions(d.journal) == (if d.owner.Some? then {d.owner.value} else {})
    && Serial(d.journal)
    && (d.owner.Some? ==> d.owner.value in d.connections)
  }

  ghost predicate Conserved(j: seq<Event>, p: seq<Request>, n: nat) {
    forall a: nat :: Answers(j, a) + Queued(p, a) == if a < n then 1 else 0
  }

  ghost predicate Ascending(p: seq<Request>, n: nat) {
    && (forall k | 0 <= k < |p| :: p[k].arrival < n)
    && (forall k, l | 0 <= k < l < |p| :: p[k].arrival < p[l].arrival)
  }

  ghost predicate Known(j: seq<Event>, n: nat) {
    forall i | 0 <= i < |j| && j[i].Ran? :: j[i].request.arrival < n
  }

  /** Whatever ran ahead of an older request, answered since or still queued, ran inside a transaction. */
  ghost predicate Fair(j: seq<Event>, p: seq<Request>) {
    && (forall i | 0 <= i < |j| && j[i].Ran? :: OvertakenFairly(j[..i], j[i].request.arrival))
    && (forall k | 0 <= k < |p| :: OvertakenFairly(j, p[k].arrival))
  }

  ghost predicate Good(d: Db) {
    && LeaseMatches(d)
    && Conserved(d.journal, d.pending, d.arrivals)
    && Ascending(d.pending, d.arrivals)
    && Known(d.journal, d.arrivals)
    && Fair(d.journal, d.pending)
  }

  /** What holds between event-loop turns. */
  ghost predicate Quiet(d: Db) {
    && !d.draining
    && (d.present <==> d.owner.Some? || d.pending != [])
    && (d.owner.None? ==> d.pending == [])
  }

  // ---------------------------------------------------------------- one event

  lemma {:induction false} AppendSerial(j: seq<Event>, e: Event)
    requires Serial(j)
    requires e.Ran? ==> forall c | c in OpenTransactions(j) :: Caller(e.request) == Some(c)
    ensures Serial(j + [e])
  {
    var k := j + [e];
    forall i, c | 0 <= i < |k| && k[i].Ran? && c in OpenTransactions(k[..i])
      ensures Caller(k[i].request) == Some(c)
    {
      assert k[..i] == j[..i];
      assert j[..|j|] == j;
    }
  }

  lemma {:induction false} AppendFairly(j: seq<Event>, e: Event, a: nat)
    requires OvertakenFairly(j, a)
    requires e.Ran? && e.request.arrival > a ==>
      Caller(e.request).Some? && Caller(e.request).value in OpenTransactions(j)
    ensures OvertakenFairly(j + [e], a)
  {
    var k := j + [e];
    forall i | 0 <= i < |k| && k[i].Ran? && k[i].request.arrival > a ensures InsideTransaction(k, i) {
      assert k[..i] == j[..i];
      assert j[..|j|] == j;
      if i < |j| { assert InsideTransaction(j, i); }
    }
  }

  /** Appending an event to a fair journal, when the event is fair to everyone who keeps waiting. */
  lemma {:induction false} AppendFair(j: seq<Event>, p: seq<Request>, e: Event, q: seq<Request>)
    requires Fair(j, p)
    requires forall r | r in q :: r in p
    requires e.Ran? ==> OvertakenFairly(j, e.request.arrival)
    requires e.Ran? ==> forall r | r in q && e.request.arrival > r.arrival ::
               Caller(e.request).Some? && Caller(e.request).value in OpenTransactions(j)
    ensures Fair(j + [e], q)
  {
    var k := j + [e];
    forall i | 0 <= i < |k| && k[i].Ran? ensures OvertakenFairly(k[..i], k[i].request.arrival) {
      assert k[..i] == j[..i];
      assert j[..|j|] == j;
    }
    forall m | 0 <= m < |q| ensures OvertakenFairly(k, q[m].arrival) {
      assert q[m] in q;
      var l :| 0 <= l < |p| && p[l] == q[m];
      AppendFairly(j, e, q[m].arrival);
    }
  }

  lemma AppendAnswer(j: seq<Event>, e: Event, a: nat)
    ensures Answers(j + [e], a) == Answers(j, a) + (if !e.Exited? && e.request.arrival == a then 1 else 0)
  {
    assert (j + [e])[..|j|] == j;
  }

  lemma {:induction false} AppendQueued(p: seq<Request>, r: Request, a: nat)
    ensures Queued(p + [r], a) == Queued(p, a) + (if r.arrival == a then 1 else 0)
  {
    if p != [] {
      assert (p + [r])[1..] == p[1..] + [r];
      AppendQueued(p[1..], r, a);
    }
  }

  lemma {:induction false} AppendTransactions(j: seq<Event>, e: Event)
    ensures (j + [e])[..|j|] == j && (j + [e])[|j|] == e
  {}

  lemma {:induction false} StatementFrame(d: Db, r: Request)
    requires r.Worker?
    ensures var e := RunStatement(d, r);
      e.journal == d.journal + [Ran(r, Perform(d, r).1)] && e.pending == d.pending && e.arrivals == d.arrivals
        && e.present == d.present && e.draining == d.draining
  {}

  /** What one more statement does to the open transactions, when at most its own connection has one. */
  lemma {:induction false} TransactionsAfter(j: seq<Event>, r: Request, ok: bool)
    requires r.Worker? && (OpenTransactions(j) == {} || exists c :: OpenTransactions(j) == {c} && Caller(r) == Some(c))
    ensures OpenTransactions(j + [Ran(r, ok)]) ==
      if !ok || Caller(r).None? || r.statement.Open? || r.statement.Other? then OpenTransactions(j)
      else if r.statement.Begin? then {Caller(r).value} else {}
  {
    AppendTransactions(j, Ran(r, ok));
  }

  lemma {:induction false} PerformFrame(d: Db, r: Request)
    requires r.Worker?
    ensures var (e, ok) := Perform(d, r);
      && (ok && !r.statement.Open? ==> Caller(r).Some? && Caller(r).value in d.connections)
      && (!(ok && r.statement.Close?) ==> d.connections <= e.connections)
      && (ok && r.statement.Close? ==> e.connections == d.connections - {Caller(r).value})
  {}

  /** A statement that may run now keeps the lease in step with SQLite. */
  lemma {:induction false} StatementKeepsLease(d: Db, r: Request)
    requires r.Worker? && LeaseMatches(d)
    requires d.owner.None? || d.owner == Caller(r)
    ensures LeaseMatches(RunStatement(d, r))
  {
    var ok := Perform(d, r).1;
    assert OpenTransactions(d.journal) == {} || OpenTransactions(d.journal) == {Caller(r).value};
    AppendSerial(d.journal, Ran(r, ok));
    TransactionsAfter(d.journal, r, ok);
    PerformFrame(d, r);
  }

  /** Answering the request at the head of the queue keeps every request accounted for and in order. */
  lemma {:induction false} QueueHeadRuns(j: seq<Event>, p: seq<Request>, n: nat, ev: Event)
    requires p != [] && Conserved(j, p, n) && Ascending(p, n) && Known(j, n) && Fair(j, p)
    requires ev.Ran? && ev.request == p[0]
    ensures Conserved(j + [ev], p[1..], n) && Ascending(p[1..], n) && Known(j + [ev], n) && Fair(j + [ev], p[1..])
  {
    forall a: nat ensures Answers(j + [ev], a) + Queued(p[1..], a) == if a < n then 1 else 0 {
      AppendAnswer(j, ev, a);
    }
    assert forall r | r in p[1..] :: p[0].arrival < r.arrival;
    AppendFair(j, p, ev, p[1..]);
  }

  /** A request answered on arrival: either nothing was queued, or it is inside the open transaction. */
  lemma {:induction false} ArrivalAnswered(d: Db, ev: Event)
    requires Good(d) && !ev.Exited? && ev.request.arrival == d.arrivals
    requires ev.Ran? && d.pending != [] ==> d.owner.Some? && d.owner == Caller(ev.request)
    ensures Conserved(d.journal + [ev], d.pending, d.arrivals + 1) && Ascending(d.pending, d.arrivals + 1)
    ensures Known(d.journal + [ev], d.arrivals + 1) && Fair(d.journal + [ev], d.pending)
  {
    var j := d.journal;
    forall a: nat ensures Answers(j + [ev], a) + Queued(d.pending, a) == if a < d.arrivals + 1 then 1 else 0 {
      AppendAnswer(j, ev, a);
    }
    AppendFair(j, d.pending, ev, d.pending);
  }

  lemma {:induction false} ArrivalQueues(d: Db, r: Request)
    requires Good(d) && r.arrival == d.arrivals
    ensures Good(d.(arrivals := d.arrivals + 1, present := true, pending := d.pending + [r]))
  {
    forall a: nat ensures Answers(d.journal, a) + Queued(d.pending + [r], a) == if a < d.arrivals + 1 then 1 else 0 {
      AppendQueued(d.pending, r, a);
    }
  }

  // ---------------------------------------------------------------- a broker exits

  lemma {:induction false} SplitQueue(p: seq<Request>, b: nat)
    ensures forall a: nat :: Queued(p, a) == Queued(Of(p, b), a) + Queued(Without(p, b), a)
    ensures forall r :: r in Without(p, b) <==> r in p && !FromBroker(r, b)
  {
    if p != [] {
      SplitQueue(p[1..], b);
      var f := [p[0]];
      assert p == f + p[1..];
      assert (f + Of(p[1..], b))[1..] == Of(p[1..], b);
      assert (f + Without(p[1..], b))[1..] == Without(p[1..], b);
    }
  }

  lemma {:induction false} PrependAscends(x: Request, q: seq<Request>, n: nat)
    requires Ascending(q, n) && x.arrival < n && forall r | r in q :: x.arrival < r.arrival
    ensures Ascending([x] + q, n)
  {
    forall l | 0 <= l < |q| ensures x.arrival < q[l].arrival { assert q[l] in q; }
  }

  lemma {:induction false} WithoutAscends(p: seq<Request>, b: nat, n: nat)
    requires Ascending(p, n)
    ensures Ascending(Without(p, b), n)
  {
    if p != [] {
      WithoutAscends(p[1..], b, n);
      if !FromBroker(p[0], b) {
        SplitQueue(p[1..], b);
        assert forall r | r in p[1..] :: p[0].arrival < r.arrival;
        PrependAscends(p[0], Without(p[1..], b), n);
      }
    }
  }

  lemma {:induction false} RejectionsAppended(j: seq<Event>, p: seq<Request>, q: seq<Request>, n: nat)
    ensures OpenTransactions(j + Rejections(p)) == OpenTransactions(j)
    ensures Serial(j) ==> Serial(j + Rejections(p))
    ensures Known(j, n) ==> Known(j + Rejections(p), n)
    ensures Fair(j, q) ==> Fair(j + Rejections(p), q)
    ensures forall a: nat :: Answers(j + Rejections(p), a) == Answers(j, a) + Queued(p, a)
    decreases |p|
  {
    if p == [] {
      assert j + Rejections(p) == j;
    } else {
      var ev := Rejected(p[0]);
      assert j + Rejections(p) == (j + [ev]) + Rejections(p[1..]);
      RejectionsAppended(j + [ev], p[1..], q, n);
      AppendTransactions(j, ev);
      if Serial(j) { AppendSerial(j, ev); }
      if Fair(j, q) { AppendFair(j, q, ev, q); }
      forall a: nat ensures Answers(j + [ev], a) == Answers(j, a) + (if p[0].arrival == a then 1 else 0) {
        AppendAnswer(j, ev, a);
      }
    }
  }

  lemma {:induction false} OfMember(p: seq<Request>, b: nat, r: Request)
    ensures r in Of(p, b) <==> r in p && FromBroker(r, b)
  {
    if p != [] {
      OfMember(p[1..], b, r);
      assert r in p <==> r == p[0] || r in p[1..];
    }
  }

  lemma {:induction false} QueuedMember(p: seq<Request>, a: nat)
    ensures Queued(p, a) > 0 <==> exists r :: r in p && r.arrival == a
  {
    if p != [] {
      QueuedMember(p[1..], a);
      assert p == [p[0]] + p[1..];
    }
  }

  /** An exit answers, by a rejection, exactly the queued requests of the broker itself; all others stay queued and
      unanswered; and only a lease of the broker itself lapses. */
  lemma {:induction false} ExitRejectsOwn(d: Db, b: nat, r: Request)
    requires Good(d) && d.present && r in d.pending
    ensures var e := Unregistered(d, b);
      && Answers(d.journal, r.arrival) == 0
      && Answers(e.journal, r.arrival) == (if FromBroker(r, b) then 1 else 0)
      && (r in e.pending <==> !FromBroker(r, b))
      && (FromBroker(r, b) ==> Rejected(r) in e.journal)
      && e.owner == if d.owner.Some? && d.owner.value.broker == b then None else d.owner
  {
    var e := Unregistered(d, b);
    QueuedMember(d.pending, r.arrival);
    QueuedMember(e.pending, r.arrival);
    SplitQueue(d.pending, b);
    UnregisteredKeeps(d, b);
    OfMember(d.pending, b, r);
    if FromBroker(r, b) { RejectionsMember(Of(d.pending, b), r); }
    OnlyOneOfArrival(d, r);
  }

  lemma {:induction false} OnlyOneOfArrival(d: Db, r: Request)
    requires Ascending(d.pending, d.arrivals) && r in d.pending
    ensures forall q | q in d.pending && q.arrival == r.arrival :: q == r
  {}

  lemma {:induction false} RejectionsMember(p: seq<Request>, r: Request)
    requires r in p
    ensures Rejected(r) in Rejections(p)
  {
    if r != p[0] { RejectionsMember(p[1..], r); }
  }

  lemma {:induction false} UnregisteredKeeps(d: Db, b: nat)
    requires Good(d) && (!d.present ==> d.owner.None? && d.pending == [])
    ensures Good(Unregistered(d, b))
  {
    var ev := Exited(b);
    var j := d.journal + [ev];
    AppendTransactions(d.journal, ev);
    AppendSerial(d.journal, ev);
    AppendFair(d.journal, d.pending, ev, d.pending);
    forall a: nat ensures Answers(j, a) == Answers(d.journal, a) { AppendAnswer(d.journal, ev, a); }
    SplitQueue(d.pending, b);
    WithoutAscends(d.pending, b, d.arrivals);
    var q := Without(d.pending, b);
    forall k | 0 <= k < |q| ensures OvertakenFairly(j, q[k].arrival) {
      assert q[k] in q;
      var l :| 0 <= l < |d.pending| && d.pending[l] == q[k];
    }
    RejectionsAppended(j, Of(d.pending, b), q, d.arrivals);
  }

  lemma {:induction false} CloseAllKeeps(d: Db, closes: seq<nat>)
    requires Good(d) && d.owner.None?
    requires d.draining || d.pending == []
    requires !d.present ==> d.pending == []
    ensures var e := CloseAll(d, closes);
      Good(e) && e.owner.None? && e.draining == d.draining && (!e.present ==> e.pending == [])
        && (d.pending == [] ==> e.pending == []) && (d.draining ==> e.present == d.present)
    decreases |closes|
  {
    if closes != [] {
      if closes[0] !in d.closed { UnregisteredKeeps(d, closes[0]); }
      CloseAllKeeps(CloseQuietly(d, closes[0]), closes[1..]);
    }
  }

  // ---------------------------------------------------------------- draining

  lemma {:induction false} QueuedHostKeeps(d: Db, rest: Db, r: Request)
    requires Good(d) && d.owner.None? && d.draining && d.present && d.pending == [r] + rest.pending && r.Host?
    requires rest == d.(pending := rest.pending)
    ensures var e := RunHost(rest, r); Good(e) && e.draining && e.present
  {
    var ev := Ran(r, true);
    assert d.pending[1..] == rest.pending;
    QueueHeadRuns(d.journal, d.pending, d.arrivals, ev);
    AppendSerial(d.journal, ev);
    AppendTransactions(d.journal, ev);
    CloseAllKeeps(rest.(journal := d.journal + [ev]), r.closes);
  }

  lemma {:induction false} QueuedStatementKeeps(d: Db, rest: Db, r: Request)
    requires Good(d) && d.owner.None? && d.draining && d.present && d.pending == [r] + rest.pending && r.Worker?
    requires rest == d.(pending := rest.pending)
    ensures var e := RunStatement(rest, r); Good(e) && e.draining && e.present
  {
    assert d.pending[1..] == rest.pending;
    assert LeaseMatches(rest);
    StatementKeepsLease(rest, r);
    StatementFrame(rest, r);
    QueueHeadRuns(d.journal, d.pending, d.arrivals, Ran(r, Perform(rest, r).1));
  }

  lemma DrainedKeeps(d: Db)
    requires Good(d) && d.draining && d.present
    ensures var e := Drained(d); Good(e) && e.draining && e.present && (e.owner.None? ==> e.pending == [])
    decreases |d.pending|
  {
    if d.owner.None? && d.pending != [] {
      var r, rest := d.pending[0], d.(pending := d.pending[1..]);
      if r.Host? { QueuedHostKeeps(d, rest, r); } else { QueuedStatementKeeps(d, rest, r); }
      DrainedKeeps(RunQueued(rest, r));
    }
  }

  lemma DrainKeeps(d: Db)
    requires Good(d) && !d.draining && d.present
    ensures Good(Drain(d)) && Quiet(Drain(d))
  {
    assert Good(d.(draining := true));
    DrainedKeeps(d.(draining := true));
    var e := Drained(d.(draining := true)).(draining := false);
    assert Good(e);
  }

  lemma {:induction false} DirectKeeps(d: Db, f: Db, r: Request)
    requires Good(d) && Quiet(d) && r.Worker? && r.arrival == d.arrivals
    requires d.owner.None? || d.owner == Caller(r)
    requires f == d.(arrivals := d.arrivals + 1, present := true)
    ensures Good(RunStatement(f, r))
  {
    assert LeaseMatches(f);
    StatementKeepsLease(f, r);
    StatementFrame(f, r);
    ArrivalAnswered(d, Ran(r, Perform(f, r).1));
  }

  lemma {:induction false} SettleKeeps(d: Db)
    requires Good(d) && !d.draining && d.present && (d.owner.None? ==> d.pending == [])
    ensures Good(Settle(d)) && Quiet(Settle(d))
  {}

  lemma {:induction false} ExecuteKeeps(d: Db, f: Db, r: Request)
    requires Good(d) && Quiet(d) && r.Worker? && r.arrival == d.arrivals
    requires d.owner.None? || d.owner == Caller(r)
    requires f == d.(arrivals := d.arrivals + 1, present := true)
    ensures Good(Settle(Execute(f, r))) && Quiet(Settle(Execute(f, r)))
  {
    var g := RunStatement(f, r);
    DirectKeeps(d, f, r);
    StatementFrame(f, r);
    if f.owner.Some? && g.owner.None? {
      DrainKeeps(g);
      assert Settle(Drain(g)) == Drain(g);
    } else {
      SettleKeeps(g);
    }
  }

  lemma {:induction false} LateRequestKeeps(d: Db, r: Request)
    requires Good(d) && Quiet(d) && r.Worker? && r.arrival == d.arrivals
    ensures var e := d.(arrivals := d.arrivals + 1, journal := d.journal + [Rejected(r)]); Good(e) && Quiet(e)
  {
    ArrivalAnswered(d, Rejected(r));
    AppendSerial(d.journal, Rejected(r));
    AppendTransactions(d.journal, Rejected(r));
  }

  /** The three ways a worker's request can go. */
  lemma {:induction false} HandleCases(d: Db, r: Request)
    requires r.Worker?
    ensures var e := d.(arrivals := d.arrivals + 1);
      Handle(d, r) ==
        if r.broker in d.closed then e.(journal := d.journal + [Rejected(r)])
        else if d.owner.Some? && d.owner != Caller(r) then e.(present := true, pending := d.pending + [r])
        else Settle(Execute(e.(present := true), r))
  {}

  lemma {:induction false} AskKeeps(d: Db, r: Request)
    requires Good(d) && Quiet(d) && r.Worker? && r.arrival == d.arrivals
    ensures Good(Handle(d, r)) && Quiet(Handle(d, r))
  {
    HandleCases(d, r);
    if r.broker in d.closed {
      LateRequestKeeps(d, r);
    } else if d.owner.Some? && d.owner != Caller(r) {
      ArrivalQueues(d, r);
    } else {
      ExecuteKeeps(d, d.(arrivals := d.arrivals + 1, present := true), r);
    }
  }

  /** A host operation that starts on arrival, before it closes any broker. */
  lemma {:induction false} HostStarts(d: Db, r: Request)
    requires Good(d) && Quiet(d) && r.Host? && r.arrival == d.arrivals && d.owner.None?
    ensures Good(d.(arrivals := d.arrivals + 1, present := true, journal := d.journal + [Ran(r, true)]))
  {
    var ev := Ran(r, true);
    ArrivalAnswered(d, ev);
    AppendSerial(d.journal, ev);
    AppendTransactions(d.journal, ev);
  }

  lemma {:induction false} PresenceKeeps(d: Db, present: bool)
    requires Good(d)
    ensures Good(d.(present := present))
  {}

  lemma {:induction false} HostKeeps(d: Db, r: Request)
    requires Good(d) && Quiet(d) && r.Host? && r.arrival == d.arrivals
    ensures Good(RunWhenAvailable(d, r)) && Quiet(RunWhenAvailable(d, r))
  {
    if d.owner.Some? {
      ArrivalQueues(d, r);
    } else {
      var e := d.(arrivals := d.arrivals + 1, present := true, journal := d.journal + [Ran(r, true)]);
      HostStarts(d, r);
      CloseAllKeeps(e, r.closes);
      PresenceKeeps(CloseAll(e, r.closes), false);
      assert RunWhenAvailable(d, r) == CloseAll(e, r.closes).(present := false);
    }
  }

  lemma {:induction false} NextKeeps(d: Db, s: Step)
    requires Good(d) && Quiet(d)
    ensures Good(Next(d, s)) && Quiet(Next(d, s))
  {
    match s
    case Ask(b, c, statement, accepted) => AskKeeps(d, Worker(d.arrivals, b, c, statement, accepted));
    case HostOperation(closes) => HostKeeps(d, Host(d.arrivals, closes));
    case Exit(b) =>
      if b !in d.closed {
        UnregisteredKeeps(d, b);
        if d.present { DrainKeeps(Unregistered(d, b)); }
      }
  }

  lemma {:induction false} AlwaysGood(steps: seq<Step>)
    ensures Good(After(steps)) && Quiet(After(steps))
  {
    if steps != [] {
      AlwaysGood(steps[..|steps| - 1]);
      NextKeeps(After(steps[..|steps| - 1]), steps[|steps| - 1]);
    }
  }

  // ---------------------------------------------------------------- the theorems

  /** On every run at most one explicit transaction is open at a time, it is the one the coordinator leases,
      and until it closes only its own connection runs statements and no host operation starts. */
  lemma SerialExecution(steps: seq<Step>, n: nat)
    requires n <= |After(steps).journal|
    ensures Serial(After(steps).journal)
    ensures |OpenTransactions(After(steps).journal[..n])| <= 1
    ensures OpenTransactions(After(steps).journal)
              == (if After(steps).owner.Some? then {After(steps).owner.value} else {})
  {
    AlwaysGood(steps);
    AtMostOneOpen(After(steps).journal, n);
  }

  lemma {:induction false} AtMostOneOpen(j: seq<Event>, n: nat)
    requires Serial(j) && n <= |j|
    ensures OpenTransactions(j[..n]) == {} || exists c :: OpenTransactions(j[..n]) == {c}
  {
    if n > 0 {
      AtMostOneOpen(j, n - 1);
      var k := j[..n];
      assert k[..n - 1] == j[..n - 1];
      var before := OpenTransactions(j[..n - 1]);
      if k[n - 1].Ran? && Caller(k[n - 1].request).Some? {
        var c := Caller(k[n - 1].request).value;
        assert j[n - 1] == k[n - 1];
        assert forall x | x in before :: Caller(j[n - 1].request) == Some(x);
        assert before == {} || before == {c};
        assert OpenTransactions(k) == {} || OpenTransactions(k) == {c};
      } else if k[n - 1].Exited? && before != {} {
        var c :| before == {c};
        assert OpenTransactions(k) == {} || OpenTransactions(k) == {c};
      }
    }
  }

  /** Every request ever handed in has been answered exactly once or is waiting exactly once, and nothing
      else was ever answered or queued. */
  lemma Conservation(steps: seq<Step>, a: nat)
    ensures Answers(After(steps).journal, a) + Queued(After(steps).pending, a)
              == if a < After(steps).arrivals then 1 else 0
  {
    AlwaysGood(steps);
  }

  /** Requests run in arrival order; one that overtakes an older request ran inside the open transaction. */
  lemma ArrivalOrder(steps: seq<Step>, i: nat, j: nat)
    requires var log := After(steps).journal;
      i < j < |log| && log[i].Ran? && log[j].Ran? && log[i].request.arrival > log[j].request.arrival
    ensures InsideTransaction(After(steps).journal, i)
  {
    AlwaysGood(steps);
    var log := After(steps).journal;
    assert InsideTransaction(log[..j], i);
    assert log[..j][..i] == log[..i];
  }

  /** The map holds a state exactly while it has an owner or a queue, and a queue never outlives its owner. */
  lemma StateKeptWhileNeeded(steps: seq<Step>)
    ensures var d := After(steps);
      (d.present <==> d.owner.Some? || d.pending != []) && (d.pending != [] ==> d.owner.Some?)
  {
    AlwaysGood(steps);
  }
}
