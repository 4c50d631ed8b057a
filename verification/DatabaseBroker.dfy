/**
 The coordinator and its brokers as the source writes them: fields updated in place, a queue that is
 pushed, shifted and filtered, and a drain loop that may be re-entered while a host operation starts.
 Every method is proved to be a step of `DatabaseCoordinator`, so the theorems about runs apply to it.
 */
module DatabaseBroker {
  import opened Options
  import opened DatabaseCoordinator

  class BrokeredDatabase {
    var present: bool
    var owner: Option<Connection>
    var pending: seq<Request>
    var draining: bool
    var connections: set<Connection>
    var used: map<nat, nat>
    var closed: set<nat>
    var journal: seq<Event>
    var arrivals: nat

    ghost function Model(): Db
      reads this
    {
      Db(present, owner, pending, draining, connections, used, closed, journal, arrivals)
    }

    constructor ()
      ensures Model() == INITIAL
    {
      present, owner, pending, draining := false, None, [], false;
      connections, used, closed, journal, arrivals := {}, map[], {}, [], 0;
    }

    method Handle(broker: nat, connection: Option<nat>, statement: Statement, accepted: bool)
      modifies this
      ensures Model() ==
        DatabaseCoordinator.Handle(old(Model()), Worker(old(arrivals), broker, connection, statement, accepted))
    {
      var message := Worker(arrivals, broker, connection, statement, accepted);
      arrivals := arrivals + 1;
      if broker in closed {
        journal := journal + [Rejected(message)];
      } else {
        HandsOn(Model(), old(Model()), message);
        DispatchRequest(message);
      }
    }

    method DispatchRequest(message: Request)
      requires message.Worker?
      modifies this
      ensures Model() == Dispatch(old(Model()), message)
    {
      present := true;
      if owner.Some? && owner != Caller(message) {
        pending := pending + [message];
        return;
      }
      ExecuteRequest(message);
      if owner.None? && pending == [] { present := false; }
    }

    method RunWhenAvailable(closes: seq<nat>)
      requires !draining && (owner.None? ==> pending == [])
      modifies this
      ensures Model() == DatabaseCoordinator.RunWhenAvailable(old(Model()), Host(old(arrivals), closes))
    {
      var request := Host(arrivals, closes);
      arrivals := arrivals + 1;
      present := true;
      if owner.Some? {
        pending := pending + [request];
      } else {
        StartHost(request);
        if pending == [] { present := false; }
      }
    }

    method Close(broker: nat)
      modifies this
      ensures Model() == CloseBroker(old(Model()), broker)
      decreases if draining then 0 else 1, 2
    {
      if broker in closed { return; }
      closed := closed + {broker};
      connections := set c | c in connections && c.broker != broker;
      journal := journal + [Exited(broker)];
      if !present { return; }
      RejectPending(broker);
      if owner.Some? && owner.value.broker == broker { owner := None; }
      DrainPending();
    }

    /** Splits the queue in place into the requests that stay and the rejected ones. */
    method RejectPending(broker: nat)
      modifies this`pending, this`journal
      ensures pending == Without(old(pending), broker)
      ensures journal == old(journal) + Rejections(Of(old(pending), broker))
    {
      var retained := [];
      for i := 0 to |pending|
        invariant pending == old(pending)
        invariant retained + Without(pending[i..], broker) == Without(pending, broker)
        invariant journal + Rejections(Of(pending[i..], broker)) == old(journal) + Rejections(Of(pending, broker))
      {
        SplitsNext(pending, i, broker, retained, journal);
        if FromBroker(pending[i], broker) {
          journal := journal + [Rejected(pending[i])];
        } else {
          retained := retained + [pending[i]];
        }
      }
      pending := retained;
    }

    method StartHost(request: Request)
      requires request.Host?
      requires owner.None? && (draining || pending == [])
      modifies this
      ensures Model() == RunHost(old(Model()), request)
      decreases if draining then 0 else 1, 3
    {
      journal := journal + [Ran(request, true)];
      ghost var start := Model();
      for i := 0 to |request.closes|
        invariant owner.None? && draining == start.draining && (draining || pending == [])
        invariant CloseAll(Model(), request.closes[i..]) == CloseAll(start, request.closes)
      {
        ghost var before := Model();
        Close(request.closes[i]);
        QuietClose(before, request.closes[i]);
      }
    }

    method ExecuteRequest(request: Request)
      requires request.Worker?
      modifies this
      ensures Model() == Execute(old(Model()), request)
      decreases if draining then 0 else 1, 1
    {
      var ok := ExecuteAndRespond(request);
      if !ok { return; }
      if request.statement.Begin? {
        owner := Caller(request);
        return;
      }
      if owner.Some? && owner == Caller(request) && (request.statement.End? || request.statement.Close?) {
        owner := None;
        DrainPending();
      }
    }

    method ExecuteAndRespond(request: Request) returns (ok: bool)
      requires request.Worker?
      modifies this`connections, this`used, this`journal
      ensures Model() == Perform(old(Model()), request).0.(journal := old(journal) + [Ran(request, ok)])
      ensures ok == Perform(old(Model()), request).1
    {
      if request.statement.Open? {
        ok := request.statement.allowed && request.accepted;
        if request.statement.allowed {
          var id := (if request.broker in used then used[request.broker] else 0) + 1;
          used := used[request.broker := id];
          if ok { connections := connections + {Connection(request.broker, id)}; }
        }
      } else {
        ok := request.connection.Some? && Connection(request.broker, request.connection.value) in connections
          && request.accepted;
        if ok && request.statement.Close? {
          connections := connections - {Connection(request.broker, request.connection.value)};
        }
      }
      journal := journal + [Ran(request, ok)];
    }

    method DrainPending()
      modifies this
      ensures Model() == Drain(old(Model()))
      decreases if draining then 0 else 1, 0
    {
      if draining { return; }
      draining := true;
      while owner.None? && pending != []
        invariant draining
        invariant Drained(Model()) == Drained(old(Model()).(draining := true))
        decreases |pending|
      {
        var request := pending[0];
        pending := pending[1..];
        ghost var before := Model();
        if request.Host? {
          StartHost(request);
          CloseAllFrame(before.(journal := before.journal + [Ran(request, true)]), request.closes);
        } else {
          ExecuteRequest(request);
          StatementFrame(before, request);
        }
      }
      draining := false;
      if owner.None? && pending == [] { present := false; }
    }
  }

  /** One request further, it is the next rejection or the next to be retained. */
  lemma SplitsNext(p: seq<Request>, i: nat, b: nat, retained: seq<Request>, journal: seq<Event>)
    requires i < |p|
    ensures FromBroker(p[i], b) ==>
      && retained + Without(p[i..], b) == retained + Without(p[i + 1..], b)
      && journal + Rejections(Of(p[i..], b)) == journal + [Rejected(p[i])] + Rejections(Of(p[i + 1..], b))
    ensures !FromBroker(p[i], b) ==>
      && retained + Without(p[i..], b) == retained + [p[i]] + Without(p[i + 1..], b)
      && journal + Rejections(Of(p[i..], b)) == journal + Rejections(Of(p[i + 1..], b))
  {
    assert p[i..][1..] == p[i + 1..];
    assert ([p[i]] + Of(p[i + 1..], b))[1..] == Of(p[i + 1..], b);
  }

  lemma HandsOn(e: Db, d: Db, r: Request)
    requires r.Worker? && r.broker !in d.closed && e == d.(arrivals := d.arrivals + 1)
    ensures DatabaseCoordinator.Handle(d, r) == Dispatch(e, r)
  {}

  lemma QuietClose(d: Db, b: nat)
    requires d.owner.None? && (d.draining || d.pending == [])
    ensures CloseBroker(d, b) == CloseQuietly(d, b)
  {}

  lemma CloseAllFrame(d: Db, closes: seq<nat>)
    ensures CloseAll(d, closes).draining == d.draining
    decreases |closes|
  {
    if closes != [] { CloseAllFrame(CloseQuietly(d, closes[0]), closes[1..]); }
  }
}
