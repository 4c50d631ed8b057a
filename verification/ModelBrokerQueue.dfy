/**
 The guest-owned spool as the source writes it: one method per operation, each rewriting the files of a
 request in place. Every method is proved to do what `ModelBroker` says the guest does, so the fencing
 theorems hold for it.
 */
module ModelBrokerQueue {
  import opened Options
  import opened Base64
  import opened ModelBroker

  class FleetModelBrokerQueue {
    var leases: map<nat, Lease>     // the state files
    var parts: map<nat, Bytes>      // the part files
    var results: map<nat, Bytes>    // the result files

    ghost function Files(): Spool
      reads this
    {
      Spool(leases, parts, results)
    }

    constructor ()
      ensures Files() == Spool(map[], map[], map[])
    {
      leases, parts, results := map[], map[], map[];
    }

    /** A new request can be leased at once and is leased to nobody yet; submitting a request again changes nothing,
        whatever state it is in; and no result appears or disappears. */
    method Submit(request: nat)
      modifies this`leases
      ensures Files() == Submitted(old(Files()), request)
      ensures old(request in leases) ==> Files() == old(Files())
      ensures old(request !in leases) ==> forall now: nat :: Pollable(Files(), now, request)
      ensures old(request !in leases) ==> forall now: nat, lease: nat :: !Holds(Files(), now, request, lease)
      ensures forall r :: Result(Files(), r) == Result(old(Files()), r)
    {
      if request in leases { return; }
      leases := leases[request := Lease(None, 0, false)];
    }

    method ReadResult(request: nat) returns (content: Option<Bytes>)
      ensures content == Result(Files(), request)
    {
      content := None;
      if request in leases && leases[request].done && request in results { content := Some(results[request]); }
    }

    /** Grants the first request, in name order, that is neither done nor leased; grants none if there is none. */
    method Poll(now: nat, leaseId: nat) returns (granted: Option<nat>)
      modifies this`leases
      ensures granted.Some? ==> FirstPollable(old(Files()), now, granted.value)
      ensures granted.Some? ==> Files() == Granted(old(Files()), now, granted.value, leaseId)
      ensures granted.None? ==> Files() == old(Files()) && forall r :: !Pollable(Files(), now, r)
    {
      var names := leases.Keys;
      while names != {}
        invariant names <= leases.Keys && leases == old(leases)
        invariant forall r | r in leases && r !in names :: !Pollable(Files(), now, r)
        decreases |names|
      {
        var request := Least(names);
        names := names - {request};
        if leases[request].done || leases[request].until > now { continue; }
        leases := leases[request := Lease(Some(leaseId), now + LEASE_MS, false)];
        return Some(request);
      }
      return None;
    }

    method RequireLease(now: nat, request: nat, leaseId: nat) returns (ok: bool)
      ensures ok == Holds(Files(), now, request, leaseId)
    {
      if request !in leases { return false; }
      var state := leases[request];
      return !state.done && state.id == Some(leaseId) && state.until >= now;
    }

    /** After a renewal the lease lives for its whole term again, nobody else holds one, and no poll takes the
        request away before the term is over; a lease that has lapsed cannot be renewed. */
    method RenewLease(ghost env: Env, now: nat, request: nat, leaseId: nat) returns (ok: bool)
      modifies this`leases
      ensures ServedBy(Serve(env, old(Files()), now, Renew(request, leaseId)), ok)
      ensures ok <==> Holds(old(Files()), now, request, leaseId)
      ensures ok ==> forall t: nat, l: nat :: Holds(Files(), t, request, l) <==> l == leaseId && t <= now + LEASE_MS
      ensures ok ==> forall t: nat | t < now + LEASE_MS :: !Pollable(Files(), t, request)
      ensures forall r :: Result(Files(), r) == Result(old(Files()), r)
    {
      ok := RequireLease(now, request, leaseId);
      if ok { leases := leases[request := leases[request].(until := now + LEASE_MS)]; }
    }

    /** How a method reports the outcome of a call: new files on success, the old ones on an exception. */
    twostate predicate ServedBy(outcome: Outcome<Spool>, ok: bool)
      reads this
    {
      ok == outcome.Returned? && Files() == if ok then outcome.value else old(Files())
    }

    method BeginResult(ghost env: Env, now: nat, request: nat, leaseId: nat) returns (ok: bool)
      modifies this`parts
      ensures ServedBy(Serve(env, old(Files()), now, Begin(request, leaseId)), ok)
    {
      ok := RequireLease(now, request, leaseId);
      if ok { parts := parts[request := []]; }
    }

    method AppendResult(ghost env: Env, now: nat, request: nat, leaseId: nat, offset: nat, data: seq<Symbol>)
      returns (ok: bool)
      modifies this`parts
      ensures ServedBy(Serve(env, old(Files()), now, Append(request, leaseId, offset, data)), ok)
    {
      ok := RequireLease(now, request, leaseId);
      if !ok { return; }
      if |data| > MAX_CHUNK_TEXT { return false; }
      var bytes := Decode(data);
      if bytes.None? || |bytes.value| > CHUNK_BYTES { return false; }
      if request !in parts || |parts[request]| != offset || offset + |bytes.value| > MAX_RESULT_BYTES { return false; }
      parts := parts[request := parts[request] + bytes.value];
    }

    method SealResult(env: Env, now: nat, request: nat, leaseId: nat, sha: nat) returns (ok: bool)
      modifies this`leases, this`results
      ensures ServedBy(Serve(env, old(Files()), now, Seal(request, leaseId, sha)), ok)
    {
      ok := RequireLease(now, request, leaseId);
      if !ok { return; }
      if request !in parts || env.hash(parts[request]) != sha || !env.wellFormed(parts[request]) { return false; }
      results := results[request := parts[request]];
      leases := leases[request := Lease(None, 0, true)];
    }
  }

  /** The upload of answerBrokerRequest when its lease lives and nobody interferes: begin, the chunks in order,
      seal. It never fails, and the worker then reads exactly the answer. */
  method AnswerBrokerRequest(queue: FleetModelBrokerQueue, env: Env, now: nat, request: nat, leaseId: nat, bytes: Bytes)
    returns (ok: bool)
    requires Holds(queue.Files(), now, request, leaseId) && |bytes| <= MAX_RESULT_BYTES && env.wellFormed(bytes)
    modifies queue
    ensures ok && Result(queue.Files(), request) == Some(bytes)
  {
    ok := queue.BeginResult(env, now, request, leaseId);
    var offset := 0;
    while offset < |bytes|
      invariant ok && offset <= |bytes| && Holds(queue.Files(), now, request, leaseId)
      invariant request in queue.parts && queue.parts[request] == bytes[..offset]
      decreases |bytes| - offset
    {
      ChunkDecodes(bytes, offset);
      var chunk := Chunk(bytes, offset);
      ok := queue.AppendResult(env, now, request, leaseId, offset, Encode(chunk));
      offset := offset + |chunk|;
    }
    assert bytes[..offset] == bytes;
    ok := queue.SealResult(env, now, request, leaseId, env.hash(bytes));
  }

  lemma HasLeast(s: set<nat>)
    requires s != {}
    ensures exists x :: x in s && forall y | y in s :: x <= y
  {
    var x :| x in s;
    if y :| y in s && y < x {
      assert y in s - {x};
      HasLeast(s - {x});
      var z :| z in s - {x} && forall y | y in s - {x} :: z <= y;
      forall w | w in s ensures z <= w {
        if w != x { assert w in s - {x}; }
      }
    }
  }

  function Least(s: set<nat>): (x: nat)
    requires s != {}
    ensures x in s && forall y | y in s :: x <= y
  {
    HasLeast(s);
    var x :| x in s && forall y | y in s :: x <= y;
    x
  }
}
