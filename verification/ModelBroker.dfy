/**
 The leased model-broker spool (fleetModelBrokerQueue.ts) and the answerers that serve it (fleetRemote.ts).

 A guest worker submits requests; answerers poll for a lease, upload their answer in chunks and seal it by
 hash. Leases expire, so several answerers may work on one request; the world below interleaves any number
 of them with heartbeats, lost replies, stray calls and server crashes between file writes.
 */
module ModelBroker {
  import opened Options
  import opened Base64

  const LEASE_MS: nat := 30_000
  const CHUNK_BYTES: nat := 192 * 1024
  const MAX_CHUNK_TEXT: nat := 256 * 1024
  const MAX_RESULT_BYTES: nat := 16 * 1024 * 1024

  /** The state file of one request. */
  datatype Lease = Lease(id: Option<nat>, until: nat, done: bool)

  /** The files of a broker session, by request. */
  datatype Spool = Spool(leases: map<nat, Lease>, parts: map<nat, Bytes>, results: map<nat, Bytes>)

  /** What the model takes as given: the digest, the result check, and each lease holder's answer. */
  datatype Env = Env(hash: Bytes -> nat, wellFormed: Bytes -> bool, answer: nat -> Bytes)

  datatype Call =
    | Renew(request: nat, lease: nat)
    | Begin(request: nat, lease: nat)
    | Append(request: nat, lease: nat, offset: nat, data: seq<Symbol>)
    | Seal(request: nat, lease: nat, sha: nat)

  // ---------------------------------------------------------------- the guest's side

  predicate Holds(s: Spool, now: nat, request: nat, lease: nat) {
    request in s.leases && !s.leases[request].done && s.leases[request].id == Some(lease)
      && s.leases[request].until >= now
  }

  predicate Pollable(s: Spool, now: nat, r: nat) {
    r in s.leases && !s.leases[r].done && s.leases[r].until <= now
  }

  function Submitted(s: Spool, r: nat): Spool {
    if r in s.leases then s else s.(leases := s.leases[r := Lease(None, 0, false)])
  }

  function Granted(s: Spool, now: nat, r: nat, lease: nat): Spool {
    s.(leases := s.leases[r := Lease(Some(lease), now + LEASE_MS, false)])
  }

  /** What a worker reads: nothing until the state file says done. */
  function Result(s: Spool, r: nat): Option<Bytes> {
    if r in s.leases && s.leases[r].done && r in s.results then Some(s.results[r]) else None
  }

  predicate ChunkAccepted(s: Spool, r: nat, offset: nat, data: seq<Symbol>) {
    && |data| <= MAX_CHUNK_TEXT
    && Decode(data).Some? && |Decode(data).value| <= CHUNK_BYTES
    && r in s.parts && |s.parts[r]| == offset && offset + |Decode(data).value| <= MAX_RESULT_BYTES
  }

  predicate SealAccepted(env: Env, s: Spool, r: nat, sha: nat) {
    r in s.parts && env.hash(s.parts[r]) == sha && env.wellFormed(s.parts[r])
  }

  /** The guest's answer to a call: the files afterwards, or an exception that changed nothing. */
  function Serve(env: Env, s: Spool, now: nat, call: Call): Outcome<Spool> {
    var r := call.request;
    if !Holds(s, now, r, call.lease) then Threw else
    match call
    case Renew(_, _) => Returned(s.(leases := s.leases[r := s.leases[r].(until := now + LEASE_MS)]))
    case Begin(_, _) => Returned(s.(parts := s.parts[r := []]))
    case Append(_, _, offset, data) =>
      if ChunkAccepted(s, r, offset, data) then Returned(s.(parts := s.parts[r := s.parts[r] + Decode(data).value]))
      else Threw
    case Seal(_, _, sha) =>
      if SealAccepted(env, s, r, sha)
      then Returned(s.(results := s.results[r := s.parts[r]], leases := s.leases[r := Lease(None, 0, true)]))
      else Threw
  }

  // ---------------------------------------------------------------- the answerers' side

  datatype Phase = Polled | Uploading(sent: nat) | Finished | Gone
  datatype Answerer = Answerer(request: nat, phase: Phase)

  /** `granted` counts the leases ever granted; lease ids are fresh, so they are numbered. */
  datatype World = World(spool: Spool, now: nat, answerers: map<nat, Answerer>, granted: nat)

  datatype Step =
    | Submit(request: nat)
    | Poll(request: nat)                    // a poll that finds this request first in name order
    | Work(lease: nat)                      // the holder makes its next call
    | Heartbeat(lease: nat)
    | Abandon(lease: nat)                   // a reply got lost, or the loop stopped; see LateCall
    | CrashInAppend(lease: nat, kept: nat)  // the server dies after writing part of a chunk
    | CrashInSeal(lease: nat)               // the server dies after the result file, before the state file
    | Stray(call: Call)                     // a call without a live lease, repeated or out of order
    | Tick(milliseconds: nat)

  const START := World(Spool(map[], map[], map[]), 0, map[], 0)

  function Chunk(b: Bytes, offset: nat): Bytes
    requires offset <= |b|
  {
    b[offset..if offset + CHUNK_BYTES <= |b| then offset + CHUNK_BYTES else |b|]
  }

  /** The holder's next call: begin, the chunks in order, and the seal once all of them are accepted. */
  function NextCall(env: Env, l: nat, a: Answerer): Option<Call> {
    match a.phase
    case Polled => Some(Begin(a.request, l))
    case Uploading(n) =>
      if n < |env.answer(l)| then Some(Append(a.request, l, n, Encode(Chunk(env.answer(l), n))))
      else Some(Seal(a.request, l, env.hash(env.answer(l))))
    case _ => None
  }

  function Advanced(env: Env, l: nat, a: Answerer): Answerer {
    match a.phase
    case Polled => a.(phase := Uploading(0))
    case Uploading(n) =>
      if n < |env.answer(l)| then a.(phase := Uploading(n + |Chunk(env.answer(l), n)|)) else a.(phase := Finished)
    case _ => a
  }

  /** Calls that must not matter: no live lease behind them, or a chunk that is not the next one. */
  predicate IsStray(w: World, call: Call) {
    !Holds(w.spool, w.now, call.request, call.lease)
    || (call.Append? && !(call.request in w.spool.parts && |w.spool.parts[call.request]| == call.offset))
  }

  function Leave(w: World, l: nat): World
    requires l in w.answerers
  {
    w.(answerers := w.answerers[l := w.answerers[l].(phase := Gone)])
  }

  predicate FirstPollable(s: Spool, now: nat, r: nat) {
    Pollable(s, now, r) && forall q | 0 <= q < r :: !Pollable(s, now, q)
  }

  function Next(env: Env, w: World, step: Step): World {
    match step
    case Submit(r) => w.(spool := Submitted(w.spool, r))
    case Poll(r) =>
      if !FirstPollable(w.spool, w.now, r) then w else
      w.(spool := Granted(w.spool, w.now, r, w.granted), granted := w.granted + 1,
         answerers := w.answerers[w.granted := Answerer(r, Polled)])
    case Work(l) =>
      if l !in w.answerers || NextCall(env, l, w.answerers[l]).None? then w else (
      match Serve(env, w.spool, w.now, NextCall(env, l, w.answerers[l]).value)
      case Threw => Leave(w, l)
      case Returned(s) => w.(spool := s, answerers := w.answerers[l := Advanced(env, l, w.answerers[l])]))
    case Heartbeat(l) =>
      if l !in w.answerers then w else (
      match Serve(env, w.spool, w.now, Renew(w.answerers[l].request, l))
      case Threw => w
      case Returned(s) => w.(spool := s))
    case Abandon(l) => if l in w.answerers && !w.answerers[l].phase.Finished? then Leave(w, l) else w
    case CrashInAppend(l, kept) =>
      if l !in w.answerers then w else (
      match NextCall(env, l, w.answerers[l])
      case Some(Append(r, _, offset, data)) =>
        if !Holds(w.spool, w.now, r, l) || !ChunkAccepted(w.spool, r, offset, data) then w
        else if kept > |Decode(data).value| then w
        else Leave(w.(spool := w.spool.(parts := w.spool.parts[r := w.spool.parts[r] + Decode(data).value[..kept]])), l)
      case _ => w)
    case CrashInSeal(l) =>
      if l !in w.answerers then w else (
      match NextCall(env, l, w.answerers[l])
      case Some(Seal(r, _, sha)) =>
        if !Holds(w.spool, w.now, r, l) || !SealAccepted(env, w.spool, r, sha) then w
        else Leave(w.(spool := w.spool.(results := w.spool.results[r := w.spool.parts[r]])), l)
      case _ => w)
    case Stray(call) =>
      if !IsStray(w, call) then w else (
      match Serve(env, w.spool, w.now, call)
      case Threw => w
      case Returned(s) => w.(spool := s))
    case Tick(ms) => w.(now := w.now + ms)
  }

  function After(env: Env, steps: seq<Step>): World {
    if steps == [] then START else Next(env, After(env, steps[..|steps| - 1]), steps[|steps| - 1])
  }

  // ---------------------------------------------------------------- fencing

  /** The holder of a lease that has begun its upload: the part file is exactly what it sent so far. */
  ghost predicate PartIsPrefix(env: Env, w: World, r: nat, l: nat)
    requires l in w.answerers
  {
    w.answerers[l].phase.Uploading? ==>
      var n := w.answerers[l].phase.sent;
      n <= |env.answer(l)| && r in w.spool.parts && w.spool.parts[r] == env.answer(l)[..n]
  }

  ghost predicate SealedByHolder(env: Env, w: World, r: nat, l: nat) {
    && l in w.answerers && w.answerers[l] == Answerer(r, Finished)
    && r in w.spool.results && w.spool.results[r] == env.answer(l)
  }

  ghost predicate Fenced(env: Env, w: World) {
    && (forall l | l in w.answerers :: l < w.granted)
    && (forall r | r in w.spool.leases && w.spool.leases[r].id.Some? ::
          var l := w.spool.leases[r].id.value;
          !w.spool.leases[r].done && l in w.answerers && w.answerers[l].request == r && PartIsPrefix(env, w, r, l))
    && (forall r | r in w.spool.leases && w.spool.leases[r].done :: exists l :: SealedByHolder(env, w, r, l))
    && (forall l | l in w.answerers && w.answerers[l].phase.Finished? ::
          w.answerers[l].request in w.spool.leases && w.spool.leases[w.answerers[l].request].done)
    && (forall k, l | k in w.answerers && l in w.answerers && w.answerers[k].phase.Finished?
          && w.answerers[l].phase.Finished? && w.answerers[k].request == w.answerers[l].request :: k == l)
  }

  /** Later steps leave a sealed request's evidence alone. */
  lemma SealedStays(env: Env, w: World, v: World)
    requires Fenced(env, w)
    requires forall l | l in w.answerers && w.answerers[l].phase.Finished? ::
      l in v.answerers && v.answerers[l] == w.answerers[l]
    requires forall r | r in w.spool.leases && w.spool.leases[r].done && r in w.spool.results ::
               r in v.spool.results && v.spool.results[r] == w.spool.results[r]
    ensures forall r | r in w.spool.leases && w.spool.leases[r].done :: exists l :: SealedByHolder(env, v, r, l)
  {
    forall r | r in w.spool.leases && w.spool.leases[r].done ensures exists l :: SealedByHolder(env, v, r, l) {
      var l :| SealedByHolder(env, w, r, l);
      assert SealedByHolder(env, v, r, l);
    }
  }

  /** 192 KiB of bytes are exactly 256 Ki symbols, so every chunk passes the encoding and size checks. */
  lemma ChunkFits(chunk: Bytes)
    requires |chunk| <= CHUNK_BYTES
    ensures Decode(Encode(chunk)) == Some(chunk) && |Encode(chunk)| <= MAX_CHUNK_TEXT
  {
    DecodeEncode(chunk);
    EncodedLength(chunk);
  }

  lemma ChunkDecodes(b: Bytes, offset: nat)
    requires offset <= |b|
    ensures var chunk := Chunk(b, offset);
      |chunk| <= CHUNK_BYTES && b[..offset] + chunk == b[..offset + |chunk|]
    ensures var data := Encode(Chunk(b, offset)); Decode(data) == Some(Chunk(b, offset)) && |data| <= MAX_CHUNK_TEXT
  {
    var chunk := Chunk(b, offset);
    assert b[..offset] + chunk == b[..offset + |chunk|];
    ChunkFits(chunk);
  }

  lemma LeaveFenced(env: Env, w: World, l: nat)
    requires Fenced(env, w) && l in w.answerers && !w.answerers[l].phase.Finished?
    ensures Fenced(env, Leave(w, l))
  {
    SealedStays(env, w, Leave(w, l));
  }

  /** Only the part or result file of one unsealed request changes, and its holder's progress with it. */
  lemma FilesFenced(env: Env, w: World, v: World, r: nat, l: nat)
    requires Fenced(env, w) && l in w.answerers && w.answerers[l].request == r && !w.answerers[l].phase.Finished?
    requires r in w.spool.leases && !w.spool.leases[r].done && w.spool.leases[r].id == Some(l)
    requires l in v.answerers && v.answerers[l].request == r && !v.answerers[l].phase.Finished?
    requires v.answerers == w.answerers[l := v.answerers[l]] && v.granted == w.granted
    requires v.spool.leases == w.spool.leases
    requires forall q | q in w.spool.parts && q != r :: q in v.spool.parts && v.spool.parts[q] == w.spool.parts[q]
    requires forall q | q in w.spool.results && q != r ::
      q in v.spool.results && v.spool.results[q] == w.spool.results[q]
    requires PartIsPrefix(env, v, r, l)
    ensures Fenced(env, v)
  {
    SealedStays(env, w, v);
  }

  /** Sealing: the part file is the whole answer, and its holder is the only one ever to finish the request. */
  lemma SealFenced(env: Env, w: World, r: nat, l: nat)
    requires Fenced(env, w) && l in w.answerers && w.answerers[l].request == r && w.answerers[l].phase.Uploading?
    requires r in w.spool.leases && !w.spool.leases[r].done && w.spool.leases[r].id == Some(l)
    requires w.answerers[l].phase.sent >= |env.answer(l)|
    ensures r in w.spool.parts && w.spool.parts[r] == env.answer(l)
    ensures Fenced(env, w.(
      spool := w.spool.(results := w.spool.results[r := w.spool.parts[r]],
                        leases := w.spool.leases[r := Lease(None, 0, true)]),
      answerers := w.answerers[l := Answerer(r, Finished)]))
  {
    assert PartIsPrefix(env, w, r, l);
    assert w.spool.parts[r] == env.answer(l);
    var v := w.(
      spool := w.spool.(results := w.spool.results[r := w.spool.parts[r]],
                        leases := w.spool.leases[r := Lease(None, 0, true)]),
      answerers := w.answerers[l := Answerer(r, Finished)]);
    SealedStays(env, w, v);
    assert SealedByHolder(env, v, r, l);
  }

  lemma WorkFenced(env: Env, w: World, l: nat)
    requires Fenced(env, w) && l in w.answerers && NextCall(env, l, w.answerers[l]).Some?
    ensures Fenced(env, Next(env, w, Work(l)))
  {
    var a := w.answerers[l];
    var v := Next(env, w, Work(l));
    if Serve(env, w.spool, w.now, NextCall(env, l, a).value).Threw? {
      LeaveFenced(env, w, l);
    } else if a.phase.Polled? {
      FilesFenced(env, w, v, a.request, l);
    } else if a.phase.sent < |env.answer(l)| {
      ChunkDecodes(env.answer(l), a.phase.sent);
      FilesFenced(env, w, v, a.request, l);
    } else {
      SealFenced(env, w, a.request, l);
    }
  }

  lemma CrashFenced(env: Env, w: World, step: Step)
    requires Fenced(env, w) && (step.CrashInAppend? || step.CrashInSeal?)
    ensures Fenced(env, Next(env, w, step))
  {
    var v := Next(env, w, step);
    if v != w {
      FilesFenced(env, w, v, w.answerers[step.lease].request, step.lease);
    }
  }

  /** A call without a live lease, a repeated chunk or a chunk out of order changes no file. */
  lemma StrayRejected(env: Env, w: World, call: Call)
    requires IsStray(w, call)
    ensures Serve(env, w.spool, w.now, call).Threw?
  {}

  /** A new lease belongs to a new answerer that has uploaded nothing. */
  lemma PollFenced(env: Env, w: World, r: nat)
    requires Fenced(env, w)
    ensures Fenced(env, Next(env, w, Poll(r)))
  {
    SealedStays(env, w, Next(env, w, Poll(r)));
  }

  lemma QuietFenced(env: Env, w: World, step: Step)
    requires Fenced(env, w) && (step.Submit? || step.Heartbeat? || step.Tick?)
    ensures Fenced(env, Next(env, w, step))
  {
    SealedStays(env, w, Next(env, w, step));
  }

  lemma NextFenced(env: Env, w: World, step: Step)
    requires Fenced(env, w)
    ensures Fenced(env, Next(env, w, step))
  {
    match step
    case Work(l) => if l in w.answerers && NextCall(env, l, w.answerers[l]).Some? { WorkFenced(env, w, l); }
    case CrashInAppend(_, _) => CrashFenced(env, w, step);
    case CrashInSeal(_) => CrashFenced(env, w, step);
    case Abandon(l) => if l in w.answerers && !w.answerers[l].phase.Finished? { LeaveFenced(env, w, l); }
    case Stray(call) => if IsStray(w, call) { StrayRejected(env, w, call); }
    case Poll(r) => PollFenced(env, w, r);
    case _ => QuietFenced(env, w, step);
  }

  lemma {:induction false} AlwaysFenced(env: Env, steps: seq<Step>)
    ensures Fenced(env, After(env, steps))
  {
    if steps != [] {
      AlwaysFenced(env, steps[..|steps| - 1]);
      NextFenced(env, After(env, steps[..|steps| - 1]), steps[|steps| - 1]);
    }
  }

  predicate WorksFor(step: Step, l: nat) {
    match step
    case Work(k) => k == l
    case Abandon(k) => k == l
    case CrashInAppend(k, _) => k == l
    case CrashInSeal(k) => k == l
    case _ => false
  }

  lemma LeaveTwice(w: World, k: nat, l: nat, a: Answerer)
    requires k in w.answerers && l in w.answerers && k != l
    ensures w.answerers[k := a][l := w.answerers[l].(phase := Gone)]
      == w.answerers[l := w.answerers[l].(phase := Gone)][k := a]
  {}

  lemma LeaveThenWork(env: Env, w: World, k: nat, l: nat)
    requires k in w.answerers && l in w.answerers && k != l
    ensures Next(env, Leave(w, l), Work(k)) == Leave(Next(env, w, Work(k)), l)
  {
    LeaveTwice(w, k, l, w.answerers[k].(phase := Gone));
    LeaveTwice(w, k, l, Advanced(env, k, w.answerers[k]));
  }

  lemma LeaveThenCrash(env: Env, w: World, step: Step, l: nat)
    requires (step.CrashInAppend? || step.CrashInSeal?) && step.lease in w.answerers
    requires l in w.answerers && step.lease != l
    ensures Next(env, Leave(w, l), step) == Leave(Next(env, w, step), l)
  {
    LeaveTwice(w, step.lease, l, w.answerers[step.lease].(phase := Gone));
  }

  lemma LeaveThenPoll(env: Env, w: World, r: nat, l: nat)
    requires l in w.answerers && l < w.granted
    ensures Next(env, Leave(w, l), Poll(r)) == Leave(Next(env, w, Poll(r)), l)
  {
    assert w.answerers[w.granted := Answerer(r, Polled)][l := w.answerers[l].(phase := Gone)]
      == w.answerers[l := w.answerers[l].(phase := Gone)][w.granted := Answerer(r, Polled)];
  }

  lemma LeaveThenAbandon(env: Env, w: World, k: nat, l: nat)
    requires l in w.answerers && k != l
    ensures Next(env, Leave(w, l), Abandon(k)) == Leave(Next(env, w, Abandon(k)), l)
  {
    if k in w.answerers { LeaveTwice(w, k, l, w.answerers[k].(phase := Gone)); }
  }

  lemma LeaveThenOther(env: Env, w: World, step: Step, l: nat)
    requires l in w.answerers && (step.Submit? || step.Heartbeat? || step.Stray? || step.Tick?)
    ensures Next(env, Leave(w, l), step) == Leave(Next(env, w, step), l)
  {}

  /** Giving up commutes with everything but the holder's own calls. */
  lemma AbandonCommutes(env: Env, w: World, step: Step, l: nat)
    requires l in w.answerers && l < w.granted && !WorksFor(step, l)
    ensures Next(env, Leave(w, l), step) == Leave(Next(env, w, step), l)
  {
    match step
    case Work(k) => if k in w.answerers { LeaveThenWork(env, w, k, l); }
    case CrashInAppend(k, _) => if k in w.answerers { LeaveThenCrash(env, w, step, l); }
    case CrashInSeal(k) => if k in w.answerers { LeaveThenCrash(env, w, step, l); }
    case Poll(r) => LeaveThenPoll(env, w, r, l);
    case Abandon(k) => LeaveThenAbandon(env, w, k, l);
    case _ => LeaveThenOther(env, w, step, l);
  }

  function From(env: Env, w: World, steps: seq<Step>): World {
    if steps == [] then w else Next(env, From(env, w, steps[..|steps| - 1]), steps[|steps| - 1])
  }

  lemma OthersKeepAnswerer(env: Env, w: World, step: Step, l: nat)
    requires l in w.answerers && l < w.granted && !WorksFor(step, l)
    ensures var v := Next(env, w, step); l in v.answerers && l < v.granted && v.answerers[l] == w.answerers[l]
  {}

  /** A call that was under way when its holder gave up may still reach the guest, any number of steps later. The
      files are then the ones they would be had the holder given up right after it, so runs in which holders give
      up between calls are all there are. */
  lemma {:induction false} LateCall(env: Env, w: World, others: seq<Step>, l: nat)
    requires l in w.answerers && l < w.granted && forall i | 0 <= i < |others| :: !WorksFor(others[i], l)
    ensures var u, v := From(env, Leave(w, l), others), From(env, w, others);
      l in v.answerers && l < v.granted && v.answerers[l] == w.answerers[l] && u == Leave(v, l)
  {
    if others != [] {
      var before, s := others[..|others| - 1], others[|others| - 1];
      LateCall(env, w, before, l);
      AbandonCommutes(env, From(env, w, before), s, l);
      OthersKeepAnswerer(env, From(env, w, before), s, l);
    }
  }

  // ---------------------------------------------------------------- the theorems

  /** End to end, for any digest function at all: on every interleaving, whatever a worker can read for a
      request is the complete answer of the one lease holder that sealed it. No stale holder, repeated or
      misplaced chunk, lost reply or crash between file writes gets a byte of its own into it. */
  lemma {:induction false} SealedIsTheAnswer(env: Env, steps: seq<Step>, r: nat)
    requires r in After(env, steps).spool.leases && After(env, steps).spool.leases[r].done
    ensures var w := After(env, steps);
      exists l :: SealedByHolder(env, w, r, l) && Result(w.spool, r) == Some(env.answer(l))
        && forall k | k in w.answerers && w.answerers[k] == Answerer(r, Finished) :: k == l
  {
    AlwaysFenced(env, steps);
    var w := After(env, steps);
    var l :| SealedByHolder(env, w, r, l);
    assert Result(w.spool, r) == Some(env.answer(l));
  }

  /** As long as its lease lives, no call of a holder can fail: every chunk it cuts passes the encoding, size
      and sequence checks, and the seal passes the integrity check, without any assumption on the digest. */
  lemma {:induction false} LiveHolderNeverFails(env: Env, steps: seq<Step>, l: nat)
    requires l in After(env, steps).answerers && NextCall(env, l, After(env, steps).answerers[l]).Some?
    requires var w := After(env, steps); Holds(w.spool, w.now, w.answerers[l].request, l)
    requires |env.answer(l)| <= MAX_RESULT_BYTES && env.wellFormed(env.answer(l))
    ensures var w := After(env, steps); Serve(env, w.spool, w.now, NextCall(env, l, w.answerers[l]).value).Returned?
  {
    AlwaysFenced(env, steps);
    var w := After(env, steps);
    var a := w.answerers[l];
    assert PartIsPrefix(env, w, a.request, l);
    if a.phase.Uploading? {
      if a.phase.sent < |env.answer(l)| {
        ChunkDecodes(env.answer(l), a.phase.sent);
      } else {
        SealFenced(env, w, a.request, l);
      }
    }
  }

  ghost predicate Readable(s: Spool, r: nat, b: Bytes) {
    r in s.leases && s.leases[r].done && r in s.results && s.results[r] == b
  }

  lemma NextKeepsResult(env: Env, w: World, step: Step, r: nat, b: Bytes)
    requires Readable(w.spool, r, b) && w.spool.leases[r].id.None?
    ensures Readable(Next(env, w, step).spool, r, b)
  {
    if step.Stray? && IsStray(w, step.call) { StrayRejected(env, w, step.call); }
  }

  /** Done is absorbing, and what a worker has read once it reads for ever after, even when a crash left a
      result file behind and another lease sealed the request again. */
  lemma {:induction false} ResultIsStable(env: Env, steps: seq<Step>, more: seq<Step>, r: nat, b: Bytes)
    requires Result(After(env, steps).spool, r) == Some(b)
    ensures Result(After(env, steps + more).spool, r) == Some(b)
  {
    if more == [] {
      assert steps + more == steps;
    } else {
      var before := steps + more[..|more| - 1];
      ResultIsStable(env, steps, more[..|more| - 1], r, b);
      AlwaysFenced(env, before);
      assert After(env, before).spool.leases[r].id.None?;
      NextKeepsResult(env, After(env, before), more[|more| - 1], r, b);
      assert (steps + more)[..|steps + more| - 1] == before;
    }
  }

  /** A finished request has a whole result: readers never see a sealed request without one. */
  lemma {:induction false} DoneHasResult(env: Env, steps: seq<Step>, r: nat)
    requires r in After(env, steps).spool.leases && After(env, steps).spool.leases[r].done
    ensures Result(After(env, steps).spool, r).Some?
  {
    AlwaysFenced(env, steps);
  }
}
