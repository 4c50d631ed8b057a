/**
 The replay queue of a session (appServer.ts): frames emitted while no client listens are kept, within a
 frame and a byte limit, and replayed to the next client that says hello.
 */
module ReplayBuffer {

  const MAX_REPLAY_BYTES: nat := 4_194_304
  const MAX_REPLAY_FRAMES: nat := 256

  /** `id` numbers the frames in the order the session emitted them. */
  datatype Frame = Frame(id: nat, size: nat)

  function Size(frames: seq<Frame>): nat {
    if frames == [] then 0 else frames[0].size + Size(frames[1..])
  }

  predicate Fits(frames: seq<Frame>) { |frames| <= MAX_REPLAY_FRAMES && Size(frames) <= MAX_REPLAY_BYTES }

  /** The longest suffix that fits both limits: the first one that does. */
  function LongestFit(frames: seq<Frame>): (suffix: seq<Frame>)
    ensures |suffix| <= |frames|
  {
    if frames == [] || Fits(frames) then frames else LongestFit(frames[1..])
  }

  lemma {:induction false} FittingSuffix(frames: seq<Frame>)
    ensures var suffix := LongestFit(frames); Fits(suffix) && suffix == frames[|frames| - |suffix|..]
  {
    if frames != [] && !Fits(frames) { FittingSuffix(frames[1..]); }
  }

  lemma {:induction false} NothingLongerFits(frames: seq<Frame>, k: nat)
    requires k < |frames| - |LongestFit(frames)|
    ensures !Fits(frames[k..])
  {
    if k > 0 {
      NothingLongerFits(frames[1..], k - 1);
      assert frames[1..][k - 1..] == frames[k..];
    } else {
      assert frames[0..] == frames;
    }
  }

  lemma {:induction false} SizeAppend(frames: seq<Frame>, f: Frame)
    ensures Size(frames + [f]) == Size(frames) + f.size
  {
    if frames != [] {
      assert (frames + [f])[1..] == frames[1..] + [f];
      SizeAppend(frames[1..], f);
    }
  }

  /** A suffix that fits is reached from any longer list that ends in it. */
  lemma {:induction false} FitFromFront(frames: seq<Frame>, k: nat)
    requires k <= |frames|
    requires forall i | 0 <= i < k :: !Fits(frames[i..])
    ensures LongestFit(frames) == LongestFit(frames[k..])
  {
    if k > 0 {
      assert frames[0..] == frames;
      assert forall i | 0 <= i < k - 1 :: frames[1..][i..] == frames[i + 1..];
      FitFromFront(frames[1..], k - 1);
      assert frames[1..][k - 1..] == frames[k..];
    }
  }

  /** The buffer can be updated from what it holds, without the frames it dropped before. */
  lemma {:induction false} FitIncrementally(frames: seq<Frame>, f: Frame)
    ensures LongestFit(frames + [f]) == LongestFit(LongestFit(frames) + [f])
  {
    var kept := LongestFit(frames);
    var k := |frames| - |kept|;
    FittingSuffix(frames);
    forall i | 0 <= i < k ensures !Fits((frames + [f])[i..]) {
      NothingLongerFits(frames, i);
      assert (frames + [f])[i..] == frames[i..] + [f];
      SizeAppend(frames[i..], f);
    }
    assert (frames + [f])[k..] == kept + [f];
    FitFromFront(frames + [f], k);
  }

  // ---------------------------------------------------------------- one session's transport

  /** `received` is what each client socket was sent; `delivered` lists every frame once, when it was first
      sent to anyone; `unflushed` are the frames queued since the last flush. */
  datatype Transport = Transport(
    pending: seq<Frame>, bytes: nat, dropped: nat,
    ready: set<nat>, open: set<nat>,
    received: map<nat, seq<Frame>>, delivered: seq<Frame>, unflushed: seq<Frame>, emitted: nat)

  /** `Drop`: a socket stops being open before its close event; `Leave`: the close event removes it. */
  datatype Step = Emit(size: nat) | Connect(client: nat) | Hello(client: nat) | Drop(client: nat) | Leave(client: nat)

  const START := Transport([], 0, 0, {}, {}, map[], [], [], 0)

  function SendAll(received: map<nat, seq<Frame>>, to: set<nat>, frames: seq<Frame>): map<nat, seq<Frame>> {
    map c | c in received :: if c in to then received[c] + frames else received[c]
  }

  function Queue(t: Transport, f: Frame): Transport {
    var kept := LongestFit(t.pending + [f]);
    t.(pending := kept, bytes := Size(kept), dropped := t.dropped + |t.pending + [f]| - |kept|,
       unflushed := t.unflushed + [f])
  }

  function Deliver(t: Transport, f: Frame): Transport {
    if t.ready * t.open != {}
    then t.(received := SendAll(t.received, t.ready * t.open, [f]), delivered := t.delivered + [f])
    else Queue(t, f)
  }

  function Flush(t: Transport, c: nat): Transport {
    t.(received := SendAll(t.received, {c}, t.pending), delivered := t.delivered + t.pending,
       pending := [], bytes := 0, unflushed := [])
  }

  function Next(t: Transport, s: Step): Transport {
    match s
    case Emit(size) => Deliver(t.(emitted := t.emitted + 1), Frame(t.emitted, size))
    case Connect(c) => if c in t.received then t else t.(open := t.open + {c}, received := t.received[c := []])
    case Hello(c) => if c in t.open && c !in t.ready then Flush(t.(ready := t.ready + {c}), c) else t
    case Drop(c) => t.(open := t.open - {c})
    case Leave(c) => t.(open := t.open - {c}, ready := t.ready - {c})
  }

  function From(t: Transport, steps: seq<Step>): Transport {
    if steps == [] then t else Next(From(t, steps[..|steps| - 1]), steps[|steps| - 1])
  }

  function After(steps: seq<Step>): Transport { From(START, steps) }

  predicate Ascending(frames: seq<Frame>, bound: nat) {
    && (forall i | 0 <= i < |frames| :: frames[i].id < bound)
    && (forall i, j | 0 <= i < j < |frames| :: frames[i].id < frames[j].id)
  }

  ghost predicate Buffered(t: Transport) {
    t.pending == LongestFit(t.unflushed) && t.bytes == Size(t.pending)
  }

  ghost predicate Counted(t: Transport) {
    && t.emitted == |t.delivered| + |t.pending| + t.dropped
    && Ascending(t.delivered + t.unflushed, t.emitted)
  }

  /** Sockets are known once they connect, hear nothing before they say hello, and while one of them listens
      nothing is kept back. */
  ghost predicate Addressed(t: Transport) {
    && t.ready + t.open <= t.received.Keys
    && (forall c | c in t.open && c !in t.ready :: t.received[c] == [])
    && (t.ready * t.open != {} ==> t.unflushed == [])
  }

  ghost predicate Sound(t: Transport) { Buffered(t) && Counted(t) && Addressed(t) }

  lemma {:induction false} AscendingWithoutMiddle(a: seq<Frame>, b: seq<Frame>, k: nat, bound: nat)
    requires Ascending(a + b, bound) && k <= |b|
    ensures Ascending(a + b[k..], bound)
  {
    var all, some := a + b, a + b[k..];
    forall i | 0 <= i < |some| ensures some[i].id < bound {
      assert some[i] == all[if i < |a| then i else i + k];
    }
    forall i, j | 0 <= i < j < |some| ensures some[i].id < some[j].id {
      assert some[i] == all[if i < |a| then i else i + k] && some[j] == all[if j < |a| then j else j + k];
    }
  }

  lemma {:induction false} AscendingAppend(a: seq<Frame>, f: Frame)
    requires Ascending(a, f.id)
    ensures Ascending(a + [f], f.id + 1)
  {}

  lemma {:induction false} NextBuffered(t: Transport, s: Step)
    requires Buffered(t)
    ensures Buffered(Next(t, s))
  {
    if s.Emit? { FitIncrementally(t.unflushed, Frame(t.emitted, s.size)); }
  }

  lemma {:induction false} EmitCounted(t: Transport, size: nat)
    requires Sound(t)
    ensures Counted(Next(t, Emit(size)))
  {
    var f := Frame(t.emitted, size);
    var v := Next(t, Emit(size));
    AscendingAppend(t.delivered + t.unflushed, f);
    if t.ready * t.open != {} {
      assert v.delivered + v.unflushed == (t.delivered + t.unflushed) + [f];
      assert t.pending == [];
      assert v.emitted == |v.delivered| + |v.pending| + v.dropped;
    } else {
      assert v.delivered + v.unflushed == (t.delivered + t.unflushed) + [f];
      assert |t.pending+[f]| == |t.pending|+1;
      assert v.emitted == |v.delivered| + |v.pending| + v.dropped;
    }
  }

  lemma {:induction false} FlushCounted(t: Transport, c: nat)
    requires Buffered(t) && Counted(t)
    ensures Counted(Flush(t, c))
  {
    FittingSuffix(t.unflushed);
    AscendingWithoutMiddle(t.delivered, t.unflushed, |t.unflushed| - |t.pending|, t.emitted);
    assert t.delivered + t.pending + [] == t.delivered + t.pending;
  }

  lemma {:induction false} NextCounted(t: Transport, s: Step)
    requires Sound(t)
    ensures Counted(Next(t, s))
  {
    if s.Emit? {
      EmitCounted(t, s.size);
    } else if s.Hello? && s.client in t.open && s.client !in t.ready {
      FlushCounted(t.(ready := t.ready + {s.client}), s.client);
    }
  }

  lemma {:induction false} NextAddressed(t: Transport, s: Step)
    requires Sound(t)
    ensures Addressed(Next(t, s))
  {
    var v := Next(t, s);
    if s.Emit? {
      assert v.received.Keys == t.received.Keys;
    } else if s.Hello? && v != t {
      assert v.received.Keys == t.received.Keys;
      assert forall d | d in t.received && d != s.client :: v.received[d] == t.received[d];
    }
  }

  lemma {:induction false} NextSound(t: Transport, s: Step)
    requires Sound(t)
    ensures Sound(Next(t, s))
  {
    NextBuffered(t, s);
    NextCounted(t, s);
    NextAddressed(t, s);
  }

  lemma {:induction false} FromSound(t: Transport, steps: seq<Step>)
    requires Sound(t)
    ensures Sound(From(t, steps))
  {
    if steps != [] {
      FromSound(t, steps[..|steps| - 1]);
      NextSound(From(t, steps[..|steps| - 1]), steps[|steps| - 1]);
    }
  }

  lemma AlwaysSound(steps: seq<Step>)
    ensures Sound(After(steps))
  {
    FromSound(START, steps);
  }

  // ---------------------------------------------------------------- the theorems

  /** Between flushes the buffer is exactly the longest suffix of the frames queued since the last flush that
      fits both limits, and the byte counter is exact. After a frame too large to keep it is empty. */
  lemma BufferIsLongestFit(steps: seq<Step>)
    ensures var t := After(steps); t.pending == LongestFit(t.unflushed) && t.bytes == Size(t.pending) && Fits(t.pending)
    ensures var t := After(steps);
      t.unflushed != [] && t.unflushed[|t.unflushed| - 1].size > MAX_REPLAY_BYTES ==> t.pending == []
  {
    AlwaysSound(steps);
    var t := After(steps);
    FittingSuffix(t.unflushed);
    if t.pending != [] {
      var n := |t.pending| - 1;
      assert t.pending == t.pending[..n] + [t.pending[n]];
      SizeAppend(t.pending[..n], t.pending[n]);
      assert t.pending[n] == t.unflushed[|t.unflushed| - 1];
    }
  }

  /** Every emitted frame was sent, is buffered or was dropped; what was sent and what is buffered are
      together still in the order of emission, each frame once. */
  lemma FramesAccountedFor(steps: seq<Step>)
    ensures var t := After(steps);
      t.emitted == |t.delivered| + |t.pending| + t.dropped && Ascending(t.delivered + t.pending, t.emitted)
  {
    AlwaysSound(steps);
    var t := After(steps);
    FittingSuffix(t.unflushed);
    AscendingWithoutMiddle(t.delivered, t.unflushed, |t.unflushed| - |t.pending|, t.emitted);
  }

  /** The frames a run of steps emits. */
  function Emissions(from: nat, steps: seq<Step>): seq<Frame> {
    if steps == [] then [] else
    var rest := steps[..|steps| - 1];
    var last := steps[|steps| - 1];
    Emissions(from, rest) + (if last.Emit? then [Frame(from + |Emissions(from, rest)|, last.size)] else [])
  }

  lemma {:induction false} Stays(t: Transport, c: nat, s: Step)
    requires Sound(t) && c in t.ready && c in t.open && s != Drop(c) && s != Leave(c)
    ensures var v := Next(t, s);
      c in v.ready && c in v.open && c in v.received && v.emitted == t.emitted + (if s.Emit? then 1 else 0)
      && v.received[c] == t.received[c] + (if s.Emit? then [Frame(t.emitted, s.size)] else [])
  {
    assert c in t.ready * t.open;
  }

  /** Between t and v, client c heard exactly what `more` emits. */
  ghost predicate Heard(t: Transport, v: Transport, c: nat, more: seq<Step>) {
    && c in t.received && c in v.received && c in v.ready && c in v.open
    && v.emitted == t.emitted + |Emissions(t.emitted, more)|
    && v.received[c] == t.received[c] + Emissions(t.emitted, more)
  }

  lemma {:induction false} HearsNext(t: Transport, u: Transport, c: nat, more: seq<Step>, s: Step)
    requires Heard(t, u, c, more) && Sound(u) && s != Drop(c) && s != Leave(c)
    ensures Heard(t, Next(u, s), c, more + [s])
  {
    Stays(u, c, s);
    assert (more + [s])[..|more|] == more;
    var heard := if s.Emit? then [Frame(u.emitted, s.size)] else [];
    assert Emissions(t.emitted, more + [s]) == Emissions(t.emitted, more) + heard;
  }

  predicate Remains(c: nat, steps: seq<Step>) { Drop(c) !in steps && Leave(c) !in steps }

  lemma {:induction false} HearsEverything(t: Transport, c: nat, more: seq<Step>)
    requires Sound(t) && c in t.ready && c in t.open && Remains(c, more)
    ensures Heard(t, From(t, more), c, more)
  {
    if more != [] {
      var before, last := more[..|more| - 1], more[|more| - 1];
      HearsEverything(t, c, before);
      FromSound(t, before);
      HearsNext(t, From(t, before), c, before, last);
      assert before + [last] == more;
    }
  }

  /** A client that says hello receives the buffered frames first, in order, and from then on, for as long as
      it stays, every later frame in order and nothing else. */
  lemma ReconnectReplays(steps: seq<Step>, c: nat, more: seq<Step>)
    requires c in After(steps).open && c !in After(steps).ready && Remains(c, more)
    ensures var t := After(steps);
      var v := From(Next(t, Hello(c)), more);
      c in v.received && v.received[c] == t.pending + Emissions(t.emitted, more)
  {
    var t := After(steps);
    AlwaysSound(steps);
    NextSound(t, Hello(c));
    assert t.received[c] + t.pending == t.pending;
    HearsEverything(Next(t, Hello(c)), c, more);
  }

  // ---------------------------------------------------------------- the session's own methods

  lemma SendNothing(received: map<nat, seq<Frame>>, to: set<nat>, frames: seq<Frame>)
    requires to == {} || frames == []
    ensures SendAll(received, to, frames) == received
  {
    assert forall c | c in received && c in to :: received[c] + frames == received[c];
  }

  lemma SendOneMore(received: map<nat, seq<Frame>>, reached: set<nat>, c: nat, f: Frame)
    requires c in received && c !in reached
    ensures var sent := SendAll(received, reached, [f]);
      c in sent && SendAll(received, reached + {c}, [f]) == sent[c := sent[c] + [f]]
  {}

  lemma ReachesOneMore(ready: set<nat>, todo: set<nat>, open: set<nat>, c: nat)
    requires c in todo && todo <= ready
    ensures (ready - (todo - {c})) * open == (ready - todo) * open + (if c in open then {c} else {})
    ensures c !in (ready - todo) * open
  {}

  lemma SendInParts(received: map<nat, seq<Frame>>, c: nat, frames: seq<Frame>, f: Frame)
    requires c in received
    ensures SendAll(received, {c}, frames + [f]) == SendAll(received, {c}, frames)[c := received[c] + frames + [f]]
  {
    assert received[c] + (frames + [f]) == received[c] + frames + [f];
  }

  class SessionTransport {
    var pendingClientFrames: seq<Frame>
    var pendingClientBytes: nat
    var droppedClientFrames: nat
    var readyClientSockets: set<nat>
    var openSockets: set<nat>
    var received: map<nat, seq<Frame>>
    ghost var delivered: seq<Frame>
    ghost var unflushed: seq<Frame>
    var emitted: nat

    ghost function Model(): Transport
      reads this
    {
      Transport(pendingClientFrames, pendingClientBytes, droppedClientFrames, readyClientSockets, openSockets,
                received, delivered, unflushed, emitted)
    }

    ghost predicate Valid()
      reads this
    {
      Sound(Model())
    }

    constructor ()
      ensures Model() == START && Valid()
    {
      pendingClientFrames, pendingClientBytes, droppedClientFrames := [], 0, 0;
      readyClientSockets, openSockets, received := {}, {}, map[];
      delivered, unflushed, emitted := [], [], 0;
      new;
      AlwaysSound([]);
    }

    method EmitFrame(size: nat)
      requires Valid()
      modifies this
      ensures Valid() && Model() == Next(old(Model()), Emit(size))
    {
      NextSound(Model(), Emit(size));
      var frame := Frame(emitted, size);
      emitted := emitted + 1;
      DeliverClientFrame(frame);
    }

    method DeliverClientFrame(frame: Frame)
      requires Buffered(Model()) && readyClientSockets <= received.Keys
      modifies this
      ensures Model() == Deliver(old(Model()), frame)
    {
      var isDelivered := SendToReady(frame);
      if isDelivered {
        delivered := delivered + [frame];
      } else {
        QueueClientFrame(frame);
      }
    }

    method SendToReady(frame: Frame) returns (isDelivered: bool)
      requires readyClientSockets <= received.Keys
      modifies this`received
      ensures isDelivered <==> readyClientSockets * openSockets != {}
      ensures received ==
        if isDelivered then SendAll(old(received), readyClientSockets * openSockets, [frame]) else old(received)
    {
      isDelivered := false;
      var todo := readyClientSockets;
      ghost var reached: set<nat>, start := {}, received;
      SendNothing(start, {}, [frame]);
      assert (readyClientSockets - todo) * openSockets == {};
      while todo != {}
        invariant todo <= readyClientSockets && reached == (readyClientSockets - todo) * openSockets
        invariant isDelivered <==> reached != {}
        invariant received == SendAll(start, reached, [frame])
        decreases |todo|
      {
        var client :| client in todo;
        ReachesOneMore(readyClientSockets, todo, openSockets, client);
        SendOneMore(start, reached, client, frame);
        var sent := SendIfOpen(client, frame);
        isDelivered := isDelivered || sent;
        todo := todo - {client};
        reached := reached + if sent then {client} else {};
      }
      assert readyClientSockets - {} == readyClientSockets;
    }

    method SendIfOpen(client: nat, frame: Frame) returns (sent: bool)
      requires client in received
      modifies this`received
      ensures sent == (client in openSockets)
      ensures received == if sent then old(received)[client := old(received)[client] + [frame]] else old(received)
    {
      sent := client in openSockets;
      if sent { received := received[client := received[client] + [frame]]; }
    }

    /** The first hello of a client. */
    method ClientHello(clientSocket: nat)
      requires Valid() && clientSocket in openSockets && clientSocket !in readyClientSockets
      modifies this
      ensures Valid() && Model() == Next(old(Model()), Hello(clientSocket))
    {
      NextSound(Model(), Hello(clientSocket));
      readyClientSockets := readyClientSockets + {clientSocket};
      FlushPendingClientFrames(clientSocket);
    }

    method FlushPendingClientFrames(clientSocket: nat)
      requires clientSocket in received
      modifies this
      ensures Model() == Flush(old(Model()), clientSocket)
    {
      var frames := pendingClientFrames;
      pendingClientFrames := [];
      ghost var start := received;
      SendNothing(start, {clientSocket}, []);
      for i := 0 to |frames|
        invariant received == SendAll(start, {clientSocket}, frames[..i])
        modifies this`received
      {
        assert frames[..i + 1] == frames[..i] + [frames[i]];
        SendInParts(start, clientSocket, frames[..i], frames[i]);
        received := received[clientSocket := received[clientSocket] + [frames[i]]];
      }
      assert frames[..|frames|] == frames;
      delivered := delivered + frames;
      unflushed := [];
      pendingClientBytes := 0;
    }

    /** Makes room from the front, one frame at a time; a frame too large for the whole buffer is dropped itself. */
    method QueueClientFrame(copy: Frame)
      requires Buffered(Model())
      modifies this
      ensures Model() == Queue(old(Model()), copy)
    {
      ghost var target := LongestFit(pendingClientFrames + [copy]);
      ghost var before := |pendingClientFrames| + droppedClientFrames;
      SizeAppend(pendingClientFrames, copy);
      while |pendingClientFrames| > 0
        && (|pendingClientFrames| >= MAX_REPLAY_FRAMES || pendingClientBytes + copy.size > MAX_REPLAY_BYTES)
        invariant LongestFit(pendingClientFrames + [copy]) == target
        invariant pendingClientBytes == Size(pendingClientFrames)
        invariant Size(pendingClientFrames + [copy]) == pendingClientBytes + copy.size
        invariant |pendingClientFrames| + droppedClientFrames == before
        modifies this`pendingClientFrames, this`pendingClientBytes, this`droppedClientFrames
        decreases |pendingClientFrames|
      {
        assert (pendingClientFrames + [copy])[1..] == pendingClientFrames[1..] + [copy];
        SizeAppend(pendingClientFrames[1..], copy);
        pendingClientBytes := pendingClientBytes - pendingClientFrames[0].size;
        pendingClientFrames := pendingClientFrames[1..];
        droppedClientFrames := droppedClientFrames + 1;
      }
      unflushed := unflushed + [copy];
      if copy.size > MAX_REPLAY_BYTES {
        assert pendingClientFrames + [copy] == [copy];
        droppedClientFrames := droppedClientFrames + 1;
        return;
      }
      pendingClientFrames := pendingClientFrames + [copy];
      pendingClientBytes := pendingClientBytes + copy.size;
    }
  }
}
