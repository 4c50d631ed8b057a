/**
 The worker's side of the brokered SQLite protocol (workerDatabaseClient.ts): a blocking request loop over
 one shared response buffer, which retries reads, and only reads, in a larger buffer.

 `replies(n)` is what the database answers to the n-th execution of the same request; between two
 executions another worker may have changed the data, so the answers may differ.
 */
module DatabaseClient {
  import opened Options

  const RESPONSE_HEADER_BYTES: nat := 8
  const MINIMUM_RESPONSE_BUFFER_BYTES: nat := 1024

  datatype Operation = Open | Exec | All | Get | Run | Close

  /** An answer before it is serialized: `bytes` is its serialized size. */
  datatype Reply<T> = Reply(ok: bool, value: T, bytes: nat)

  /** What the buffer holds once the host has written: the answer, or the notice that it did not fit. */
  datatype Payload<T> = Whole(reply: Reply<T>) | TooSmall(requiredBytes: nat)

  datatype Result<T> = Value(value: T) | Failed(reply: Reply<T>) | Overflow(requiredBytes: nat)

  predicate IsRetryableRead(operation: Operation) { operation.All? || operation.Get? }

  function WriteResponse<T>(reply: Reply<T>, bufferBytes: nat): Payload<T>
    requires bufferBytes >= RESPONSE_HEADER_BYTES
  {
    if reply.bytes > bufferBytes - RESPONSE_HEADER_BYTES then TooSmall(reply.bytes) else Whole(reply)
  }

  function Power2(n: nat): (p: nat)
    ensures p > 0
  {
    if n == 0 then 1 else 2 * Power2(n - 1)
  }

  function Min(a: nat, b: nat): nat { if a <= b then a else b }

  /** The buffer after k doublings, cut off at the maximum. */
  function Grown(current: nat, k: nat, maximum: nat): nat { Min(maximum, current * Power2(k)) }

  lemma {:induction false} GrownStep(current: nat, k: nat, maximum: nat)
    requires current <= maximum
    ensures Grown(current, k + 1, maximum) == Min(maximum, Grown(current, k, maximum) * 2)
  {
    assert current * Power2(k + 1) == current * Power2(k) * 2;
  }

  /** The next buffer size for a payload that did not fit: the first doubling that holds payload and header,
      or none when the maximum cannot hold them or the current buffer already does. */
  method ExpandedResponseBufferSize(currentBytes: nat, requiredPayloadBytes: nat, maximumBytes: nat)
    returns (size: Option<nat>)
    requires 0 < currentBytes <= maximumBytes
    ensures size.None? <==>
      || requiredPayloadBytes + RESPONSE_HEADER_BYTES > maximumBytes
      || requiredPayloadBytes + RESPONSE_HEADER_BYTES <= currentBytes
    ensures size.Some? ==> currentBytes < size.value <= maximumBytes
    ensures size.Some? ==> size.value >= requiredPayloadBytes + RESPONSE_HEADER_BYTES
    ensures size.Some? ==> size.value == maximumBytes || size.value >= 2 * currentBytes
    ensures size.Some? ==> exists k: nat ::
      && size.value == Grown(currentBytes, k + 1, maximumBytes)
      && Grown(currentBytes, k, maximumBytes) < requiredPayloadBytes + RESPONSE_HEADER_BYTES
  {
    var requiredBytes := requiredPayloadBytes + RESPONSE_HEADER_BYTES;
    if requiredBytes > maximumBytes { return None; }
    var candidate := currentBytes;
    ghost var k: nat := 0;
    while candidate < requiredBytes
      invariant currentBytes <= candidate <= maximumBytes
      invariant candidate == Grown(currentBytes, k, maximumBytes)
      invariant k > 0 ==> Grown(currentBytes, k - 1, maximumBytes) < requiredBytes
      invariant k > 0 ==> currentBytes < candidate && (candidate == maximumBytes || candidate >= 2 * currentBytes)
      invariant k == 0 ==> candidate == currentBytes
      decreases maximumBytes - candidate
    {
      GrownStep(currentBytes, k, maximumBytes);
      candidate := Min(maximumBytes, candidate * 2);
      k := k + 1;
    }
    if candidate > currentBytes {
      assert candidate == Grown(currentBytes, (k - 1) + 1, maximumBytes);
      return Some(candidate);
    }
    return None;
  }

  class ResponseChannel {
    var responseBufferBytes: nat
    var nextRequestId: nat
    const maximumBytes: nat

    ghost predicate Valid()
      reads this
    {
      MINIMUM_RESPONSE_BUFFER_BYTES <= responseBufferBytes <= maximumBytes
    }

    constructor (initial: nat, maximum: nat)
      requires MINIMUM_RESPONSE_BUFFER_BYTES <= initial <= maximum
      ensures Valid() && responseBufferBytes == initial && maximumBytes == maximum && nextRequestId == 1
    {
      responseBufferBytes, maximumBytes, nextRequestId := initial, maximum, 1;
    }

    /** One call. It terminates; every execution but the last was a read whose answer did not fit the buffer
        of that moment; the outcome is that of the last execution; the buffer only ever grows; and the
        number of retries is at most logarithmic in the room there was to grow. */
    method Request<T>(operation: Operation, replies: nat -> Reply<T>)
      returns (result: Result<T>, executions: nat)
      requires Valid()
      modifies this
      ensures Valid() && responseBufferBytes >= old(responseBufferBytes)
      ensures executions >= 1 && nextRequestId == old(nextRequestId) + executions
      ensures !IsRetryableRead(operation) ==> executions == 1 && responseBufferBytes == old(responseBufferBytes)
      ensures executions >= 2 ==> old(responseBufferBytes) * Power2(executions - 2) < maximumBytes
      ensures var last := replies(executions - 1);
        match result
        case Value(v) => last.ok && v == last.value && last.bytes + RESPONSE_HEADER_BYTES <= responseBufferBytes
        case Failed(reply) => !last.ok && reply == last && last.bytes + RESPONSE_HEADER_BYTES <= responseBufferBytes
        case Overflow(n) =>
          && n == last.bytes && last.bytes + RESPONSE_HEADER_BYTES > responseBufferBytes
          && (IsRetryableRead(operation) ==> last.bytes + RESPONSE_HEADER_BYTES > maximumBytes)
    {
      executions := 0;
      ghost var start := responseBufferBytes;
      while true
        invariant Valid() && start <= responseBufferBytes
        invariant nextRequestId == old(nextRequestId) + executions
        invariant executions > 0 ==> IsRetryableRead(operation)
        invariant executions == 0 ==> responseBufferBytes == start
        invariant responseBufferBytes >= Grown(start, executions, maximumBytes)
        invariant executions > 0 ==> start * Power2(executions - 1) < maximumBytes
        decreases maximumBytes - responseBufferBytes
      {
        nextRequestId := nextRequestId + 1;
        var payload := WriteResponse(replies(executions), responseBufferBytes);
        executions := executions + 1;
        match payload {
          case Whole(reply) =>
            result := if reply.ok then Value(reply.value) else Failed(reply);
            return;
          case TooSmall(requiredBytes) =>
            if !IsRetryableRead(operation) {
              return Overflow(requiredBytes), executions;
            }
            var nextSize := ExpandedResponseBufferSize(responseBufferBytes, requiredBytes, maximumBytes);
            if nextSize.None? {
              return Overflow(requiredBytes), executions;
            }
            GrownStep(start, executions - 1, maximumBytes);
            responseBufferBytes := nextSize.value;
        }
      }
    }
  }
}
