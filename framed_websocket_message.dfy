/**
 * FramedWebSocketMessage (Akka.IO.TcpTools): the buffer a connection actor
 * fills while a message arrives over several TCP chunks. It holds a MemoryStream
 * that every Write appends to and a fixed target; the message counts as complete
 * once the stream position reaches `totalLength + 8`, a sum the source computes
 * in 64-bit unsigned arithmetic, so it wraps for the eight largest targets.
 */
module FramedMessage {
  import opened Wire
  import opened Runtime

  /** The hard-coded allowance for the frame header. */
  const Offset: nat := 8

  /** `_totalLength + Offset` as a ulong. */
  function CompletionTarget(totalLength: nat): (target: nat)
    requires totalLength < U64_LIMIT
    ensures target < U64_LIMIT
    ensures totalLength + Offset < U64_LIMIT ==> target == totalLength + Offset
    ensures totalLength + Offset >= U64_LIMIT ==> target < Offset && target + U64_LIMIT == totalLength + Offset
  {
    (totalLength + Offset) % U64_LIMIT
  }

  /**
   * What IsCompleted answers once `written` bytes are in the stream; the length
   * is a ulong, so no larger one ever reaches the buffer.
   */
  predicate Completed(totalLength: nat, written: nat)
  {
    totalLength < U64_LIMIT && written >= CompletionTarget(totalLength)
  }

  /** More bytes never make a complete message incomplete. */
  lemma CompletedMonotone(totalLength: nat, written: nat, more: nat)
    requires totalLength < U64_LIMIT && Completed(totalLength, written) && written <= more
    ensures Completed(totalLength, more)
  {
  }

  /** Below the wrap, completion is exactly "at least the payload length plus 8 bytes". */
  lemma CompletedBelowWrap(totalLength: nat, written: nat)
    requires totalLength + Offset < U64_LIMIT
    ensures Completed(totalLength, written) <==> written >= totalLength + Offset
  {
  }

  /** For the eight largest targets the sum wraps: any 8 bytes complete the message. */
  lemma CompletedAboveWrap(totalLength: nat, written: nat)
    requires U64_LIMIT - Offset <= totalLength < U64_LIMIT && written >= Offset
    ensures Completed(totalLength, written)
  {
  }

  class FramedWebSocketMessage {
    const totalLength: nat
    const messageBytes: MemoryStream

    /** The stream is only ever appended to, so until Close its cursor sits at its end. */
    ghost predicate Valid()
      reads this, messageBytes
    {
      totalLength < U64_LIMIT && messageBytes.Valid()
      && (messageBytes.disposed || messageBytes.position == |messageBytes.buffer|)
    }

    /** `new FramedWebSocketMessage(totalLength)`: an empty stream and a fixed target. */
    constructor(totalLength: nat)
      requires totalLength < U64_LIMIT
      ensures Valid() && fresh(messageBytes)
      ensures this.totalLength == totalLength && messageBytes.buffer == [] && !messageBytes.disposed
    {
      this.totalLength := totalLength;
      messageBytes := new MemoryStream.Empty();
    }

    /** ReadAllBytes: everything written so far, in order. */
    method ReadAllBytes() returns (r: Bytes)
      ensures r == messageBytes.buffer
    {
      r := messageBytes.ToArray();
    }

    /** Write: appends the bytes. */
    method Write(bytes: Bytes)
      requires Valid() && !messageBytes.disposed
      modifies messageBytes
      ensures Valid() && !messageBytes.disposed
      ensures messageBytes.buffer == old(messageBytes.buffer) + bytes
    {
      messageBytes.Write(bytes);
    }

    /** Close: rewinds and disposes the stream; its bytes stay as they were. */
    method Close()
      requires Valid() && !messageBytes.disposed
      modifies messageBytes
      ensures Valid() && messageBytes.disposed
      ensures messageBytes.buffer == old(messageBytes.buffer)
    {
      messageBytes.Seek(0);
      messageBytes.Dispose();
    }

    /** IsCompleted: the stream position against `totalLength + Offset`. */
    method IsCompleted() returns (b: bool)
      requires Valid() && !messageBytes.disposed
      ensures b == Completed(totalLength, |messageBytes.buffer|)
    {
      b := messageBytes.position >= CompletionTarget(totalLength);
    }
  }
}
