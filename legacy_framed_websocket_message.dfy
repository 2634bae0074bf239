/**
 * The older internal FramedWebSocketMessage (Akka.IO.TcpTools, used by the older
 * connection actor): the same append-only MemoryStream and the same hard-coded
 * 8-byte allowance, so it completes exactly when the newer class does.
 */
module LegacyFramedMessage {
  import opened Wire
  import opened Runtime
  import F = FramedMessage

  const Offset: nat := 8

  class FramedWebSocketMessage {
    const totalLength: nat
    const messageBytes: MemoryStream

    ghost predicate Valid()
      reads this, messageBytes
    {
      totalLength < U64_LIMIT && messageBytes.Valid()
      && (messageBytes.disposed || messageBytes.position == |messageBytes.buffer|)
    }

    constructor(totalLength: nat)
      requires totalLength < U64_LIMIT
      ensures Valid() && fresh(messageBytes)
      ensures this.totalLength == totalLength && messageBytes.buffer == [] && !messageBytes.disposed
    {
      this.totalLength := totalLength;
      messageBytes := new MemoryStream.Empty();
    }

    method ReadAllBytes() returns (r: Bytes)
      ensures r == messageBytes.buffer
    {
      r := messageBytes.ToArray();
    }

    method Write(bytes: Bytes)
      requires Valid() && !messageBytes.disposed
      modifies messageBytes
      ensures Valid() && !messageBytes.disposed
      ensures messageBytes.buffer == old(messageBytes.buffer) + bytes
    {
      messageBytes.Write(bytes);
    }

    method Close()
      requires Valid() && !messageBytes.disposed
      modifies messageBytes
      ensures Valid() && messageBytes.disposed
      ensures messageBytes.buffer == old(messageBytes.buffer)
    {
      messageBytes.Seek(0);
      messageBytes.Dispose();
    }

    /** The ulong sum wraps as in the newer class, so the answer is the newer class's. */
    method IsCompleted() returns (b: bool)
      requires Valid() && !messageBytes.disposed
      ensures b == F.Completed(totalLength, |messageBytes.buffer|)
    {
      var target := (totalLength + Offset) % U64_LIMIT;
      b := messageBytes.position >= target;
    }
  }
}
