/**
 * What the connection actors share. An actor's mailbox hands it one message at
 * a time, so each actor is a state and a step from a state and a message to the
 * next state and the effects emitted: replies to the TCP connection
 * (`Sender.Tell(Tcp.Write …)`, `Tcp.Close`), strings handed on to the actor
 * itself for its string handler (`Self.Forward(string)`), messages put back
 * in its mailbox (`Self.Forward(message)`), and stopping. `BecomeStacked` and
 * `UnbecomeStacked` switch between the default handler and the frame handler.
 */
module ActorProtocol {
  import opened Wire

  /** The messages an actor's handlers are registered for. */
  datatype Message = TcpReceived(data: Bytes) | TcpPeerClosed | Text(text: string)

  /** The effects of one handler invocation, in order. */
  datatype Action =
    | Write(bytes: Bytes)          // Sender.Tell(Tcp.Write.Create(bytes))
    | TcpClose                     // Sender.Tell(Tcp.Close.Instance)
    | Deliver(text: string)        // Self.Forward(decoded string)
    | Forward(message: Message)    // Self.Forward(message): handled again later
    | Stop                         // Context.Stop(Self)
    | GracefulStop                 // Self.GracefulStop(5 s)

  /** A FramedWebSocketMessage: its target and the bytes written into it. */
  datatype Pending = Pending(totalLength: nat, received: Bytes)

  /**
   * Default handler; frame handler on top of the stack, with the buffer field
   * (None when `_framedWebSocketMessage` is null); stopped.
   */
  datatype ConnectionState = Default | Accumulating(buffer: Option<Pending>) | Stopped

  datatype Step = Step(next: ConnectionState, actions: seq<Action>)

  /**
   * OnFrameReceived, the same in the three actors up to how completion is
   * decided and how the bytes are read: a chunk is appended; on completion the
   * default handler is restored and the text delivered, an exception while
   * reading being only logged; without a buffer the chunk is handed back to the
   * default handler; anything else is put back in the mailbox.
   */
  function Accumulate(completed: (nat, nat) -> bool, read: Bytes -> Try<string>,
                      buffer: Option<Pending>, message: Message): (r: Step)
    ensures r.next != Stopped && Stop !in r.actions && TcpClose !in r.actions
    ensures !message.TcpReceived? ==> r == Step(Accumulating(buffer), [Forward(message)])
    ensures message.TcpReceived? && buffer.None? ==> r == Step(Default, [Forward(message)])
    ensures message.TcpReceived? && buffer.Some? ==>
              var received := buffer.value.received + message.data;
              if completed(buffer.value.totalLength, |received|) then
                r.next == Default && r.actions == (if read(received).Returns? then [Deliver(read(received).value)] else [])
              else
                r == Step(Accumulating(Some(Pending(buffer.value.totalLength, received))), [])
  {
    match message
    case TcpReceived(data) =>
      (match buffer
       case None => Step(Default, [Forward(message)])
       case Some(pending) =>
         var received := pending.received + data;
         if completed(pending.totalLength, |received|) then
           match read(received)
           case Returns(text) => Step(Default, [Deliver(text)])
           case Throws => Step(Default, [])
         else Step(Accumulating(Some(Pending(pending.totalLength, received))), []))
    case _ => Step(Accumulating(buffer), [Forward(message)])
  }

  /** The mailbox processing messages one after another: the last state, and all effects in order. */
  function Run(step: (ConnectionState, Message) -> Step, state: ConnectionState, messages: seq<Message>): (r: Step)
    decreases |messages|
  {
    if |messages| == 0 then Step(state, [])
    else
      var first := step(state, messages[0]);
      var rest := Run(step, first.next, messages[1..]);
      Step(rest.next, first.actions + rest.actions)
  }

  /** TCP chunks as the messages that carry them. */
  function Chunks(chunks: seq<Bytes>): (messages: seq<Message>)
    ensures |messages| == |chunks|
    ensures forall i :: 0 <= i < |chunks| ==> messages[i] == TcpReceived(chunks[i])
  {
    if |chunks| == 0 then [] else [TcpReceived(chunks[0])] + Chunks(chunks[1..])
  }

  /** An actor that stops no longer handles anything. */
  ghost predicate StopsForGood(step: (ConnectionState, Message) -> Step)
  {
    forall m :: step(Stopped, m) == Step(Stopped, [])
  }

  /** Once stopped, any further mail leaves the actor stopped and silent. */
  lemma {:induction false} StoppedStaysSilent(step: (ConnectionState, Message) -> Step, messages: seq<Message>)
    requires StopsForGood(step)
    ensures Run(step, Stopped, messages) == Step(Stopped, [])
    decreases |messages|
  {
    if |messages| > 0 {
      StoppedStaysSilent(step, messages[1..]);
    }
  }

  /** An actor whose frame handler is `Accumulate` with the given completion test and reader. */
  ghost predicate AccumulatesWith(step: (ConnectionState, Message) -> Step,
                            completed: (nat, nat) -> bool, read: Bytes -> Try<string>)
  {
    forall buffer, m :: step(Accumulating(buffer), m) == Accumulate(completed, read, buffer, m)
  }

  /**
   * A buffered message fed chunk by chunk, incomplete until the last chunk:
   * the actor emits nothing until then, and then exactly one delivery of all the
   * bytes in order (none if reading them throws), and is back in its default
   * handler.
   */
  lemma {:induction false} AccumulationDeliversOnce(step: (ConnectionState, Message) -> Step,
      completed: (nat, nat) -> bool, read: Bytes -> Try<string>, pending: Pending, chunks: seq<Bytes>)
    requires AccumulatesWith(step, completed, read)
    requires |chunks| > 0
    requires forall k :: 0 < k < |chunks| ==>
               !completed(pending.totalLength, |pending.received + Flatten(chunks[..k])|)
    requires completed(pending.totalLength, |pending.received + Flatten(chunks)|)
    ensures var all := pending.received + Flatten(chunks);
            Run(step, Accumulating(Some(pending)), Chunks(chunks))
            == Step(Default, if read(all).Returns? then [Deliver(read(all).value)] else [])
    decreases |chunks|
  {
    var first := chunks[0];
    var after := Pending(pending.totalLength, pending.received + first);
    var s1 := Accumulate(completed, read, Some(pending), TcpReceived(first));
    assert step(Accumulating(Some(pending)), TcpReceived(first)) == s1;
    RunFirstChunk(step, Accumulating(Some(pending)), chunks);
    FlattenFirst(chunks);
    if |chunks| == 1 {
      assert chunks[1..] == [];
      assert Flatten(chunks) == first;
    } else {
      var rest := chunks[1..];
      PrefixesAfterFirst(completed, pending, chunks);
      assert s1 == Step(Accumulating(Some(after)), []);
      AccumulationDeliversOnce(step, completed, read, after, rest);
    }
  }

  /** One step of Run on a queue of chunks. */
  lemma RunFirstChunk(step: (ConnectionState, Message) -> Step, state: ConnectionState, chunks: seq<Bytes>)
    requires |chunks| > 0
    ensures var first := step(state, TcpReceived(chunks[0]));
            var rest := Run(step, first.next, Chunks(chunks[1..]));
            Run(step, state, Chunks(chunks)) == Step(rest.next, first.actions + rest.actions)
  {
    assert Chunks(chunks)[1..] == Chunks(chunks[1..]);
  }

  /** The incomplete prefixes of a queue, seen after its first chunk has been appended. */
  lemma PrefixesAfterFirst(completed: (nat, nat) -> bool, pending: Pending, chunks: seq<Bytes>)
    requires |chunks| > 1
    requires forall k :: 0 < k < |chunks| ==>
               !completed(pending.totalLength, |pending.received + Flatten(chunks[..k])|)
    ensures !completed(pending.totalLength, |pending.received + chunks[0]|)
    ensures forall k :: 0 < k < |chunks[1..]| ==>
              !completed(pending.totalLength, |pending.received + chunks[0] + Flatten(chunks[1..][..k])|)
    ensures pending.received + Flatten(chunks) == pending.received + chunks[0] + Flatten(chunks[1..])
  {
    FlattenFirst(chunks);
    PrefixShift(chunks, 0);
    assert chunks[1..][..0] == [];
    assert Flatten(chunks[..1]) == chunks[0];
    assert !completed(pending.totalLength, |pending.received + Flatten(chunks[..1])|);
    forall k | 0 < k < |chunks[1..]|
      ensures !completed(pending.totalLength, |pending.received + chunks[0] + Flatten(chunks[1..][..k])|)
    {
      PrefixShift(chunks, k);
      var whole := pending.received + Flatten(chunks[..k + 1]);
      var shifted := pending.received + chunks[0] + Flatten(chunks[1..][..k]);
      assert |whole| == |shifted|;
      assert !completed(pending.totalLength, |whole|);
    }
  }

  lemma PrefixShift(chunks: seq<Bytes>, k: nat)
    requires k < |chunks|
    ensures Flatten(chunks[..k + 1]) == chunks[0] + Flatten(chunks[1..][..k])
  {
    FlattenFirst(chunks[..k + 1]);
    assert chunks[..k + 1][1..] == chunks[1..][..k];
    assert chunks[..k + 1][0] == chunks[0];
  }
}
