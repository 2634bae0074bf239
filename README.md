# Akka.IO.TcpTools WebSocket framing, modelled in Dafny

Akka.IO.TcpTools serves WebSocket connections over Akka.IO TCP actors. Its
core is RFC 6455 framing:

- **Header helpers (`MessageTools`, two revisions).** They classify the opcode
  and reject reserved bits. They read the 7-, 16- or 64-bit payload length,
  build unmasked control frames and hold canned Close, Ping and Pong frames
  carrying code 1000. They also find the `Sec-WebSocket-Key` header and frame
  the `101 Switching Protocols` answer.
- **Payload decoders.** `WebSocketMessageDecoder` comes in two copies. They
  differ only in that the Standard one reads FIN and MASK through `IsFinal()`
  and `IsMasked()` and copies the input with `ToArray()` before unmasking.
  `ByteStringReaderV2.Read` is the third decoder. Each walks the header to
  offset 2, 4 or 10 and XOR-unmasks the payload with the 4-byte key
  (section 5.3 of RFC 6455).
- **`FramedWebSocketMessage` (two copies).** An append-only buffer for a
  message that arrives in several TCP chunks. It is complete once it holds
  `totalLength + 8` bytes.
- **The actors that dispatch each TCP chunk.**
  - Three revisions of the connection actor: V2, Standard and older.
  - The stream actor, which holds back chunks of at least 512 bytes and
    dispatches them joined with the next shorter chunk.

The model keeps the code's quirks:

- `GetMessageTotalLength` returns 0 for a length field of 125.
- The actors compare the payload length with the whole chunk, header included.
- `ByteStringReaderV2.Read` decodes an unmasked frame from index 2, whatever
  the length of the header.
- V2 answers a Pong with a Ping.
- No actor remembers that the handshake is done.
- V2 answers a Close frame by sending Tcp.Close and stopping; the Standard
  and older actors write their canned close frame and carry on.

The model is organised as follows:

- Bytes are integers in 0..255.
- A call that can throw returns `Try` (`Returns(v)` or `Throws`), so each
  actor's catch block is modelled.
- Foreign services are fields of a `Platform` value:
  - text encodings;
  - `ByteString.ToString`;
  - SHA-1 followed by Base64.
- Each actor is a pure step function from a state and a message to the next
  state and the emitted actions. The state is `Default`, `Accumulating(buffer)`
  or `Stopped`, or the fragment queue for the stream actor. A class with the
  actor's fields has methods proved to take that step.
- The MemoryStream cursor and Array.Reverse code of `GetMessageTotalLength` is
  a method over arrays, proved against a function.
- The masking loops are methods proved against the functions of the decoders.

## Model

| member | source | states |
|---|---|---|
| Wire.BigEndian | src/Akka.IO.TcpTools/MessageTools.cs:84-97 | a big-endian length of n bytes lies below 256^n |
| Wire.Reversed | src/Akka.IO.TcpTools/MessageTools.cs:86-95 | the reversed array has the same length and holds byte len-1-i at index i |
| Wire.LittleEndianOfReversed | src/Akka.IO.TcpTools/WebSocketMessageDecoder.cs:51-59 | BitConverter on the reversed bytes reads the original bytes big-endian |
| Wire.StreamBytes | src/Akka.IO.TcpTools/MessageTools.cs:70-77 | a read into a zeroed buffer holds the stream's bytes, then zeros past its end |
| Wire.StreamBytesInside | src/Akka.IO.TcpTools/MessageTools.cs:70-77 | a read that stays inside the stream returns exactly the slice |
| Wire.XorBitsTwice | src/Akka.IO.TcpTools/WebSocketMessageDecoder.cs:80 | XOR-ing twice with the same key gives the value back |
| Wire.XorTwice | src/Akka.IO.TcpTools/WebSocketMessageDecoder.cs:80 | byte XOR is its own inverse |
| Wire.MaskInvolution | src/Akka.IO.TcpTools/WebSocketMessageDecoder.cs:72-83 | masking keeps the length, and unmasking with the same key restores the payload |
| Wire.FlattenFirst | src/Akka.IO.TcpTools/Actor/WebSocketStreamActorBase.cs:59-67 | concatenating a queue gives its first chunk followed by the rest concatenated |
| Strings.TrimStart | src/Akka.IO.TcpTools/MessageTools.cs:52 | the result is a suffix, all of the removed prefix is white space, and the result does not start with white space |
| Strings.TrimEnd | src/Akka.IO.TcpTools/MessageTools.cs:52 | the result is a prefix, all of the removed suffix is white space, and the result does not end with white space |
| Strings.Trim | src/Akka.IO.TcpTools/MessageTools.cs:52 | no white space at either end, and "" exactly when the string is all white space |
| Strings.TrimSurrounded | src/Akka.IO.TcpTools/MessageTools.cs:52 | white space, a core, then white space trims to the core |
| Strings.FindFrom | src/Akka.IO.TcpTools/MessageTools.cs:49 | finds the leftmost occurrence at or after the start, and none when there is none |
| Strings.RestOfLine | src/Akka.IO.TcpTools/MessageTools.cs:10 | ".*" takes the text up to the next '\n' or the end, and no '\n' |
| Strings.RestOfLineIs | src/Akka.IO.TcpTools/MessageTools.cs:10 | a line ended by '\n' or by the end of the text is read whole |
| FrameHeader.Opcode | src/Akka.IO.TcpTools/MessageTools.cs:150 | `b0 & 15` is a nibble |
| FrameHeader.ReservedBits | src/Akka.IO.TcpTools/MessageTools.cs:166-171 | the RSV field has three bits |
| FrameHeader.LengthField | src/Akka.IO.TcpTools/MessageTools.cs:80 | `b1 & 0x7F` is below 128 |
| FrameHeader.FirstByteLayout | src/Akka.IO.TcpTools/MessageTools.cs:150-171 | byte 0 is FIN, then three RSV bits, then the opcode |
| FrameHeader.ParseHeader | src/Akka.IO.TcpTools/WebSocketMessageDecoder.cs:47-60 | succeeds exactly when 2, 4 or 10 bytes are there; gives the MASK bit, the offset 2/4/10 and the 7-bit, 16-bit or 64-bit big-endian length |
| FrameHeader.ReversedLength | src/Akka.IO.TcpTools/WebSocketMessageDecoder.cs:51-59 | BitConverter on the reversed 2 or 8 bytes is the big-endian length, below 2^64 |
| FrameHeader.LengthCode | src/Akka.IO.TcpTools/WebSocketMessageDecoder.cs:47-60 | the encoder's 7-bit length code fits 7 bits |
| FrameHeader.ExtendedLength | src/Akka.IO.TcpTools/WebSocketMessageDecoder.cs:47-60 | the extended length has 0, 2 or 8 bytes by payload size, and reads back big-endian as that size |
| FrameHeader.ParseEncodedFrame | src/Akka.IO.TcpTools/WebSocketMessageDecoder.cs:47-60 | the header walk recovers the MASK bit, the length and the header end of every encoded frame |
| StandardMessageTypes.Value | src/Akka.IO.TcpTools.Standard/StandardMessageType.cs:6-44 | every enum value fits in a byte |
| StandardMessageTypes.ValueInjective | src/Akka.IO.TcpTools.Standard/StandardMessageType.cs:11-43 | distinct members have distinct values |
| StandardMessageTypes.NamedValuesAreNibbles | src/Akka.IO.TcpTools.Standard/StandardMessageType.cs:38-43 | a member is named exactly when its value fits the 4-bit opcode, so no nibble denotes Invalid = 255 |
| StandardMessageTypes.ReservedNibblesUnnamed | src/Akka.IO.TcpTools.Standard/StandardMessageType.cs:39-42 | no member has a value in 3-7 or 11-15 |
| StandardMessageTypes.ControlKindsAreHighOpcodes | src/Akka.IO.TcpTools.Standard/StandardMessageType.cs:26-36 | among named members, Close, Ping and Pong are exactly those of value 8 or more |
| LegacyMessageTypes.Value | Akka.IO.TcpTools/StandardMessageType.cs:3-12 | the byte-based enum's values fit in 0..255 |
| LegacyMessageTypes.ToStandard | Akka.IO.TcpTools/StandardMessageType.cs:5-11 | each older member maps to the Standard member with the same value |
| LegacyMessageTypes.EnumsAgree | Akka.IO.TcpTools/StandardMessageType.cs:5-11 | the correspondence is one to one: every Standard member has exactly one older counterpart |
| CloseCodes.Code | src/Akka.IO.TcpTools.Standard/CloseCode.cs:3-9 | the codes lie in 1000..1002 |
| CloseCodes.CloseBody | src/Akka.IO.TcpTools.Standard/CloseCode.cs:3-9 | a close body has two bytes and reads back big-endian as the code |
| CloseCodes.CodesConsecutive | src/Akka.IO.TcpTools.Standard/CloseCode.cs:5-7 | NormalClosure, GoingAway and ProtocolError are consecutive |
| CloseCodes.CodesInCloseRange | src/Akka.IO.TcpTools.Standard/CloseCode.cs:3-7 | every code fits the 2-byte close payload |
| CloseCodes.NormalClosureBody | src/Akka.IO.TcpTools.Standard/CloseCode.cs:5 | NormalClosure is sent as 03 E8 |
| Runtime.Min | src/Akka.IO.TcpTools/MessageTools.cs:213 | the minimum is below both and is one of them |
| Runtime.MemoryStream.Read | src/Akka.IO.TcpTools/MessageTools.cs:70-77 | copies min(count, remaining) bytes from the cursor, advances it, and leaves the rest of the array alone |
| Runtime.MemoryStream.Write | src/Akka.IO.TcpTools/FramedWebSocketMessage.cs:31-34 | overwrites from the cursor, extends the buffer and advances the cursor |
| Runtime.MemoryStream.ToArray | src/Akka.IO.TcpTools/FramedWebSocketMessage.cs:22-25 | returns the whole buffer |
| Runtime.Reverse | src/Akka.IO.TcpTools/MessageTools.cs:86-95 | Array.Reverse leaves the reversed contents in place |
| MessageTools.CannedFrames | src/Akka.IO.TcpTools/MessageTools.cs:15-40 | Close, Ping and Pong are FIN frames of length 2 whose payload is the NormalClosure body, with the right opcodes |
| MessageTools.GetSecWebSocketKey | src/Akka.IO.TcpTools/MessageTools.cs:10-56 | "" when no "Sec-WebSocket-Key:" occurs, and also exactly when the rest of the first matching line is blank; never white space at either end |
| MessageTools.KeyFromHeaderLine | src/Akka.IO.TcpTools/MessageTools.cs:10-56 | the first header line yields its trimmed value, whatever the spacing after the colon |
| MessageTools.CreateAck | src/Akka.IO.TcpTools/MessageTools.cs:132-141 | the status, Upgrade, Connection and Accept lines with base64(sha1(key + magic)), each followed by CRLF, then an empty CRLF line |
| MessageTools.GetMessageType | src/Akka.IO.TcpTools/MessageTools.cs:148-174 | throws exactly on an empty array; a set RSV bit gives Invalid; a named type has the opcode as its value |
| MessageTools.MessageTypeReadsSevenBits | src/Akka.IO.TcpTools/MessageTools.cs:148-174 | only the low 7 bits of byte 0 matter, so FIN never changes the result |
| MessageTools.MessageTypeExamples | src/Akka.IO.TcpTools/MessageTools.cs:150-171 | [] throws, [11] is Invalid, [2] is Binary, the canned frames are Close, Ping and Pong, 0xC1 is Invalid |
| MessageTools.MessageTotalLength | src/Akka.IO.TcpTools/MessageTools.cs:63-100 | the declared payload length is below 2^64 |
| MessageTools.ReadReversedLength | src/Akka.IO.TcpTools/MessageTools.cs:84-97 | reading width bytes, reversing and converting gives their big-endian value |
| MessageTools.GetMessageTotalLength | src/Akka.IO.TcpTools/MessageTools.cs:63-100 | the stream-and-reverse method computes MessageTotalLength |
| MessageTools.GetMessageTotalLengthV2 | src/Akka.IO.TcpTools/MessageTools.cs:102-121 | 0 for an empty array; otherwise it succeeds exactly when the header does and gives its length, 125 included |
| MessageTools.TotalLengthOfHeader | src/Akka.IO.TcpTools/MessageTools.cs:63-100 | on a complete header the total length is the declared length, except 0 for the field value 125 |
| MessageTools.TotalLengthVersions | src/Akka.IO.TcpTools/MessageTools.cs:63-121 | the two revisions agree except on the field value 125 |
| MessageTools.TotalLengthOfEncodedFrame | src/Akka.IO.TcpTools/MessageTools.cs:63-121 | on any encoded frame V2 gives the payload length, and the first revision does too unless it is 125 |
| MessageTools.TotalLengthExamples | src/Akka.IO.TcpTools/MessageTools.cs:80-83 | [81 7D] gives 0 and 125; the 7-byte ping gives 5; a 1-byte array throws in V2 and gives 0 in the first revision |
| MessageTools.ControlFrame | src/Akka.IO.TcpTools/MessageTools.cs:206-223 | n + 2 bytes: the opcode, the length byte min(n, 125), then the payload from index 2 |
| MessageTools.ControlFrameEncoding | src/Akka.IO.TcpTools/MessageTools.cs:206-223 | up to 125 bytes it is the unmasked RFC frame; beyond that the length field says 125 |
| MessageTools.ControlFrameTypes | src/Akka.IO.TcpTools/MessageTools.cs:185-204 | built Close, Ping and Pong frames are classified as such |
| MessageTools.FabricateMessage | src/Akka.IO.TcpTools/MessageTools.cs:206-223 | unmasked: the control frame; masked: n + 2 zero bytes |
| MessageTools.CreateCloseMessage | src/Akka.IO.TcpTools/MessageTools.cs:185-190 | the Close control frame of the encoded text |
| MessageTools.CreatePingMessage | src/Akka.IO.TcpTools/MessageTools.cs:192-197 | the Ping control frame of the encoded text |
| MessageTools.CreatePongMessage | src/Akka.IO.TcpTools/MessageTools.cs:199-204 | the Pong control frame of the encoded text |
| LegacyMessageTools.CannedFramesAgree | Akka.IO.TcpTools/MessageTools.cs:10-12 | the older canned frames are byte for byte the newer ones |
| LegacyMessageTools.GetSecWebSocketKey | Akka.IO.TcpTools/MessageTools.cs:9-28 | "" without a "Sec-WebSocket-Key: " match, and also exactly when the rest of the first matching line is blank; never white space at either end |
| LegacyMessageTools.KeyFromHeaderLine | Akka.IO.TcpTools/MessageTools.cs:9-28 | after the one required space, the trimmed rest of the first matching line |
| LegacyMessageTools.KeySearchesDiverge | Akka.IO.TcpTools/MessageTools.cs:9-28 | on "Sec-WebSocket-Key:abc" the newer search finds "abc" and the older finds "" |
| LegacyMessageTools.GetMessageType | Akka.IO.TcpTools/MessageTools.cs:106-132 | throws exactly when the newer one does, and otherwise gives the same member |
| LegacyMessageTools.GetMessageTotalLength | Akka.IO.TcpTools/MessageTools.cs:35-67 | the same value as the newer revision, 0 on an empty array too |
| LegacyMessageTools.CreateAck | Akka.IO.TcpTools/MessageTools.cs:79-99 | the StringBuilder response is the same text as the newer CreateAck |
| WebSocketMessageDecoder.Payload | src/Akka.IO.TcpTools/WebSocketMessageDecoder.cs:62-83 | a zero length gives []; unmasked gives the suffix; masked succeeds exactly when the bytes are there and gives length bytes, each XOR key[i mod 4] |
| WebSocketMessageDecoder.DecodedBytes | src/Akka.IO.TcpTools/WebSocketMessageDecoder.cs:36-84 | [] for empty input or a zero length; throws when the header is cut short; an unmasked frame gives the suffix after the header; a masked one succeeds exactly when the bytes are there and gives them unmasked with the key that follows the length |
| WebSocketMessageDecoder.Unmask | src/Akka.IO.TcpTools/WebSocketMessageDecoder.cs:72-83 | the loop computes the masked branch of Payload, throwing off the end |
| WebSocketMessageDecoder.DecodeAsBytes | src/Akka.IO.TcpTools/WebSocketMessageDecoder.cs:36-84 | the method computes DecodedBytes |
| WebSocketMessageDecoder.DecodeAsString | src/Akka.IO.TcpTools/WebSocketMessageDecoder.cs:13-29 | "" for empty input or empty bytes, a throw exactly when decoding throws, otherwise the decoded text |
| WebSocketMessageDecoder.DecodeEncodedFrame | src/Akka.IO.TcpTools/WebSocketMessageDecoder.cs:36-84 | decoding any encoded frame, masked or not, gives its payload back |
| WebSocketMessageDecoder.MaskedHello | src/Akka.IO.TcpTools/MessageTools.cs:243-244 | the RFC 6455 section 5.7 frame decodes to "Hello" |
| WebSocketMessageDecoder.FirstByteIgnored | src/Akka.IO.TcpTools/WebSocketMessageDecoder.cs:43-45 | FIN and opcode are unused: any first byte decodes alike |
| StandardWebSocketMessageDecoder.DecodedBytes | src/Akka.IO.TcpTools.Standard/WebSocketMessageDecoder.cs:38-88 | [] for empty input or a zero length; throws on a short header; an unmasked frame gives the suffix after the header |
| StandardWebSocketMessageDecoder.DecodeAsBytes | src/Akka.IO.TcpTools.Standard/WebSocketMessageDecoder.cs:38-88 | the method computes DecodedBytes |
| StandardWebSocketMessageDecoder.DecodeAsString | src/Akka.IO.TcpTools.Standard/WebSocketMessageDecoder.cs:15-31 | "" for empty input or empty bytes, a throw exactly when decoding throws, otherwise the decoded text |
| StandardWebSocketMessageDecoder.AgreesWithDecoder | src/Akka.IO.TcpTools.Standard/WebSocketMessageDecoder.cs:45-87 | with IsMasked testing bit 0x80 of byte 1, both decoders agree on every input |
| StandardWebSocketMessageDecoder.MaskTestMatters | src/Akka.IO.TcpTools.Standard/WebSocketMessageDecoder.cs:46 | on every masked frame with a payload, a MASK test answering "unmasked" returns at least 4 more bytes than the other decoder, or bytes where it throws, so the two differ |
| ByteStringReaderV2.ReadText | src/Akka.IO.TcpTools/ByteStringReaderV2.cs:44-95 | "" for empty input or a zero length; throws on a short header; an unmasked frame decodes from index 2 |
| ByteStringReaderV2.Read | src/Akka.IO.TcpTools/ByteStringReaderV2.cs:44-95 | the method computes ReadText |
| ByteStringReaderV2.ReadUtf8 | src/Akka.IO.TcpTools/ByteStringReaderV2.cs:12-36 | the overloads without an encoding read with UTF-8 |
| ByteStringReaderV2.MaskedAgreesWithDecoder | src/Akka.IO.TcpTools/ByteStringReaderV2.cs:82-94 | a masked frame is read as the decoder's bytes, and throws exactly when the decoder does |
| ByteStringReaderV2.UnmaskedIncludesExtendedLength | src/Akka.IO.TcpTools/ByteStringReaderV2.cs:75-80 | an unmasked frame is read as the extended length bytes followed by the decoder's bytes |
| ByteStringReaderV2.SixteenBitUnmaskedExample | src/Akka.IO.TcpTools/ByteStringReaderV2.cs:75-80 | 81 7E 00 01 41 reads 00 01 41, where the decoder gives 41 |
| ByteStringReaderV2.ReadControlFrame | src/Akka.IO.TcpTools/ByteStringReaderV2.cs:70-80 | a built control frame reads as its payload, or "" when empty |
| ByteStringReaderV2.ReadPingMessage | src/Akka.IO.TcpTools/ByteStringReaderV2.cs:70-80 | a ping built from a text reads back as that text |
| FramedMessage.CompletionTarget | src/Akka.IO.TcpTools/FramedWebSocketMessage.cs:8-52 | `totalLength + 8` as a ulong, wrapping below 8 past 2^64 |
| FramedMessage.CompletedMonotone | src/Akka.IO.TcpTools/FramedWebSocketMessage.cs:31-52 | once complete, further writes keep it complete |
| FramedMessage.CompletedBelowWrap | src/Akka.IO.TcpTools/FramedWebSocketMessage.cs:8-52 | without wrap-around, complete exactly at totalLength + 8 bytes |
| FramedMessage.CompletedAboveWrap | src/Akka.IO.TcpTools/FramedWebSocketMessage.cs:8-52 | a target that wraps is complete after 8 bytes |
| FramedMessage.FramedWebSocketMessage.constructor | src/Akka.IO.TcpTools/FramedWebSocketMessage.cs:12-16 | a new buffer is empty, open, with the given target |
| FramedMessage.FramedWebSocketMessage.ReadAllBytes | src/Akka.IO.TcpTools/FramedWebSocketMessage.cs:22-25 | returns everything written, in order |
| FramedMessage.FramedWebSocketMessage.Write | src/Akka.IO.TcpTools/FramedWebSocketMessage.cs:31-34 | appends the bytes; the target does not change |
| FramedMessage.FramedWebSocketMessage.Close | src/Akka.IO.TcpTools/FramedWebSocketMessage.cs:39-43 | disposes the stream; contents unchanged |
| FramedMessage.FramedWebSocketMessage.IsCompleted | src/Akka.IO.TcpTools/FramedWebSocketMessage.cs:49-52 | compares the bytes written with the wrapped target |
| LegacyFramedMessage.FramedWebSocketMessage.constructor | Akka.IO.TcpTools/FramedWebSocketMessage.cs:9-13 | a new buffer is empty, open, with the given target |
| LegacyFramedMessage.FramedWebSocketMessage.ReadAllBytes | Akka.IO.TcpTools/FramedWebSocketMessage.cs:15-18 | returns everything written, in order |
| LegacyFramedMessage.FramedWebSocketMessage.Write | Akka.IO.TcpTools/FramedWebSocketMessage.cs:20-23 | appends the bytes; the target does not change |
| LegacyFramedMessage.FramedWebSocketMessage.Close | Akka.IO.TcpTools/FramedWebSocketMessage.cs:25-29 | disposes the stream; contents unchanged |
| LegacyFramedMessage.FramedWebSocketMessage.IsCompleted | Akka.IO.TcpTools/FramedWebSocketMessage.cs:5-34 | the same completion test as the newer copy |
| ActorProtocol.Accumulate | src/Akka.IO.TcpTools/Actor/WebSocketConnectionActorBaseV2.cs:161-201 | a non-chunk is forwarded back; without a buffer the chunk goes back to the default handler; otherwise it is appended and delivered on completion; the frame handler never stops the actor or closes TCP |
| ActorProtocol.Chunks | src/Akka.IO.TcpTools/Actor/WebSocketConnectionActorBaseV2.cs:46 | one Tcp.Received message per chunk, in order |
| ActorProtocol.StoppedStaysSilent | src/Akka.IO.TcpTools/Actor/WebSocketConnectionActorBaseV2.cs:151-154 | a stopped actor handles nothing more |
| ActorProtocol.AccumulationDeliversOnce | src/Akka.IO.TcpTools/Actor/WebSocketConnectionActorBaseV2.cs:161-195 | chunks that complete the buffer only at the last one deliver exactly one read of all the bytes and return to Default |
| ConnectionActorV2.DataStep | src/Akka.IO.TcpTools/Actor/WebSocketConnectionActorBaseV2.cs:97-144 | accumulates exactly when the declared length exceeds the chunk; otherwise delivers the read text, or sends Tcp.Close then a graceful stop when the read throws |
| ConnectionActorV2.ControlStep | src/Akka.IO.TcpTools/Actor/WebSocketConnectionActorBaseV2.cs:208-229 | writes the reply frame of the read payload, or closes and gracefully stops on a throw |
| ConnectionActorV2.ReceivedStep | src/Akka.IO.TcpTools/Actor/WebSocketConnectionActorBaseV2.cs:46-90 | a key chunk writes only the ack; a type that cannot be read closes and gracefully stops; Text and Binary take DataStep, Ping answers with a Pong and Pong with a Ping; Close, Continuation and Invalid send Tcp.Close then stop, and nothing else stops |
| ConnectionActorV2.StepV2 | src/Akka.IO.TcpTools/Actor/WebSocketConnectionActorBaseV2.cs:46-252 | the actor stops exactly on PeerClosed or a Close, Continuation or Invalid frame in the default handler; Stop is emitted exactly then; Tcp.Close, when sent, comes first |
| ConnectionActorV2.StepKeepsWellFormed | src/Akka.IO.TcpTools/Actor/WebSocketConnectionActorBaseV2.cs:169-174 | the frame handler always has a buffer, so the null branch is never taken |
| ConnectionActorV2.RunKeepsWellFormed | src/Akka.IO.TcpTools/Actor/WebSocketConnectionActorBaseV2.cs:161-201 | the same over any sequence of messages |
| ConnectionActorV2.StoppedV2 | src/Akka.IO.TcpTools/Actor/WebSocketConnectionActorBaseV2.cs:151-246 | after stopping, no message has an effect |
| ConnectionActorV2.AccumulationV2 | src/Akka.IO.TcpTools/Actor/WebSocketConnectionActorBaseV2.cs:161-195 | a message split over chunks is delivered once, as one read of all its bytes |
| ConnectionActorV2.PingAnsweredWithPong | src/Akka.IO.TcpTools/Actor/WebSocketConnectionActorBaseV2.cs:208-215 | a ping carrying a text is answered with a pong carrying that text |
| ConnectionActorV2.PongAnsweredWithPing | src/Akka.IO.TcpTools/Actor/WebSocketConnectionActorBaseV2.cs:222-229 | a pong is answered with a ping |
| ConnectionActorV2.UnlistedFramesStop | src/Akka.IO.TcpTools/Actor/WebSocketConnectionActorBaseV2.cs:57-82 | a frame whose byte 0 has opcode 0 or 8, a reserved opcode or an RSV bit set makes the actor send Tcp.Close and stop |
| ConnectionActorV2.WrappedTargetCompletesAtOnce | src/Akka.IO.TcpTools/Actor/WebSocketConnectionActorBaseV2.cs:184-195 | a target that wraps past 2^64 completes on the next chunk |
| ConnectionActorV2.FailedReadLeavesDefault | src/Akka.IO.TcpTools/Actor/WebSocketConnectionActorBaseV2.cs:184-200 | a read that throws after completion is only logged, and the actor is back in Default |
| ConnectionActorV2.WebSocketConnectionActor.constructor | src/Akka.IO.TcpTools/Actor/WebSocketConnectionActorBaseV2.cs:46 | a new actor is in the default handler without a buffer |
| ConnectionActorV2.WebSocketConnectionActor.Receive | src/Akka.IO.TcpTools/Actor/WebSocketConnectionActorBaseV2.cs:46-252 | handling a message takes exactly StepV2 |
| ConnectionActorV2.WebSocketConnectionActor.OnReceived | src/Akka.IO.TcpTools/Actor/WebSocketConnectionActorBaseV2.cs:46-90 | takes ReceivedStep |
| ConnectionActorV2.WebSocketConnectionActor.OnDataReceived | src/Akka.IO.TcpTools/Actor/WebSocketConnectionActorBaseV2.cs:97-144 | takes DataStep |
| ConnectionActorV2.WebSocketConnectionActor.OnPingReceived | src/Akka.IO.TcpTools/Actor/WebSocketConnectionActorBaseV2.cs:208-215 | takes the Pong ControlStep |
| ConnectionActorV2.WebSocketConnectionActor.OnPongReceived | src/Akka.IO.TcpTools/Actor/WebSocketConnectionActorBaseV2.cs:222-229 | takes the Ping ControlStep |
| ConnectionActorV2.WebSocketConnectionActor.OnFrameReceived | src/Akka.IO.TcpTools/Actor/WebSocketConnectionActorBaseV2.cs:161-201 | takes the frame handler's step |
| AsyncConnection.TextStep | src/Akka.IO.TcpTools.Standard/Actor/WebSocketConnectionActorBase.cs:110-130 | accumulates exactly when the declared length exceeds the chunk; otherwise delivers the read text, or only a graceful stop on a throw |
| AsyncConnection.ReceivedStep | src/Akka.IO.TcpTools.Standard/Actor/WebSocketConnectionActorBase.cs:52-92 | a key chunk writes only the ack; a throw only stops gracefully; Close writes the close frame; other types write nothing |
| AsyncConnection.StepAsync | src/Akka.IO.TcpTools.Standard/Actor/WebSocketConnectionActorBase.cs:52-222 | never sends Tcp.Close; stops exactly on PeerClosed in the default handler |
| AsyncConnection.NeverClosesTcp | src/Akka.IO.TcpTools.Standard/Actor/WebSocketConnectionActorBase.cs:52-222 | no run of messages ever sends Tcp.Close |
| AsyncConnection.RunsWithoutPeerClosed | src/Akka.IO.TcpTools.Standard/Actor/WebSocketConnectionActorBase.cs:137-222 | without PeerClosed the actor never stops, even after a Close frame |
| AsyncConnection.StoppedAsync | src/Akka.IO.TcpTools.Standard/Actor/WebSocketConnectionActorBase.cs:137-141 | after stopping, no message has an effect |
| AsyncConnection.AccumulationAsync | src/Akka.IO.TcpTools.Standard/Actor/WebSocketConnectionActorBase.cs:148-188 | a message split over chunks is delivered once, as one read of all its bytes |
| StandardConnectionActor.WebSocketConnectionActor.State | src/Akka.IO.TcpTools.Standard/Actor/WebSocketConnectionActorBase.cs:137-141 | the actor is Stopped exactly when its stop flag is set |
| StandardConnectionActor.WebSocketConnectionActor.constructor | src/Akka.IO.TcpTools.Standard/Actor/WebSocketConnectionActorBase.cs:52 | a new actor is in the default handler without a buffer |
| StandardConnectionActor.WebSocketConnectionActor.Receive | src/Akka.IO.TcpTools.Standard/Actor/WebSocketConnectionActorBase.cs:52-222 | handling a message takes exactly StepAsync |
| StandardConnectionActor.WebSocketConnectionActor.OnReceived | src/Akka.IO.TcpTools.Standard/Actor/WebSocketConnectionActorBase.cs:52-92 | takes ReceivedStep |
| StandardConnectionActor.WebSocketConnectionActor.OnTextReceived | src/Akka.IO.TcpTools.Standard/Actor/WebSocketConnectionActorBase.cs:110-130 | takes TextStep |
| StandardConnectionActor.WebSocketConnectionActor.OnFrameReceived | src/Akka.IO.TcpTools.Standard/Actor/WebSocketConnectionActorBase.cs:148-188 | takes the frame handler's step, including the null-buffer branch |
| LegacyConnectionActor.OlderTools | Akka.IO.TcpTools/Actor/WebSocketConnectionActorBase.cs:45-180 | the older actor closes with the canned Close frame and classifies with the shared opcode switch |
| LegacyConnectionActor.StepOlder | Akka.IO.TcpTools/Actor/WebSocketConnectionActorBase.cs:45-180 | never sends Tcp.Close; stops exactly on PeerClosed in the default handler; answers a Close frame with CloseMessage and carries on |
| LegacyConnectionActor.ClosePolicies | Akka.IO.TcpTools/Actor/WebSocketConnectionActorBase.cs:175-180 | on a Close frame V2 closes TCP and stops, while the older actor writes CloseMessage and carries on |
| LegacyConnectionActor.WebSocketConnectionActor.constructor | Akka.IO.TcpTools/Actor/WebSocketConnectionActorBase.cs:45 | a new actor is in the default handler without a buffer |
| LegacyConnectionActor.WebSocketConnectionActor.Receive | Akka.IO.TcpTools/Actor/WebSocketConnectionActorBase.cs:45-180 | handling a message takes exactly the older step |
| LegacyConnectionActor.WebSocketConnectionActor.OnReceived | Akka.IO.TcpTools/Actor/WebSocketConnectionActorBase.cs:45-85 | takes ReceivedStep with the older tools |
| LegacyConnectionActor.WebSocketConnectionActor.OnTextReceived | Akka.IO.TcpTools/Actor/WebSocketConnectionActorBase.cs:93-113 | takes TextStep with the older tools |
| LegacyConnectionActor.WebSocketConnectionActor.OnFrameReceived | Akka.IO.TcpTools/Actor/WebSocketConnectionActorBase.cs:121-161 | takes the frame handler's step |
| StreamActor.Dispatch | src/Akka.IO.TcpTools/Actor/WebSocketStreamActorBase.cs:69-133 | a graceful stop comes with no bytes; Close gives a close frame with code 1000; Continuation and Invalid give nothing |
| StreamActor.DispatchReplies | src/Akka.IO.TcpTools/Actor/WebSocketStreamActorBase.cs:69-133 | a graceful stop happens exactly on a throw, with no bytes; Binary gives the payload, Text an empty pong, Ping a pong and Pong a ping carrying the payload, Close a 1000 close frame, and other types nothing |
| StreamActor.OnReceivedStep | src/Akka.IO.TcpTools/Actor/WebSocketStreamActorBase.cs:41-95 | a key chunk returns the ack and leaves the queue; a chunk of 512 bytes or more is queued and answered with an empty pong; a shorter one dispatches the concatenated queue and empties it |
| StreamActor.Feed | src/Akka.IO.TcpTools/Actor/WebSocketStreamActorBase.cs:41-95 | one reply per chunk |
| StreamActor.FragmentsReassembled | src/Akka.IO.TcpTools/Actor/WebSocketStreamActorBase.cs:51-67 | long chunks then a short one are answered with pongs and then one dispatch of all queued bytes in order; the queue ends empty |
| StreamActor.BinaryEchoed | src/Akka.IO.TcpTools/Actor/WebSocketStreamActorBase.cs:128-133 | a short Binary frame is answered with its decoded payload |
| StreamActor.PingAnswered | src/Akka.IO.TcpTools/Actor/WebSocketStreamActorBase.cs:112-118 | any encoded Ping is answered with a pong carrying its payload |
| StreamActor.WebSocketStreamActor.constructor | src/Akka.IO.TcpTools/Actor/WebSocketStreamActorBase.cs:13 | a new actor has an empty fragment queue |
| StreamActor.WebSocketStreamActor.OnReceived | src/Akka.IO.TcpTools/Actor/WebSocketStreamActorBase.cs:41-95 | the reply and the new queue are exactly OnReceivedStep |
| StreamActor.WebSocketStreamActor.DispatchFrame | src/Akka.IO.TcpTools/Actor/WebSocketStreamActorBase.cs:69-94 | the switch and catch compute Dispatch |

## Left out

- SHA-1, Base64, `Encoding.GetString`/`GetBytes` and
  `ByteString.ToString`/`FromString` are not modelled. They are fields of a
  `Platform` value (`acceptDigest`, `utf8`, `toText`, `fromText`) that every
  member using them takes as a parameter.
- The .NET `Regex` engine is not modelled. The key search is written directly
  as the leftmost literal match followed by the rest of the line ('.' stops only
  at '\n'). `Trim` follows `Char.IsWhiteSpace`'s list of code points.
- `MessageTools.Decompress` (DeflateStream) is foreign and is left out.
- `MessageTools.Experiment` is a scratchpad and is left out. Only its masked
  "Hello" vector is used, as a lemma.
- The masked branch of `FabricateMessage` is an unfinished TODO that returns
  zeros. The model returns zeros too; no outbound masking is modelled.
- `MemoryStream` capacity, allocation failure and out-of-memory are not
  modelled. An exception is modelled only where the code indexes past the end
  of an array.
- The Akka runtime is left out:
  - mailbox delivery, Sender and Self identity, logging, PreStart and PostStop;
  - the 5-second timing of GracefulStop, which is an emitted action; the state
    is unchanged until the runtime stops the actor;
  - `await` ordering in the async actors, which run their handlers one after
    another.
- The Standard package's `MessageTools`, `FramedWebSocketMessage`,
  `ByteStringReader` and `IsFinal`/`IsMasked` are not part of this model. They
  are the fields of an `AsyncTools` value, or an `isMasked` parameter. The
  older actor is given the older `MessageTools` model through
  `LegacyConnectionActor.OlderTools`.
- `ByteStringReader.ReadAsync` (System.Net.WebSockets) is not part of this
  model. It is the `read` parameter of the Standard and older actors.
- `ByteStringWriter` is not part of this model. Frames are built by
  `FrameHeader.EncodeFrame`, the encoder that section 5.2 of RFC 6455 lays out.
- The stream actor's `MessageTools.CreateMessage` and
  `CreateCloseMessage(int)` do not exist in the files modelled. They are the
  fields of a `StreamTools` value.
- The stream actor's fragment queue is modelled for one connection whose chunks
  arrive one at a time. In the code, the constructor hands `OnReceived` to every
  accepted connection, and all of them share one `_fragments` queue. The stream
  threads touch it without a lock. The model does not capture chunks from
  several connections interleaving in that queue, nor unsynchronised access to
  it. `StreamActor.FragmentsReassembled` holds for a single connection only.
- The stream actor's constructor binds a TCP stream with a materializer; it is
  left out. `StreamActor.WebSocketStreamActor.constructor` only sets up the
  empty queue.
- The null-buffer branch of OnFrameReceived in V2 and in the older actor is
  modelled. `ConnectionActorV2.StepKeepsWellFormed` and the classes' `Valid`
  show that it cannot be reached.
- An exception thrown while reading a completed buffer is logged only after the
  default handler has been restored. The model follows the code: the actor is
  back in `Default`, not still accumulating (`ConnectionActorV2.FailedReadLeavesDefault`).
- Three behaviours that a full RFC 6455 endpoint would have are implemented by
  none of the files modelled, so they are not modelled:
  - a handshake-completed flag: the key is looked for on every chunk;
  - keepalive pings and expected-pong bookkeeping;
  - reassembly of Continuation frames: V2 closes on them and the other actors
    ignore them.
- A unit test at src/Akka.IO.TcpTools.Test/MessageToolsTests.cs:128 expects
  `GetMessageTotalLengthV2` of a 7-byte ping to be 7. The code returns the
  payload length 5, and the model follows the code
  (`MessageTools.TotalLengthExamples`).
- Integers are unbounded in the model. The one place where the `ulong`
  arithmetic wraps, `totalLength + 8` in `IsCompleted`, is modelled explicitly
  (`FramedMessage.CompletionTarget`).
