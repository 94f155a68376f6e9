/**
 The fuzzer's packetiser: it cuts its input into chunks of up to 255 bytes and writes one
 serialized MAVLink message per chunk into a buffer.  The serializer is any that never emits more
 than a maximal packet.
 */
module FuzzPackets {
  import opened Numbers

  const MAX_PACKET_LEN := 280
  const CHUNK := 255
  const MIN_CHUNK := 3

  datatype Message = Message(msgid: byte, sysid: byte, compid: byte, sequence: byte, payload: seq<byte>)

  /** The serializer may put a counter of its own into each packet: it is told how many went before. */
  ghost predicate Serializer(wire: (nat, Message) -> seq<byte>) {
    forall k, m :: |wire(k, m)| <= MAX_PACKET_LEN
  }

  // ---------------------------------------------------------------- what the messages are

  /** How many chunks of an input are long enough to become messages. */
  function Count(size: nat): nat {
    size / CHUNK + if size % CHUNK >= MIN_CHUNK then 1 else 0
  }

  /** The message of chunk k: its first byte is dropped, then sequence number, message id, payload. */
  function MessageAt(data: seq<byte>, k: nat): Message
    requires k < Count(|data|)
  {
    var from := CHUNK * k;
    Message(data[from + 2], 1, 1, data[from + 1], data[from + 3..Min(from + CHUNK, |data|)])
  }

  function Messages(data: seq<byte>, k: nat): seq<Message>
    requires k <= Count(|data|)
  {
    seq(k, i requires 0 <= i < k => MessageAt(data, i))
  }

  /** The serialized messages, one after the other. */
  function Wired(wire: (nat, Message) -> seq<byte>, messages: seq<Message>): seq<byte> {
    if messages == [] then []
    else
      var last := |messages| - 1;
      Wired(wire, messages[..last]) + wire(last, messages[last])
  }

  // ---------------------------------------------------------------- the loop

  /**
   Writes the first k messages, as many as the serializer has then counted, nothing past `written`,
   and never past `outputSize`; it stops early only for want of room for one maximal packet.
   */
  method ProcessFuzzData(
    wire: (nat, Message) -> seq<byte>, data: seq<byte>, output: array<byte>, outputSize: nat)
    returns (written: nat, k: nat)
    requires Serializer(wire)
    requires outputSize <= output.Length
    modifies output
    ensures written <= outputSize && k <= Count(|data|)
    ensures |Wired(wire, Messages(data, k))| == written
    ensures output[..] == Wired(wire, Messages(data, k)) + old(output[..])[written..]
    ensures k < Count(|data|) ==> outputSize - written < MAX_PACKET_LEN
  {
    written := 0;
    k := 0;
    var offset := 0;
    ghost var before := output[..];
    while offset < |data| && outputSize - written >= MAX_PACKET_LEN
      invariant written <= outputSize && k <= Count(|data|) && offset == Min(CHUNK * k, |data|)
      invariant Holds(output[..], Wired(wire, Messages(data, k)), written, before)
      decreases |data| - offset
    {
      NextOffset(|data|, k);
      var chunkSize := Min(CHUNK, |data| - offset);
      if chunkSize < MIN_CHUNK {
        break;
      }
      var msg := FillMessage(data, offset, chunkSize, k);
      var size := Emit(wire, k, msg, output, written, data, before);
      written := written + size;
      offset := offset + chunkSize;
      k := k + 1;
    }
    AllRead(|data|, k);
  }

  /** A buffer in which so many bytes are written over what it held before. */
  ghost predicate Holds(now: seq<byte>, bytes: seq<byte>, written: nat, before: seq<byte>) {
    |bytes| == written <= |before| && now == bytes + before[written..]
  }

  lemma NextOffset(size: nat, k: nat)
    requires CHUNK * k < size
    ensures Min(CHUNK * k, size) == CHUNK * k
    ensures CHUNK * k + Min(CHUNK, size - CHUNK * k) == Min(CHUNK * (k + 1), size)
  {
  }

  /** The message structure filled from the chunk at `offset`. */
  method FillMessage(data: seq<byte>, offset: nat, chunkSize: nat, ghost k: nat) returns (msg: Message)
    requires offset == CHUNK * k && offset < |data|
    requires MIN_CHUNK <= chunkSize == Min(CHUNK, |data| - offset)
    ensures k < Count(|data|) && msg == MessageAt(data, k)
  {
    var payloadSize := Min(chunkSize - 3, 255);
    var payload: seq<byte> := [];
    if payloadSize > 0 && offset + 3 + payloadSize <= |data| {
      payload := data[offset + 3..offset + 3 + payloadSize];
    }
    msg := Message(data[offset + 2], 1, 1, data[offset + 1], payload);
    ChunkIsMessage(data, k, msg);
  }

  /** `mavlink_msg_to_send_buffer` */
  method Emit(
    wire: (nat, Message) -> seq<byte>, k: nat, msg: Message, output: array<byte>, written: nat,
    ghost input: seq<byte>, ghost before: seq<byte>)
    returns (size: nat)
    requires Serializer(wire) && k < Count(|input|) && msg == MessageAt(input, k)
    requires Holds(output[..], Wired(wire, Messages(input, k)), written, before)
    requires written + MAX_PACKET_LEN <= output.Length
    modifies output
    ensures size <= MAX_PACKET_LEN
    ensures Holds(output[..], Wired(wire, Messages(input, k + 1)), written + size, before)
  {
    var packet := wire(k, msg);
    size := |packet|;
    forall i | 0 <= i < |packet| {
      output[written + i] := packet[i];
    }
    assert output[..] == old(output[..])[..written] + packet + old(output[..])[written + |packet|..];
    Overwrites(Wired(wire, Messages(input, k)), before, packet);
    WiredPush(wire, input, k);
  }

  lemma Overwrites(written: seq<byte>, before: seq<byte>, bytes: seq<byte>)
    requires |written| + |bytes| <= |before|
    ensures var now := written + before[|written|..];
            now[..|written|] + bytes + now[|written| + |bytes|..] == (written + bytes) + before[|written| + |bytes|..]
  {
  }

  lemma ChunkIsMessage(data: seq<byte>, k: nat, msg: Message)
    requires CHUNK * k + MIN_CHUNK <= |data|
    requires msg.sysid == 1 && msg.compid == 1
    requires msg.msgid == data[CHUNK * k + 2] && msg.sequence == data[CHUNK * k + 1]
    requires msg.payload == data[CHUNK * k + 3..Min(CHUNK * k + CHUNK, |data|)]
    ensures k < Count(|data|) && msg == MessageAt(data, k)
  {
  }

  lemma AllRead(size: nat, k: nat)
    requires k <= Count(size)
    ensures size <= CHUNK * k + 2 ==> k == Count(size)
  {
  }

  lemma WiredPush(wire: (nat, Message) -> seq<byte>, data: seq<byte>, k: nat)
    requires k < Count(|data|)
    ensures Wired(wire, Messages(data, k + 1)) == Wired(wire, Messages(data, k)) + wire(k, MessageAt(data, k))
  {
    var m := Messages(data, k + 1);
    assert m[..|m| - 1] == Messages(data, k);
  }

  // ---------------------------------------------------------------- one fuzz input

  lemma {:induction false} WiredLength(wire: (nat, Message) -> seq<byte>, messages: seq<Message>)
    requires Serializer(wire)
    ensures |Wired(wire, messages)| <= MAX_PACKET_LEN * |messages|
  {
    if messages != [] {
      WiredLength(wire, messages[..|messages| - 1]);
    }
  }

  /** In the size range the fuzzer takes, a 2048-byte buffer never runs short: every message is passed on. */
  method ProcessFuzzInput(wire: (nat, Message) -> seq<byte>, data: seq<byte>, ready: bool) returns (passed: seq<byte>)
    requires Serializer(wire)
    ensures passed == if ready && 3 <= |data| <= 1024
                      then Wired(wire, Messages(data, Count(|data|))) else []
  {
    if |data| < 3 || |data| > 1024 {
      return [];
    }
    if !ready {
      return [];
    }
    var buffer := new byte[2048](_ => 0);
    var total, k := ProcessFuzzData(wire, data, buffer, 2048);
    WiredLength(wire, Messages(data, k));
    passed := buffer[..total];
    assert passed == buffer[..][..total];
  }

  // ---------------------------------------------------------------- what is lost

  /** The bytes that messages account for: each chunk's, given the byte it starts with. */
  function Rebuilt(firsts: seq<byte>, messages: seq<Message>): seq<byte>
    requires |firsts| == |messages|
  {
    if messages == [] then []
    else
      var last := |messages| - 1;
      Rebuilt(firsts[..last], messages[..last])
      + [firsts[last], messages[last].sequence, messages[last].msgid] + messages[last].payload
  }

  /** The first byte of each of the first k chunks. */
  function Firsts(data: seq<byte>, k: nat): seq<byte>
    requires k <= Count(|data|)
  {
    seq(k, i requires 0 <= i < k => data[CHUNK * i])
  }

  /** The messages of an input hold it in order, but for one byte a chunk and fewer than three at the end. */
  lemma {:induction false} MessagesHoldTheInput(data: seq<byte>, k: nat)
    requires k <= Count(|data|)
    ensures Rebuilt(Firsts(data, k), Messages(data, k)) == data[..Min(CHUNK * k, |data|)]
    ensures k == Count(|data|) ==> |data| - Min(CHUNK * k, |data|) < MIN_CHUNK
  {
    if k != 0 {
      var last := k - 1;
      MessagesHoldTheInput(data, last);
      assert Messages(data, k)[..last] == Messages(data, last);
      assert Firsts(data, k)[..last] == Firsts(data, last);
      ChunkSplits(data, last);
    }
  }

  lemma ChunkSplits(data: seq<byte>, k: nat)
    requires k < Count(|data|)
    ensures data[..Min(CHUNK * (k + 1), |data|)]
            == data[..Min(CHUNK * k, |data|)] + [data[CHUNK * k], MessageAt(data, k).sequence, MessageAt(data, k).msgid]
               + MessageAt(data, k).payload
  {
  }

  /** All messages are from system 1, component 1, and none is longer than a chunk less three bytes. */
  lemma HeadersAreOurs(data: seq<byte>, k: nat, i: nat)
    requires i < k <= Count(|data|)
    ensures var m := Messages(data, k)[i]; m.sysid == 1 && m.compid == 1 && |m.payload| <= 252
    ensures Count(|data|) == |data| / 255 + (if |data| % 255 < 3 then 0 else 1)
  {
  }

  /** A message is serialized with the number of messages before it, behind them. */
  lemma WiredOneByOne(wire: (nat, Message) -> seq<byte>, messages: seq<Message>, m: Message)
    ensures Wired(wire, []) == [] && Wired(wire, messages + [m]) == Wired(wire, messages) + wire(|messages|, m)
  {
    assert (messages + [m])[..|messages|] == messages;
  }
}
