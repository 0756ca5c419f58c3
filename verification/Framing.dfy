/** The wire format: an eight-byte header (version, type, flags, payload length, big endian)
    followed by the payload. */
module FrameFormat {
  import opened Bytes

  const VERSION: byte := 1
  const MAX_MESSAGE_SIZE := 64 * 1024
  const HEADER_SIZE := 8
  const MAX_PAYLOAD := MAX_MESSAGE_SIZE - HEADER_SIZE

  const TYPE_CHALLENGE: byte := 1
  const TYPE_SOLUTION: byte := 2
  const TYPE_QUOTE: byte := 3
  const TYPE_ERROR: byte := 4

  /** length is the header's claim; Marshal ignores it and Unmarshal fills it. */
  datatype Message = Message(version: byte, msgType: byte, flags: uint16, length: uint32, payload: seq<byte>)

  datatype Error =
    | InvalidVersion | MessageTooLarge | InvalidPayload | ShortRead
    | ValidationFailed | UnexpectedType | MalformedPayload | Unsolved
    | ServerError(code: string, text: string)

  datatype Result<+T> = Ok(value: T) | Err(error: Error)

  function PutUint16(v: uint16): (s: seq<byte>)
    ensures |s| == 2
  {
    [v / 256, v % 256]
  }

  function PutUint32(v: uint32): (s: seq<byte>)
    ensures |s| == 4
  {
    [v / 0x100_0000, v / 0x1_0000 % 256, v / 256 % 256, v % 256]
  }

  function Uint16(s: seq<byte>): uint16
    requires |s| == 2
  {
    s[0] as int * 256 + s[1]
  }

  function Uint32(s: seq<byte>): uint32
    requires |s| == 4
  {
    s[0] as int * 0x100_0000 + s[1] as int * 0x1_0000 + s[2] as int * 256 + s[3]
  }

  predicate Sendable(m: Message) {
    m.version == VERSION && |m.payload| <= MAX_PAYLOAD
  }

  predicate AllSendable(ms: seq<Message>) {
    forall i :: 0 <= i < |ms| ==> Sendable(ms[i])
  }

  /** The bytes of a message. */
  function Encode(m: Message): (s: seq<byte>)
    requires |m.payload| <= MAX_PAYLOAD
    ensures |s| == HEADER_SIZE + |m.payload|
  {
    [m.version, m.msgType] + PutUint16(m.flags) + PutUint32(|m.payload|) + m.payload
  }

  /** What the receiver of a message sees: the length field tells the truth. */
  function Normalized(m: Message): Message
    requires |m.payload| <= MAX_PAYLOAD
  {
    m.(length := |m.payload|)
  }

  /** Unmarshal's reading of the header. */
  function DecodeHeader(data: seq<byte>): Result<Message> {
    if |data| < HEADER_SIZE then Err(InvalidPayload)
    else
      var m := Message(data[0], data[1], Uint16(data[2..4]), Uint32(data[4..8]), []);
      if m.version != VERSION then Err(InvalidVersion)
      else if m.length > MAX_PAYLOAD then Err(MessageTooLarge)
      else Ok(m)
  }

  /** Unmarshal: the payload is taken only when all of it is there. */
  function Decode(data: seq<byte>): Result<Message> {
    match DecodeHeader(data)
    case Err(e) => Err(e)
    case Ok(m) =>
      if m.length > 0 && |data| >= HEADER_SIZE + m.length
      then Ok(m.(payload := data[HEADER_SIZE..HEADER_SIZE + m.length]))
      else Ok(m)
  }

  /** readMessage on a stream: the message and the bytes left, or an error. */
  function ReadFrame(stream: seq<byte>): Result<(Message, seq<byte>)> {
    if |stream| < HEADER_SIZE then Err(ShortRead)
    else
      match Decode(stream[..HEADER_SIZE])
      case Err(e) => Err(e)
      case Ok(m) =>
        if |stream| < HEADER_SIZE + m.length then Err(ShortRead)
        else Ok((m.(payload := stream[HEADER_SIZE..HEADER_SIZE + m.length]), stream[HEADER_SIZE + m.length..]))
  }

  /** Reading n messages, one after the other. */
  function ReadFrames(stream: seq<byte>, n: nat): Result<(seq<Message>, seq<byte>)> {
    if n == 0 then Ok(([], stream))
    else
      match ReadFrame(stream)
      case Err(e) => Err(e)
      case Ok((m, rest)) =>
        match ReadFrames(rest, n - 1)
        case Err(e) => Err(e)
        case Ok((ms, end)) => Ok(([m] + ms, end))
  }

  function EncodeAll(ms: seq<Message>): seq<byte>
    requires AllSendable(ms)
  {
    if ms == [] then [] else Encode(ms[0]) + EncodeAll(ms[1..])
  }

  function NormalizedAll(ms: seq<Message>): seq<Message>
    requires AllSendable(ms)
  {
    if ms == [] then [] else [Normalized(ms[0])] + NormalizedAll(ms[1..])
  }
}

/** The stream codec laws. */
module FrameTheory {
  import opened Bytes
  import opened FrameFormat

  lemma Uint16RoundTrip(v: uint16)
    ensures Uint16(PutUint16(v)) == v
  {
  }

  lemma Uint32RoundTrip(v: uint32)
    ensures Uint32(PutUint32(v)) == v
  {
    var a, b, c := v / 0x100_0000, v / 0x1_0000, v / 256;
    assert b / 256 == a && c / 256 == b;
  }

  lemma Uint16Inverse(s: seq<byte>)
    requires |s| == 2
    ensures PutUint16(Uint16(s)) == s
  {
  }

  lemma Uint32Inverse(s: seq<byte>)
    requires |s| == 4
    ensures PutUint32(Uint32(s)) == s
  {
    var v := Uint32(s);
    var a := s[0] as int;
    var b := a * 256 + s[1];
    var c := b * 256 + s[2];
    LastByte(a, s[1]);
    LastByte(b, s[2]);
    LastByte(c, s[3]);
    assert v == c * 256 + s[3];
    assert v / 0x1_0000 == c / 256 == b && v / 0x100_0000 == b / 256;
  }

  lemma LastByte(x: nat, b: byte)
    ensures (x * 256 + b) / 256 == x && (x * 256 + b) % 256 == b
  {
  }

  /** The layout of a message: version, type, big-endian flags and payload length, payload. */
  lemma HeaderLayout(m: Message)
    requires Sendable(m)
    ensures var data := Encode(m);
      && data[0] == VERSION && data[1] == m.msgType
      && BigEndian(data[2..4]) == m.flags
      && BigEndian(data[4..8]) == |m.payload|
      && data[8..] == m.payload
  {
    var data := Encode(m);
    assert data[2..4] == PutUint16(m.flags) && data[4..8] == PutUint32(|m.payload|);
    Uint16RoundTrip(m.flags);
    Uint32RoundTrip(|m.payload|);
    BigEndianUint16(data[2..4]);
    BigEndianUint32(data[4..8]);
  }

  lemma BigEndianAppend(s: seq<byte>, b: byte)
    ensures BigEndian(s + [b]) == 256 * BigEndian(s) + b
  {
    assert (s + [b])[..|s|] == s;
  }

  lemma BigEndianUint16(s: seq<byte>)
    requires |s| == 2
    ensures BigEndian(s) == Uint16(s)
  {
    BigEndianAppend([], s[0]);
    BigEndianAppend([] + [s[0]], s[1]);
    assert s == [] + [s[0]] + [s[1]];
  }

  lemma BigEndianUint32(s: seq<byte>)
    requires |s| == 4
    ensures BigEndian(s) == Uint32(s)
  {
    var a := s[..2];
    BigEndianUint16(a);
    BigEndianAppend(a, s[2]);
    BigEndianAppend(a + [s[2]], s[3]);
    assert s == a + [s[2]] + [s[3]];
  }

  lemma HeaderRoundTrip(m: Message, rest: seq<byte>)
    requires Sendable(m)
    ensures DecodeHeader(Encode(m) + rest) == Ok(Normalized(m).(payload := []))
  {
    var data := Encode(m) + rest;
    assert data[2..4] == PutUint16(m.flags);
    assert data[4..8] == PutUint32(|m.payload|);
    Uint16RoundTrip(m.flags);
    Uint32RoundTrip(|m.payload|);
  }

  /** Only the header decides what DecodeHeader answers. */
  lemma HeaderIsPrefix(data: seq<byte>)
    requires |data| >= HEADER_SIZE
    ensures DecodeHeader(data[..HEADER_SIZE]) == DecodeHeader(data)
    ensures Decode(data[..HEADER_SIZE]) == DecodeHeader(data)
  {
    var header := data[..HEADER_SIZE];
    assert header[2..4] == data[2..4] && header[4..8] == data[4..8];
  }

  /** Reading from a stream that begins with a marshalled message returns that message and leaves
      everything after it. */
  lemma ReadsBackOne(m: Message, rest: seq<byte>)
    requires Sendable(m)
    ensures ReadFrame(Encode(m) + rest) == Ok((Normalized(m), rest))
  {
    var stream := Encode(m) + rest;
    HeaderIsPrefix(stream);
    HeaderRoundTrip(m, rest);
    assert stream[HEADER_SIZE..HEADER_SIZE + |m.payload|] == m.payload;
    assert stream[HEADER_SIZE + |m.payload|..] == rest;
  }

  /** The codec delimits itself: any list of messages, concatenated, is read back in order, and the
      bytes behind it are untouched. */
  lemma {:induction false} ReadsBackAll(ms: seq<Message>, rest: seq<byte>)
    requires AllSendable(ms)
    ensures ReadFrames(EncodeAll(ms) + rest, |ms|) == Ok((NormalizedAll(ms), rest))
  {
    if ms == [] {
      assert [] + rest == rest;
    } else {
      var tail := EncodeAll(ms[1..]) + rest;
      assert EncodeAll(ms) + rest == Encode(ms[0]) + tail;
      ReadsBackAll(ms[1..], rest);
      ReadsBackOne(ms[0], tail);
    }
  }

  /** Unique decodability: no two lists of messages share an encoding. */
  lemma UniquelyDecodable(ms: seq<Message>, ns: seq<Message>)
    requires AllSendable(ms) && AllSendable(ns)
    requires EncodeAll(ms) == EncodeAll(ns)
    ensures NormalizedAll(ms) == NormalizedAll(ns)
  {
    SameLength(ms, ns);
    ReadsBackAll(ms, []);
    ReadsBackAll(ns, []);
  }

  lemma {:induction false} SameLength(ms: seq<Message>, ns: seq<Message>)
    requires AllSendable(ms) && AllSendable(ns)
    requires EncodeAll(ms) == EncodeAll(ns)
    ensures |ms| == |ns|
  {
    if ms == [] || ns == [] {
    } else {
      ReadsBackOne(ms[0], EncodeAll(ms[1..]));
      ReadsBackOne(ns[0], EncodeAll(ns[1..]));
      SameLength(ms[1..], ns[1..]);
    }
  }

  /** The other direction: whatever a reader accepts is the encoding of what it returns, so each
      message has exactly one form on the wire. */
  lemma AcceptedBytesAreCanonical(stream: seq<byte>)
    requires ReadFrame(stream).Ok?
    ensures var (m, rest) := ReadFrame(stream).value;
      Sendable(m) && m == Normalized(m) && stream == Encode(m) + rest
  {
    var (m, rest) := ReadFrame(stream).value;
    HeaderIsPrefix(stream);
    Uint16Inverse(stream[2..4]);
    Uint32Inverse(stream[4..8]);
    assert stream[..8] == [stream[0], stream[1]] + stream[2..4] + stream[4..8];
    assert stream == stream[..8] + stream[8..8 + m.length] + stream[8 + m.length..];
  }

  /** Unmarshal of a whole buffer and the stream reader agree: same errors in the header, same
      message when the payload is complete; an incomplete payload is silently left out by Unmarshal
      and is an error for the reader. */
  lemma UnmarshalAgreesWithReader(data: seq<byte>)
    requires |data| >= HEADER_SIZE
    ensures match Decode(data)
      case Err(e) => ReadFrame(data) == Err(e)
      case Ok(m) =>
        if |data| >= HEADER_SIZE + m.length then ReadFrame(data) == Ok((m, data[HEADER_SIZE + m.length..]))
        else m.payload == [] && ReadFrame(data) == Err(ShortRead)
  {
    HeaderIsPrefix(data);
    if Decode(data).Ok? {
      var m := Decode(data).value;
      assert m.length == 0 ==> data[HEADER_SIZE..HEADER_SIZE + m.length] == [];
    }
  }

  /** Which bytes Unmarshal accepts, what it makes of them, and which error the others get: too short,
      another version, or a length beyond 65528, in that order. */
  lemma HeaderIsJudgedExactly(data: seq<byte>)
    ensures match Decode(data)
      case Ok(m) =>
        && |data| >= 8 && data[0] == 1 && BigEndian(data[4..8]) <= 65528
        && m.version == 1 && m.msgType == data[1]
        && m.flags == BigEndian(data[2..4]) && m.length == BigEndian(data[4..8])
        && m.payload == if |data| >= 8 + m.length then data[8..8 + m.length] else []
      case Err(e) =>
        if |data| < 8 then e == InvalidPayload
        else if data[0] != 1 then e == InvalidVersion
        else BigEndian(data[4..8]) > 65528 && e == MessageTooLarge
  {
    if |data| >= 8 {
      BigEndianUint16(data[2..4]);
      BigEndianUint32(data[4..8]);
      assert data[8..8] == [];
    }
  }

  /** The stream readers give the same errors, and a short read when the header or the payload it
      announces is incomplete. */
  lemma StreamIsJudgedExactly(stream: seq<byte>)
    ensures match ReadFrame(stream)
      case Ok((m, rest)) => |stream| >= 8 + m.length && Decode(stream) == Ok(m) && rest == stream[8 + m.length..]
      case Err(e) =>
        if |stream| < 8 then e == ShortRead
        else if Decode(stream).Err? then e == Decode(stream).error
        else |stream| < 8 + Decode(stream).value.length && e == ShortRead
  {
    if |stream| >= 8 {
      UnmarshalAgreesWithReader(stream);
    }
  }
}

/** The connection and the in-place code that fills buffers from it. */
module FramingCode {
  import opened Bytes
  import opened FrameFormat
  import Theory = FrameTheory

  /** A connection: the bytes the peer has sent and will send, and the bytes written so far. */
  class Conn {
    var unread: seq<byte>
    var written: seq<byte>

    constructor (incoming: seq<byte>)
      ensures unread == incoming && written == []
    {
      unread, written := incoming, [];
    }

    /** io.ReadFull: fills the whole buffer, or fails having used up the stream. */
    method ReadFull(buf: array<byte>) returns (ok: bool)
      modifies this`unread, buf
      ensures ok == (|old(unread)| >= buf.Length)
      ensures ok ==> buf[..] == old(unread)[..buf.Length] && unread == old(unread)[buf.Length..]
      ensures !ok ==> unread == []
    {
      var n := 0;
      while n < buf.Length && n < |unread|
        invariant 0 <= n <= buf.Length && n <= |unread|
        invariant unread == old(unread)
        invariant buf[..n] == unread[..n]
      {
        buf[n] := unread[n];
        n := n + 1;
      }
      ok := n == buf.Length;
      unread := unread[n..];
      assert ok ==> buf[..] == buf[..n];
    }

    method Write(data: array<byte>)
      modifies this`written
      ensures written == old(written) + data[..]
    {
      written := written + data[..];
    }
  }

  /** Marshal */
  method Marshal(m: Message) returns (r: Result<array<byte>>)
    ensures r.Ok? <==> Sendable(m)
    ensures r.Err? ==> r.error == if m.version != VERSION then InvalidVersion else MessageTooLarge
    ensures r.Ok? ==> fresh(r.value) && r.value[..] == Encode(m)
  {
    if m.version != VERSION {
      return Err(InvalidVersion);
    }
    if |m.payload| > MAX_MESSAGE_SIZE - HEADER_SIZE {
      return Err(MessageTooLarge);
    }
    var buf := new byte[HEADER_SIZE + |m.payload|];
    buf[0] := m.version;
    buf[1] := m.msgType;
    PutBytes(buf, 2, PutUint16(m.flags));
    PutBytes(buf, 4, PutUint32(|m.payload|));
    PutBytes(buf, HEADER_SIZE, m.payload);
    assert buf[..] == buf[..2] + buf[2..4] + buf[4..8] + buf[8..];
    assert buf[..2] == [m.version, m.msgType];
    return Ok(buf);
  }

  /** copy(buf[at:], src) for a source that fits. */
  method PutBytes(buf: array<byte>, at: nat, src: seq<byte>)
    requires at + |src| <= buf.Length
    modifies buf
    ensures buf[at..at + |src|] == src
    ensures forall k :: 0 <= k < at || at + |src| <= k < buf.Length ==> buf[k] == old(buf[k])
  {
    var i := 0;
    while i < |src|
      invariant 0 <= i <= |src|
      invariant buf[at..at + i] == src[..i]
      invariant forall k :: 0 <= k < at || at + i <= k < buf.Length ==> buf[k] == old(buf[k])
    {
      buf[at + i] := src[i];
      i := i + 1;
    }
  }

  /** Unmarshal */
  method Unmarshal(data: array<byte>) returns (r: Result<Message>)
    ensures r == Decode(data[..])
  {
    if data.Length < HEADER_SIZE {
      return Err(InvalidPayload);
    }
    var m := Message(data[0], data[1], Uint16(data[2..4]), Uint32(data[4..8]), []);
    assert data[..][2..4] == data[2..4] && data[..][4..8] == data[4..8];
    if m.version != VERSION {
      return Err(InvalidVersion);
    }
    if m.length > MAX_MESSAGE_SIZE - HEADER_SIZE {
      return Err(MessageTooLarge);
    }
    if m.length > 0 && data.Length >= HEADER_SIZE + m.length {
      var payload := new byte[m.length];
      PutBytes(payload, 0, data[HEADER_SIZE..HEADER_SIZE + m.length]);
      assert payload[..] == payload[0..m.length];
      m := m.(payload := payload[..]);
    }
    return Ok(m);
  }

  /** The server's readMessage.  Its own size check comes after Unmarshal's and never fires. */
  method ServerReadMessage(conn: Conn) returns (r: Result<Message>)
    modifies conn`unread
    ensures match ReadFrame(old(conn.unread))
      case Ok((m, rest)) => r == Ok(m) && conn.unread == rest
      case Err(e) => r == Err(e) && conn.unread == if e == ShortRead then [] else old(conn.unread)[8..]
  {
    ghost var stream := conn.unread;
    var header := new byte[HEADER_SIZE];
    var ok := conn.ReadFull(header);
    if !ok {
      return Err(ShortRead);
    }
    r := Unmarshal(header);
    Theory.HeaderIsPrefix(stream);
    if r.Err? {
      return;
    }
    var m := r.value;
    if m.length > MAX_MESSAGE_SIZE - HEADER_SIZE {
      return Err(MessageTooLarge);
    }
    if m.length > 0 {
      var payload := new byte[m.length];
      ok := conn.ReadFull(payload);
      if !ok {
        return Err(ShortRead);
      }
      m := m.(payload := payload[..]);
    }
    assert m.payload == stream[HEADER_SIZE..HEADER_SIZE + m.length];
    assert conn.unread == stream[HEADER_SIZE + m.length..];
    return Ok(m);
  }

  /** The client's readMessage. */
  method ClientReadMessage(conn: Conn) returns (r: Result<Message>)
    modifies conn`unread
    ensures match ReadFrame(old(conn.unread))
      case Ok((m, rest)) => r == Ok(m) && conn.unread == rest
      case Err(e) => r == Err(e) && conn.unread == if e == ShortRead then [] else old(conn.unread)[8..]
  {
    ghost var stream := conn.unread;
    var header := new byte[HEADER_SIZE];
    var ok := conn.ReadFull(header);
    if !ok {
      return Err(ShortRead);
    }
    r := Unmarshal(header);
    Theory.HeaderIsPrefix(stream);
    if r.Ok? && r.value.length > 0 {
      var payload := new byte[r.value.length];
      ok := conn.ReadFull(payload);
      if !ok {
        return Err(ShortRead);
      }
      r := Ok(r.value.(payload := payload[..]));
    }
    if r.Ok? {
      var m := r.value;
      assert m.payload == stream[HEADER_SIZE..HEADER_SIZE + m.length];
      assert conn.unread == stream[HEADER_SIZE + m.length..];
    }
  }

  /** sendMessage, the same on both sides. */
  method SendMessage(conn: Conn, m: Message) returns (r: Result<()>)
    modifies conn`written
    ensures r == if Sendable(m) then Ok(()) else Err(if m.version != VERSION then InvalidVersion else MessageTooLarge)
    ensures conn.written == old(conn.written) + if Sendable(m) then Encode(m) else []
  {
    var data := Marshal(m);
    if data.Err? {
      return Err(data.error);
    }
    conn.Write(data.value);
    return Ok(());
  }
}
