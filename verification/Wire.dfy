/**
 The PostgreSQL wire client of scripts/probe_standby_wire_writes.py: message framing over a chunked
 byte stream, and the DataRow decoder (section 55.7, Message Formats, of the PostgreSQL 16 manual).
 Text fields stay the bytes Python decodes; `isText` is its UTF-8 check, one-to-one on what it accepts.
 */
module Wire {
  import opened Wrappers

  type byte = x: int | 0 <= x < 256

  const U32_LIMIT: nat := 0x1_0000_0000
  const FRAME_LIMIT: nat := 4 * 1024 * 1024

  // ---------------------------------------------------------------------------------------------
  // Big-endian integers
  // ---------------------------------------------------------------------------------------------

  /** struct.pack("!H", n) and back. */
  function PackU16(n: nat): (b: seq<byte>)
    requires n < 0x1_0000
    ensures |b| == 2
  {
    [n / 256, n % 256]
  }

  function UnpackU16(b: seq<byte>): (n: nat)
    requires |b| == 2
    ensures n < 0x1_0000 && PackU16(n) == b
  {
    b[0] as int * 256 + b[1] as int
  }

  lemma UnpackPackU16(n: nat)
    requires n < 0x1_0000
    ensures UnpackU16(PackU16(n)) == n
  {
  }

  /** struct.pack("!I", n) and back. */
  function PackU32(n: nat): (b: seq<byte>)
    requires n < U32_LIMIT
    ensures |b| == 4
  {
    PackU16(n / 0x1_0000) + PackU16(n % 0x1_0000)
  }

  function UnpackU32(b: seq<byte>): (n: nat)
    requires |b| == 4
    ensures n < U32_LIMIT
  {
    UnpackU16(b[..2]) * 0x1_0000 + UnpackU16(b[2..])
  }

  lemma PackUnpackU32(b: seq<byte>)
    requires |b| == 4
    ensures PackU32(UnpackU32(b)) == b
  {
    assert UnpackU32(b) / 0x1_0000 == UnpackU16(b[..2]) && UnpackU32(b) % 0x1_0000 == UnpackU16(b[2..]);
    assert b == b[..2] + b[2..];
  }

  lemma UnpackPackU32(n: nat)
    requires n < U32_LIMIT
    ensures UnpackU32(PackU32(n)) == n
  {
    var b := PackU32(n);
    assert b[..2] == PackU16(n / 0x1_0000) && b[2..] == PackU16(n % 0x1_0000);
    UnpackPackU16(n / 0x1_0000);
    UnpackPackU16(n % 0x1_0000);
  }

  /** Network order: the first byte counts most. */
  lemma BigEndian(a: byte, b: byte, c: byte, d: byte)
    ensures UnpackU16([a, b]) == a as int * 0x100 + b as int
    ensures UnpackU32([a, b, c, d]) ==
            a as int * 0x100_0000 + b as int * 0x1_0000 + c as int * 0x100 + d as int
  {
    assert [a, b, c, d][..2] == [a, b] && [a, b, c, d][2..] == [c, d];
  }

  /** struct.pack("!i", n) and back: two's complement. */
  function PackI32(n: int): (b: seq<byte>)
    requires -0x8000_0000 <= n < 0x8000_0000
    ensures |b| == 4
  {
    PackU32(if n < 0 then n + U32_LIMIT else n)
  }

  function UnpackI32(b: seq<byte>): (n: int)
    requires |b| == 4
    ensures -0x8000_0000 <= n < 0x8000_0000
  {
    var u := UnpackU32(b);
    if u >= 0x8000_0000 then u - U32_LIMIT else u
  }

  /** The sign is in the first byte, and all ones are -1. */
  lemma TwosComplement(b: seq<byte>)
    requires |b| == 4
    ensures UnpackI32(b) < 0 <==> b[0] >= 128
    ensures UnpackI32(b) == -1 <==> b == [255, 255, 255, 255]
  {
    assert b == [b[0], b[1], b[2], b[3]];
    BigEndian(b[0], b[1], b[2], b[3]);
  }

  lemma PackUnpackI32(b: seq<byte>)
    requires |b| == 4
    ensures PackI32(UnpackI32(b)) == b
  {
    PackUnpackU32(b);
  }

  lemma UnpackPackI32(n: int)
    requires -0x8000_0000 <= n < 0x8000_0000
    ensures UnpackI32(PackI32(n)) == n
  {
    UnpackPackU32(if n < 0 then n + U32_LIMIT else n);
  }

  // ---------------------------------------------------------------------------------------------
  // Framing
  // ---------------------------------------------------------------------------------------------

  datatype Message = Message(typ: byte, payload: seq<byte>)

  /** The length field can hold the payload and itself. */
  predicate Sendable(m: Message) {
    |m.payload| + 4 < U32_LIMIT
  }

  predicate WithinLimit(m: Message) {
    |m.payload| + 4 <= FRAME_LIMIT
  }

  /** type, length of the rest, payload */
  function Frame(m: Message): (s: seq<byte>)
    requires Sendable(m)
    ensures |s| == 5 + |m.payload|
  {
    [m.typ] + PackU32(|m.payload| + 4) + m.payload
  }

  datatype Parsed = Complete(message: Message, rest: seq<byte>) | Incomplete | BadLength

  /** What a receiver that waits for enough bytes makes of a stream. */
  function Parse(s: seq<byte>): (r: Parsed) {
    if |s| < 5 then Incomplete
    else
      var length := UnpackU32(s[1..5]);
      if length < 4 || length > FRAME_LIMIT then BadLength
      else if |s| < length + 1 then Incomplete
      else Complete(Message(s[0], s[5..length + 1]), s[length + 1..])
  }

  lemma FrameHeader(m: Message, tail: seq<byte>)
    requires Sendable(m)
    ensures var s := Frame(m) + tail;
            s[0] == m.typ && s[1..5] == PackU32(|m.payload| + 4) &&
            s[5..5 + |m.payload|] == m.payload && s[5 + |m.payload|..] == tail
  {
  }

  /**
   Parsing is the exact inverse of framing: a stream parses to a message exactly when it starts with
   the frame of that message and the message is within the size limit.
   */
  lemma ParseExactly(s: seq<byte>, m: Message, rest: seq<byte>)
    ensures Parse(s) == Complete(m, rest) <==> WithinLimit(m) && s == Frame(m) + rest
  {
    if WithinLimit(m) && s == Frame(m) + rest {
      FrameHeader(m, rest);
      UnpackPackU32(|m.payload| + 4);
    }
    if Parse(s) == Complete(m, rest) {
      PackUnpackU32(s[1..5]);
      var cut := UnpackU32(s[1..5]) + 1;
      assert s == s[..1] + s[1..5] + s[5..cut] + s[cut..];
      assert s[..1] == [m.typ];
    }
  }

  /** A frame over the limit is refused as soon as its header is in, and no frame is found in part of one. */
  lemma ParseRefusals(m: Message, tail: seq<byte>, k: nat)
    requires Sendable(m)
    ensures !WithinLimit(m) ==> Parse(Frame(m) + tail) == BadLength
    ensures WithinLimit(m) && k < |Frame(m)| ==> Parse(Frame(m)[..k]) == Incomplete
  {
    FrameHeader(m, tail);
    FrameHeader(m, []);
    UnpackPackU32(|m.payload| + 4);
    if k < |Frame(m)| && k >= 5 {
      assert Frame(m)[..k][1..5] == (Frame(m) + [])[1..5];
    }
  }

  function FrameAll(ms: seq<Message>): (s: seq<byte>)
    requires forall i :: 0 <= i < |ms| ==> WithinLimit(ms[i])
  {
    if ms == [] then [] else assert WithinLimit(ms[0]); Frame(ms[0]) + FrameAll(ms[1..])
  }

  /** The first `n` messages of a stream, if it holds that many. */
  function ParseMany(s: seq<byte>, n: nat): (r: Option<(seq<Message>, seq<byte>)>) {
    if n == 0 then Some(([], s))
    else match Parse(s)
      case Complete(m, rest) =>
        (match ParseMany(rest, n - 1)
         case Some((ms, end)) => Some(([m] + ms, end))
         case None => None)
      case _ => None
  }

  /** A whole conversation sent frame by frame is received message by message, nothing left over. */
  lemma {:induction false} ConversationRoundTrip(ms: seq<Message>, tail: seq<byte>)
    requires forall i :: 0 <= i < |ms| ==> WithinLimit(ms[i])
    ensures ParseMany(FrameAll(ms) + tail, |ms|) == Some((ms, tail))
  {
    if ms == [] {
      assert FrameAll(ms) + tail == tail;
    } else {
      NextParsed(ms, 0, tail);
      assert ms[0..] == ms;
      ConversationRoundTrip(ms[1..], tail);
      assert [ms[0]] + ms[1..] == ms;
    }
  }

  lemma NextParsed(ms: seq<Message>, i: nat, tail: seq<byte>)
    requires i < |ms| && forall j :: 0 <= j < |ms| ==> WithinLimit(ms[j])
    ensures Parse(FrameAll(ms[i..]) + tail) == Complete(ms[i], FrameAll(ms[i + 1..]) + tail)
  {
    var rest := FrameAll(ms[i + 1..]) + tail;
    assert ms[i..][0] == ms[i] && ms[i..][1..] == ms[i + 1..];
    assert FrameAll(ms[i..]) + tail == Frame(ms[i]) + rest;
    ParseExactly(FrameAll(ms[i..]) + tail, ms[i], rest);
  }

  datatype Received<+T> = Got(value: T) | TimedOut | Closed | Invalid

  /** Where a `drain` starts: what the peer will send, what has been sent, and its arguments. */
  datatype Log = Log(
    s: seq<byte>, sent: seq<byte>, limit: nat, copyPayload: Option<seq<byte>>, isText: seq<byte> -> bool)

  /** What one turn of `drain` comes to. */
  datatype Turn = Stopped(why: Received<Reply>) | Ready(reply: Reply) | More(reply: Reply)

  /** One end of a connection: bytes not yet read, and bytes written so far. */
  class Socket {
    var incoming: seq<byte>
    var outgoing: seq<byte>

    /** How many messages a reply may have. */
    const replyLimit: nat

    constructor (incoming: seq<byte>)
      ensures this.incoming == incoming && outgoing == [] && replyLimit == 512
    {
      this.incoming, outgoing, replyLimit := incoming, [], 512;
    }

    method SendAll(bytes: seq<byte>)
      modifies this`outgoing
      ensures outgoing == old(outgoing) + bytes
    {
      outgoing := outgoing + bytes;
    }

    /** `sock.recv(max)`: any non-empty prefix of what is there, or nothing once the peer has closed. */
    method Recv(max: nat) returns (chunk: seq<byte>)
      requires max > 0
      modifies this`incoming
      ensures |chunk| <= max && old(incoming) == chunk + incoming
      ensures chunk == [] <==> old(incoming) == []
    {
      if incoming == [] {
        chunk := [];
      } else {
        var n :| 1 <= n <= max && n <= |incoming|;
        chunk, incoming := incoming[..n], incoming[n..];
      }
    }

    method Send(m: Message)
      requires Sendable(m)
      modifies this`outgoing
      ensures outgoing == old(outgoing) + Frame(m)
    {
      SendAll([m.typ] + PackU32(|m.payload| + 4) + m.payload);
    }

    /** Exactly `size` bytes in order, whatever the chunks; `deadline` may expire before any read. */
    method Exact(size: nat) returns (r: Received<seq<byte>>)
      modifies this`incoming
      ensures r.Got? ==> |r.value| == size && old(incoming) == r.value + incoming
      ensures r.Closed? ==> |old(incoming)| < size
      ensures !r.Invalid? && (|old(incoming)| >= size ==> r.Got? || r.TimedOut?)
    {
      var chunks: seq<byte> := [];
      while |chunks| < size
        invariant |chunks| <= size && old(incoming) == chunks + incoming
        decreases size - |chunks|
      {
        var expired: bool := *;
        if expired {
          return TimedOut;
        }
        var chunk := Recv(size - |chunks|);
        if chunk == [] {
          return Closed;
        }
        chunks := chunks + chunk;
      }
      r := Got(chunks);
    }

    /** Unless the deadline passes, one call takes exactly what `Parse` says off the stream. */
    method Receive() returns (r: Received<Message>)
      modifies this`incoming
      ensures r.Got? ==> Parse(old(incoming)) == Complete(r.value, incoming)
      ensures r.Closed? ==> Parse(old(incoming)) == Incomplete
      ensures r.Invalid? ==> Parse(old(incoming)) == BadLength
    {
      ghost var s := incoming;
      var header := Exact(5);
      if !header.Got? {
        r := if header.Closed? then Closed else TimedOut;
        return;
      }
      assert s[1..5] == header.value[1..] && s[0] == header.value[0] && s[5..] == incoming;
      var length := UnpackU32(header.value[1..]);
      if !(4 <= length <= FRAME_LIMIT) {
        return Invalid;
      }
      var data := Exact(length - 4);
      if !data.Got? {
        r := if data.Closed? then Closed else TimedOut;
        return;
      }
      assert s[5..length + 1] == data.value && s[length + 1..] == incoming;
      r := Got(Message(header.value[0], data.value));
    }

    /**
     `drain`: read messages until ReadyForQuery, at most `replyLimit`. Unless the deadline passes it
     succeeds exactly on an answerable stream, takes exactly the messages of the answer off it, and
     has sent what COPY mode asks for.
     */
    method Drain(copyPayload: Option<seq<byte>>, isText: seq<byte> -> bool) returns (r: Received<Reply>)
      requires CopySendable(copyPayload)
      modifies this
      ensures DrainOk(r, old(incoming), replyLimit, incoming, isText)
      ensures r.Got? ==>
                SentFor(old(outgoing), outgoing, Answer(old(incoming), replyLimit), copyPayload)
    {
      ghost var log := Log(incoming, outgoing, replyLimit, copyPayload, isText);
      var turn, ms := DrainTurns(log, replyLimit, copyPayload, isText);
      r := match turn
        case Stopped(why) => why
        case Ready(reply) => Got(reply)
        case More(_) => Invalid;
      DrainEnds(log, turn, ms, incoming, outgoing);
    }

    /** The loop of `drain`; `ms` are the messages it has taken. */
    method DrainTurns(ghost log: Log, limit: nat, copyPayload: Option<seq<byte>>, isText: seq<byte> -> bool)
      returns (turn: Turn, ghost ms: seq<Message>)
      requires CopySendable(copyPayload) && log == Log(incoming, outgoing, limit, copyPayload, isText)
      modifies this
      ensures LoopOk(log, turn, ms, incoming, outgoing, 0)
    {
      turn, ms := More(NO_REPLY), [];
      var left := limit;
      DrainStarts(log);
      while left > 0 && turn.More?
        invariant LoopOk(log, turn, ms, incoming, outgoing, left)
        decreases left
      {
        turn, ms := DrainOne(log, ms, left, turn, copyPayload, isText);
        left := left - 1;
      }
      LoopEnds(log, turn, ms, incoming, outgoing, left);
    }

    /** One turn of the loop of `drain`. */
    method DrainOne(
      ghost log: Log, ghost ms: seq<Message>, ghost left: nat,
      last: Turn, copyPayload: Option<seq<byte>>, isText: seq<byte> -> bool)
      returns (turn: Turn, ghost taken: seq<Message>)
      requires CopySendable(copyPayload) && log.copyPayload == copyPayload && log.isText == isText
      requires last.More? && LoopOk(log, last, ms, incoming, outgoing, left) && left > 0
      modifies this
      ensures LoopOk(log, turn, taken, incoming, outgoing, left - 1)
    {
      LookInside(log, last, ms, incoming, outgoing, left);
      taken := ms;
      ghost var before := incoming;
      var got := Receive();
      if got.TimedOut? {
        turn := Stopped(TimedOut);
      } else if !got.Got? {
        NoMore(log.s, ms, before, log.limit, left, last.reply, isText);
        turn := Stopped(if got.Closed? then Closed else Invalid);
      } else {
        taken := ms + [got.value];
        TurnTaken(log.s, ms, before, got.value, incoming, log.limit, left, last.reply, isText);
        TrafficMore(ms, got.value, copyPayload, log.sent);
        var next := Absorb(last.reply, got.value, isText);
        if next.Err? {
          turn := Stopped(Invalid);
        } else {
          turn := if got.value.typ == READY then Ready(next.value) else More(next.value);
          if got.value.typ == COPY_IN {
            AnswerCopy(copyPayload);
          }
        }
      }
      LookInside(log, turn, taken, incoming, outgoing, left - 1);
    }

    /** What the client sends on CopyInResponse. */
    method AnswerCopy(copyPayload: Option<seq<byte>>)
      requires CopySendable(copyPayload)
      modifies this`outgoing
      ensures outgoing == old(outgoing) + CopyAnswer(copyPayload)
    {
      match copyPayload
      case None => Send(Message(COPY_FAIL, NO_COPY));
      case Some(payload) =>
        Send(Message(COPY_DATA, payload));
        Send(Message(COPY_DONE, []));
    }
  }

  // ---------------------------------------------------------------------------------------------
  // DataRow
  // ---------------------------------------------------------------------------------------------

  /** A column value; None is SQL NULL. */
  type Field = Option<seq<byte>>

  predicate EncodableField(f: Field, isText: seq<byte> -> bool) {
    f.Some? ==> |f.value| < 0x8000_0000 && isText(f.value)
  }

  predicate Encodable(fields: seq<Field>, isText: seq<byte> -> bool) {
    forall i :: 0 <= i < |fields| ==> EncodableField(fields[i], isText)
  }

  /** Size and bytes; the size of NULL is -1. */
  function EncodeField(f: Field): (s: seq<byte>)
    requires f.Some? ==> |f.value| < 0x8000_0000
  {
    match f
    case None => PackI32(-1)
    case Some(b) => PackI32(|b|) + b
  }

  function EncodeFields(fields: seq<Field>, isText: seq<byte> -> bool): (s: seq<byte>)
    requires Encodable(fields, isText)
  {
    if fields == [] then [] else EncodeField(fields[0]) + EncodeFields(fields[1..], isText)
  }

  /** The body of a DataRow message. */
  function EncodeRow(fields: seq<Field>, isText: seq<byte> -> bool): (s: seq<byte>)
    requires |fields| < 0x1_0000 && Encodable(fields, isText)
  {
    PackU16(|fields|) + EncodeFields(fields, isText)
  }

  /** The first field of `s` and what follows it. */
  function DecodeField(s: seq<byte>, isText: seq<byte> -> bool): (r: Result<(Field, seq<byte>)>)
    ensures r.Ok? ==> |r.value.1| < |s|
  {
    if |s| < 4 then Err
    else
      var size := UnpackI32(s[..4]);
      if size == -1 then Ok((None, s[4..]))
      else if size < 0 || 4 + size > |s| || !isText(s[4..4 + size]) then Err
      else Ok((Some(s[4..4 + size]), s[4 + size..]))
  }

  /** On the wire: four bytes of ones are NULL, any other non-negative size is followed by that many bytes. */
  lemma FieldBytes(a: byte, b: byte, c: byte, d: byte, tail: seq<byte>, isText: seq<byte> -> bool)
    ensures DecodeField([255, 255, 255, 255] + tail, isText) == Ok((None, tail))
    ensures var n := a as int * 0x100_0000 + b as int * 0x1_0000 + c as int * 0x100 + d as int;
            a < 128 && n <= |tail| && isText(tail[..n]) ==>
              DecodeField([a, b, c, d] + tail, isText) == Ok((Some(tail[..n]), tail[n..]))
  {
    var none := [255, 255, 255, 255] + tail;
    TwosComplement([255, 255, 255, 255]);
    assert none[..4] == [255, 255, 255, 255] && none[4..] == tail;
    var s, n := [a, b, c, d] + tail, a as int * 0x100_0000 + b as int * 0x1_0000 + c as int * 0x100 + d as int;
    assert s[..4] == [a, b, c, d];
    BigEndian(a, b, c, d);
    if a < 128 && n <= |tail| {
      assert UnpackI32(s[..4]) == n && s[4..4 + n] == tail[..n] && s[4 + n..] == tail[n..];
    }
  }

  /** Exactly `count` fields and nothing after them. */
  function DecodeFields(s: seq<byte>, count: nat, isText: seq<byte> -> bool): (r: Result<seq<Field>>)
    decreases count
  {
    if count == 0 then (if s == [] then Ok([]) else Err)
    else match DecodeField(s, isText)
      case Err => Err
      case Ok((f, rest)) =>
        (match DecodeFields(rest, count - 1, isText)
         case Err => Err
         case Ok(fs) => Ok([f] + fs))
  }

  function DecodeRow(data: seq<byte>, isText: seq<byte> -> bool): (r: Result<seq<Field>>) {
    if |data| < 2 then Err else DecodeFields(data[2..], UnpackU16(data[..2]), isText)
  }

  /** The code's loop over a moving offset. */
  method Row(data: seq<byte>, isText: seq<byte> -> bool) returns (r: Result<seq<Field>>)
    ensures r == DecodeRow(data, isText)
  {
    if |data| < 2 {
      return Err;
    }
    var count := UnpackU16(data[..2]);
    var offset, row: seq<Field> := 2, [];
    ghost var all := DecodeFields(data[2..], count, isText);
    assert all.Ok? ==> row + all.value == all.value;
    for i := 0 to count
      invariant 2 <= offset <= |data|
      invariant DecodeRow(data, isText) == Prepend(row, DecodeFields(data[offset..], count - i, isText))
    {
      PrependStep(row, data[offset..], count - i, isText);
      var step := RowField(data, offset, isText);
      if step.Err? {
        return Err;
      }
      var (field, next) := step.value;
      row, offset := row + [field], next;
    }
    assert row + [] == row;
    if offset != |data| {
      return Err;
    }
    r := Ok(row);
  }

  /** The body of the loop: one field and the offset after it. */
  method RowField(data: seq<byte>, start: nat, isText: seq<byte> -> bool) returns (r: Result<(Field, nat)>)
    requires start <= |data|
    ensures r.Err? <==> DecodeField(data[start..], isText).Err?
    ensures r.Ok? ==> start <= r.value.1 <= |data| &&
                      DecodeField(data[start..], isText) == Ok((r.value.0, data[r.value.1..]))
  {
    var offset := start;
    if |data| < offset + 4 {
      return Err;
    }
    var size := UnpackI32(data[offset..offset + 4]);
    assert data[start..][..4] == data[offset..offset + 4];
    offset := offset + 4;
    if size == -1 {
      r := Ok((None, offset));
      assert data[start..][4..] == data[offset..];
    } else if size < 0 || offset + size > |data| {
      r := Err;
    } else {
      var field := data[offset..offset + size];
      assert data[start..][4..4 + size] == field && data[start..][4 + size..] == data[offset + size..];
      r := if isText(field) then Ok((Some(field), offset + size)) else Err;
    }
  }

  function Prepend(row: seq<Field>, r: Result<seq<Field>>): (s: Result<seq<Field>>) {
    if r.Err? then Err else Ok(row + r.value)
  }

  lemma PrependStep(row: seq<Field>, s: seq<byte>, count: nat, isText: seq<byte> -> bool)
    requires count > 0
    ensures Prepend(row, DecodeFields(s, count, isText)) ==
            match DecodeField(s, isText)
            case Err => Err
            case Ok((f, rest)) => Prepend(row + [f], DecodeFields(rest, count - 1, isText))
  {
    match DecodeField(s, isText)
    case Err =>
    case Ok((f, rest)) =>
      var fs := DecodeFields(rest, count - 1, isText);
      if fs.Ok? {
        assert row + ([f] + fs.value) == row + [f] + fs.value;
      }
  }

  lemma DecodeFieldExactly(s: seq<byte>, f: Field, rest: seq<byte>, isText: seq<byte> -> bool)
    ensures DecodeField(s, isText) == Ok((f, rest)) <==>
            EncodableField(f, isText) && s == EncodeField(f) + rest
  {
    if EncodableField(f, isText) && s == EncodeField(f) + rest {
      var size := if f.None? then -1 else |f.value|;
      UnpackPackI32(size);
      assert s[..4] == PackI32(size);
      if f.Some? {
        assert s[4..4 + size] == f.value && s[4 + size..] == rest;
      } else {
        assert s[4..] == rest;
      }
    }
    if DecodeField(s, isText) == Ok((f, rest)) {
      PackUnpackI32(s[..4]);
      if f.Some? {
        assert s == s[..4] + s[4..4 + |f.value|] + s[4 + |f.value|..];
      } else {
        assert s == s[..4] + s[4..];
      }
    }
  }

  lemma {:induction false} DecodedFieldsEncode(s: seq<byte>, count: nat, fields: seq<Field>, isText: seq<byte> -> bool)
    requires DecodeFields(s, count, isText) == Ok(fields)
    ensures |fields| == count && Encodable(fields, isText) && s == EncodeFields(fields, isText)
    decreases count
  {
    if count > 0 {
      var (f, rest) := DecodeField(s, isText).value;
      DecodeFieldExactly(s, f, rest, isText);
      assert fields[0] == f && DecodeFields(rest, count - 1, isText) == Ok(fields[1..]);
      DecodedFieldsEncode(rest, count - 1, fields[1..], isText);
      assert fields == [f] + fields[1..];
    }
  }

  lemma {:induction false} EncodedFieldsDecode(fields: seq<Field>, isText: seq<byte> -> bool)
    requires Encodable(fields, isText)
    ensures DecodeFields(EncodeFields(fields, isText), |fields|, isText) == Ok(fields)
  {
    if fields != [] {
      var rest := EncodeFields(fields[1..], isText);
      DecodeFieldExactly(EncodeFields(fields, isText), fields[0], rest, isText);
      EncodedFieldsDecode(fields[1..], isText);
      assert fields == [fields[0]] + fields[1..];
    }
  }

  /**
   The decoder accepts exactly the well-formed DataRow bodies, and encoding what it returns gives the
   same bytes back.
   */
  lemma DecodeRowExactly(data: seq<byte>, fields: seq<Field>, isText: seq<byte> -> bool)
    ensures DecodeRow(data, isText) == Ok(fields) <==>
            |fields| < 0x1_0000 && Encodable(fields, isText) && data == EncodeRow(fields, isText)
  {
    if |data| >= 2 {
      var count := UnpackU16(data[..2]);
      assert data == data[..2] + data[2..];
      if DecodeRow(data, isText) == Ok(fields) {
        DecodedFieldsEncode(data[2..], count, fields, isText);
      }
      if |fields| < 0x1_0000 && Encodable(fields, isText) && data == EncodeRow(fields, isText) {
        assert data[..2] == PackU16(|fields|) && data[2..] == EncodeFields(fields, isText);
        UnpackPackU16(|fields|);
        EncodedFieldsDecode(fields, isText);
      }
    }
  }

  // ---------------------------------------------------------------------------------------------
  // Draining a reply
  // ---------------------------------------------------------------------------------------------

  const DATA_ROW: byte := 'D' as int
  const ERROR: byte := 'E' as int
  const COMPLETE: byte := 'C' as int
  const COPY_IN: byte := 'G' as int
  const READY: byte := 'Z' as int
  const COPY_FAIL: byte := 'f' as int
  const COPY_DATA: byte := 'd' as int
  const COPY_DONE: byte := 'c' as int

  function Ascii(s: string): (b: seq<byte>)
    requires forall i :: 0 <= i < |s| ==> s[i] < 128 as char
    ensures |b| == |s|
  {
    seq(|s|, i requires 0 <= i < |s| => s[i] as int)
  }

  const NO_COPY: seq<byte> := Ascii("unexpected COPY mode\0")

  predicate CopySendable(copyPayload: Option<seq<byte>>) {
    copyPayload.Some? ==> Sendable(Message(COPY_DATA, copyPayload.value))
  }

  function CopyAnswer(copyPayload: Option<seq<byte>>): (s: seq<byte>)
    requires CopySendable(copyPayload)
  {
    match copyPayload
    case None => Frame(Message(COPY_FAIL, NO_COPY))
    case Some(payload) => Frame(Message(COPY_DATA, payload)) + Frame(Message(COPY_DONE, []))
  }

  /** An error stays the bytes of its message; its fields are decoded leniently and never fail. */
  datatype Reply = Reply(
    rows: seq<seq<Field>>, errors: seq<seq<byte>>, tags: seq<seq<byte>>, copyEntered: bool, status: Option<seq<byte>>)

  const NO_REPLY := Reply([], [], [], false, None)

  /** bytes.rstrip(b"\0") */
  function StripZeros(b: seq<byte>): (r: seq<byte>) {
    if b != [] && b[|b| - 1] == 0 then StripZeros(b[..|b| - 1]) else b
  }

  /** A stripped tag is the payload up to its last byte that is not zero. */
  lemma {:induction false} StripsZeros(b: seq<byte>)
    ensures var r := StripZeros(b);
            r <= b && (r != [] ==> r[|r| - 1] != 0) && forall i :: |r| <= i < |b| ==> b[i] == 0
  {
    if b != [] && b[|b| - 1] == 0 {
      StripsZeros(b[..|b| - 1]);
    }
  }

  /**
   What the client answers to CopyInResponse, read as messages: CopyFail if it has nothing to copy,
   else CopyData with the payload and then CopyDone, and nothing more.
   */
  lemma CopyAnswerReads(copyPayload: Option<seq<byte>>)
    requires copyPayload.Some? ==> WithinLimit(Message('d' as int, copyPayload.value))
    ensures ParseMany(CopyAnswer(copyPayload), if copyPayload.None? then 1 else 2) ==
            Some((match copyPayload
                  case None => [Message('f' as int, Ascii("unexpected COPY mode\0"))]
                  case Some(payload) => [Message('d' as int, payload), Message('c' as int, [])], []))
  {
    match copyPayload
    case None =>
      var m := Message(COPY_FAIL, NO_COPY);
      ConversationRoundTrip([m], []);
      assert [m][1..] == [] && FrameAll([m]) + [] == Frame(m);
    case Some(payload) =>
      var m, n := Message(COPY_DATA, payload), Message(COPY_DONE, []);
      ConversationRoundTrip([m, n], []);
      assert [m, n][1..] == [n] && [n][1..] == [];
      assert FrameAll([n]) == Frame(n) + [] == Frame(n);
      assert FrameAll([m, n]) + [] == Frame(m) + Frame(n);
  }

  /** One turn of the loop: what a message adds to the reply. */
  function Absorb(reply: Reply, m: Message, isText: seq<byte> -> bool): (r: Result<Reply>) {
    if m.typ == DATA_ROW then
      match DecodeRow(m.payload, isText)
      case Err => Err
      case Ok(row) => Ok(reply.(rows := reply.rows + [row]))
    else if m.typ == ERROR then Ok(reply.(errors := reply.errors + [m.payload]))
    else if m.typ == COMPLETE then
      var tag := StripZeros(m.payload);
      if isText(tag) then Ok(reply.(tags := reply.tags + [tag])) else Err
    else if m.typ == COPY_IN then Ok(reply.(copyEntered := true))
    else if m.typ == READY then
      if isText(m.payload) then Ok(reply.(status := Some(m.payload))) else Err
    else Ok(reply)
  }

  function Replied(ms: seq<Message>, isText: seq<byte> -> bool): (r: Result<Reply>) {
    if ms == [] then Ok(NO_REPLY)
    else match Replied(ms[..|ms| - 1], isText)
      case Err => Err
      case Ok(reply) => Absorb(reply, ms[|ms| - 1], isText)
  }

  /** What the client sends on one message. */
  function Traffic(m: Message, copyPayload: Option<seq<byte>>): (s: seq<byte>)
    requires CopySendable(copyPayload)
  {
    if m.typ == COPY_IN then CopyAnswer(copyPayload) else []
  }

  function CopyTraffic(ms: seq<Message>, copyPayload: Option<seq<byte>>): (s: seq<byte>)
    requires CopySendable(copyPayload)
  {
    if ms == [] then []
    else CopyTraffic(ms[..|ms| - 1], copyPayload) + Traffic(ms[|ms| - 1], copyPayload)
  }

  /** On these messages the client has sent just what COPY mode asks for. */
  predicate SentFor(before: seq<byte>, after: seq<byte>, ms: seq<Message>, copyPayload: Option<seq<byte>>)
    requires CopySendable(copyPayload)
  {
    after == before + CopyTraffic(ms, copyPayload)
  }

  predicate AllWithin(ms: seq<Message>) {
    forall i :: 0 <= i < |ms| ==> WithinLimit(ms[i])
  }

  predicate NoneReady(ms: seq<Message>) {
    forall i :: 0 <= i < |ms| ==> ms[i].typ != READY
  }

  /** The messages of a stream up to the first ReadyForQuery, at most `limit`. */
  function Answer(s: seq<byte>, limit: nat): (ms: seq<Message>)
    decreases limit
  {
    if limit == 0 then []
    else match Parse(s)
      case Complete(m, rest) => if m.typ == READY then [m] else [m] + Answer(rest, limit - 1)
      case _ => []
  }

  /** ReadyForQuery comes within the limit and every message up to it is well formed. */
  predicate Answerable(s: seq<byte>, limit: nat, isText: seq<byte> -> bool) {
    var ms := Answer(s, limit);
    ms != [] && ms[|ms| - 1].typ == READY && Replied(ms, isText).Ok?
  }

  /** Receiving `ms` one after the other takes `s` to `rest`. */
  ghost predicate Consumed(s: seq<byte>, ms: seq<Message>, rest: seq<byte>)
    decreases |ms|
  {
    if ms == [] then rest == s
    else exists before :: Consumed(s, ms[..|ms| - 1], before) && Parse(before) == Complete(ms[|ms| - 1], rest)
  }

  lemma ConsumedMore(s: seq<byte>, ms: seq<Message>, before: seq<byte>, m: Message, rest: seq<byte>)
    requires Consumed(s, ms, before) && Parse(before) == Complete(m, rest)
    ensures Consumed(s, ms + [m], rest)
  {
    assert (ms + [m])[..|ms|] == ms;
  }

  /** What was consumed is the frames of the messages. */
  lemma {:induction false} ConsumedFrames(s: seq<byte>, ms: seq<Message>, rest: seq<byte>)
    requires Consumed(s, ms, rest)
    ensures AllWithin(ms) && s == FrameAll(ms) + rest
    decreases |ms|
  {
    if ms != [] {
      var n := |ms| - 1;
      var before :| Consumed(s, ms[..n], before) && Parse(before) == Complete(ms[n], rest);
      ConsumedFrames(s, ms[..n], before);
      TookFrame(s, ms[..n], before, ms[n], rest);
      assert ms == ms[..n] + [ms[n]];
    }
  }

  /** `ms` has been taken off the stream `s`, `rest` is left, and `left` more messages may come. */
  ghost predicate Taken(s: seq<byte>, ms: seq<Message>, rest: seq<byte>, limit: nat, left: nat) {
    NoneReady(ms) && Consumed(s, ms, rest) && Answer(s, limit) == ms + Answer(rest, left)
  }

  /** In the loop: `reply` is what the messages taken so far add up to. */
  ghost predicate Reading(
    s: seq<byte>, ms: seq<Message>, rest: seq<byte>, limit: nat, left: nat, reply: Reply, isText: seq<byte> -> bool)
  {
    Taken(s, ms, rest, limit, left) && Replied(ms, isText) == Ok(reply)
  }

  /** The answer has been taken off the stream, `rest` is left, and `reply` is what it adds up to. */
  ghost predicate Drained(s: seq<byte>, limit: nat, rest: seq<byte>, reply: Reply, isText: seq<byte> -> bool) {
    var ms := Answer(s, limit);
    Replied(ms, isText) == Ok(reply) && AllWithin(ms) && s == FrameAll(ms) + rest
  }

  /** What `drain` may return: unless the deadline passes, the answer exactly if there is one. */
  ghost predicate DrainOk(
    r: Received<Reply>, s: seq<byte>, limit: nat, rest: seq<byte>, isText: seq<byte> -> bool)
  {
    match r
    case TimedOut => true
    case Got(reply) => Answerable(s, limit, isText) && Drained(s, limit, rest, reply, isText)
    case _ => !Answerable(s, limit, isText)
  }

  /** What holds after a turn: `ms` have been taken, `rest` is still to come, `out` has been sent. */
  ghost predicate TurnOk(log: Log, turn: Turn, ms: seq<Message>, rest: seq<byte>, out: seq<byte>, left: nat) {
    match turn
    case Stopped(why) => !why.Got? && (why.TimedOut? || !Answerable(log.s, log.limit, log.isText))
    case Ready(reply) =>
      Answerable(log.s, log.limit, log.isText) && Answer(log.s, log.limit) == ms && Consumed(log.s, ms, rest) &&
      Replied(ms, log.isText) == Ok(reply) && CopySendable(log.copyPayload) &&
      SentFor(log.sent, out, ms, log.copyPayload)
    case More(reply) =>
      Reading(log.s, ms, rest, log.limit, left, reply, log.isText) && CopySendable(log.copyPayload) &&
      SentFor(log.sent, out, ms, log.copyPayload)
  }

  predicate IsTurn(t: Turn, turn: Turn) {
    t == turn
  }

  /** The same as an invariant: the verifier looks inside only where `IsTurn` is mentioned. */
  ghost predicate LoopOk(log: Log, turn: Turn, ms: seq<Message>, rest: seq<byte>, out: seq<byte>, left: nat) {
    forall t :: IsTurn(t, turn) ==> TurnOk(log, t, ms, rest, out, left)
  }

  lemma LookInside(log: Log, turn: Turn, ms: seq<Message>, rest: seq<byte>, out: seq<byte>, left: nat)
    ensures LoopOk(log, turn, ms, rest, out, left) <==> TurnOk(log, turn, ms, rest, out, left)
  {
    assert IsTurn(turn, turn);
  }

  lemma DrainStarts(log: Log)
    requires CopySendable(log.copyPayload)
    ensures LoopOk(log, More(NO_REPLY), [], log.s, log.sent, log.limit)
  {
    LookInside(log, More(NO_REPLY), [], log.s, log.sent, log.limit);
    assert [] + Answer(log.s, log.limit) == Answer(log.s, log.limit);
    assert log.sent + [] == log.sent;
  }

  lemma LoopEnds(log: Log, turn: Turn, ms: seq<Message>, rest: seq<byte>, out: seq<byte>, left: nat)
    requires LoopOk(log, turn, ms, rest, out, left) && (turn.More? ==> left == 0)
    ensures LoopOk(log, turn, ms, rest, out, 0)
  {
    LookInside(log, turn, ms, rest, out, left);
    LookInside(log, turn, ms, rest, out, 0);
  }

  lemma DrainEnds(log: Log, turn: Turn, ms: seq<Message>, rest: seq<byte>, out: seq<byte>)
    requires CopySendable(log.copyPayload) && LoopOk(log, turn, ms, rest, out, 0)
    ensures var r := match turn
                     case Stopped(why) => why
                     case Ready(reply) => Got(reply)
                     case More(_) => Invalid;
            DrainOk(r, log.s, log.limit, rest, log.isText) &&
            (r.Got? ==> SentFor(log.sent, out, Answer(log.s, log.limit), log.copyPayload))
  {
    LookInside(log, turn, ms, rest, out, 0);
    match turn
    case Stopped(_) =>
    case Ready(_) => ConsumedFrames(log.s, ms, rest);
    case More(reply) => NoMore(log.s, ms, rest, log.limit, 0, reply, log.isText);
  }

  lemma NoMore(
    s: seq<byte>, ms: seq<Message>, rest: seq<byte>, limit: nat, left: nat, reply: Reply, isText: seq<byte> -> bool)
    requires Reading(s, ms, rest, limit, left, reply, isText) && (left == 0 || !Parse(rest).Complete?)
    ensures !Answerable(s, limit, isText)
  {
    assert Answer(rest, left) == [] && ms + [] == ms;
  }

  lemma RepliedMore(ms: seq<Message>, m: Message, isText: seq<byte> -> bool)
    ensures Replied(ms + [m], isText) ==
            match Replied(ms, isText) case Err => Err case Ok(reply) => Absorb(reply, m, isText)
  {
    assert (ms + [m])[..|ms|] == ms;
  }

  lemma TrafficMore(ms: seq<Message>, m: Message, copyPayload: Option<seq<byte>>, sent: seq<byte>)
    requires CopySendable(copyPayload)
    ensures sent + CopyTraffic(ms + [m], copyPayload) == sent + CopyTraffic(ms, copyPayload) + Traffic(m, copyPayload)
  {
    assert (ms + [m])[..|ms|] == ms;
  }

  /** An illegible message spoils every reply it is part of. */
  lemma {:induction false} ErrorStays(ms: seq<Message>, all: seq<Message>, isText: seq<byte> -> bool)
    requires Replied(ms, isText).Err? && ms <= all
    ensures Replied(all, isText).Err?
    decreases |all|
  {
    if ms != all {
      ErrorStays(ms, all[..|all| - 1], isText);
    }
  }

  lemma {:induction false} FrameAllMore(ms: seq<Message>, m: Message)
    requires AllWithin(ms) && WithinLimit(m)
    ensures FrameAll(ms + [m]) == FrameAll(ms) + Frame(m)
  {
    if ms == [] {
      assert ms + [m] == [m] && FrameAll([m]) == Frame(m) + [];
    } else {
      var first, rest := Frame(ms[0]), FrameAll(ms[1..]);
      FrameAllMore(ms[1..], m);
      assert (ms + [m])[0] == ms[0] && (ms + [m])[1..] == ms[1..] + [m];
      Regroup(first + (rest + Frame(m)), first, rest, Frame(m));
    }
  }

  lemma AnswerStep(before: seq<byte>, m: Message, after: seq<byte>, left: nat)
    requires Parse(before) == Complete(m, after) && left > 0
    ensures Answer(before, left) == [m] + if m.typ == READY then [] else Answer(after, left - 1)
  {
  }

  lemma Regroup<T>(all: seq<T>, a: seq<T>, b: seq<T>, c: seq<T>)
    requires all == a + (b + c)
    ensures all == (a + b) + c && a + b <= all
  {
    assert (a + b) + c == a + (b + c);
  }

  lemma TookFrame(s: seq<byte>, ms: seq<Message>, before: seq<byte>, m: Message, after: seq<byte>)
    requires AllWithin(ms) && s == FrameAll(ms) + before && Parse(before) == Complete(m, after)
    ensures AllWithin(ms + [m]) && s == FrameAll(ms + [m]) + after
  {
    ParseExactly(before, m, after);
    FrameAllMore(ms, m);
    Regroup(s, FrameAll(ms), Frame(m), after);
  }

  /** One more message is taken off the stream. */
  lemma TookOne(
    s: seq<byte>, ms: seq<Message>, before: seq<byte>, m: Message, after: seq<byte>, limit: nat, left: nat)
    requires Taken(s, ms, before, limit, left) && Parse(before) == Complete(m, after) && left > 0
    ensures Consumed(s, ms + [m], after) && ms + [m] <= Answer(s, limit)
    ensures if m.typ == READY then Answer(s, limit) == ms + [m] else Taken(s, ms + [m], after, limit, left - 1)
  {
    ConsumedMore(s, ms, before, m, after);
    AnswerStep(before, m, after, left);
    var rest := if m.typ == READY then [] else Answer(after, left - 1);
    Regroup(Answer(s, limit), ms, [m], rest);
    assert m.typ == READY ==> (ms + [m]) + rest == ms + [m];
  }

  /** One turn of the loop. */
  lemma TurnTaken(
    s: seq<byte>, ms: seq<Message>, before: seq<byte>, m: Message, after: seq<byte>, limit: nat, left: nat,
    reply: Reply, isText: seq<byte> -> bool)
    requires Reading(s, ms, before, limit, left, reply, isText) && Parse(before) == Complete(m, after) && left > 0
    ensures Absorb(reply, m, isText).Err? ==> !Answerable(s, limit, isText)
    ensures Absorb(reply, m, isText).Ok? && m.typ == READY ==>
              Answer(s, limit) == ms + [m] && Answerable(s, limit, isText) && Consumed(s, ms + [m], after) &&
              Replied(ms + [m], isText) == Absorb(reply, m, isText)
    ensures Absorb(reply, m, isText).Ok? && m.typ != READY ==>
              Reading(s, ms + [m], after, limit, left - 1, Absorb(reply, m, isText).value, isText)
  {
    TookOne(s, ms, before, m, after, limit, left);
    RepliedMore(ms, m, isText);
    if Absorb(reply, m, isText).Err? {
      ErrorStays(ms + [m], Answer(s, limit), isText);
    }
  }

  function Payloads(ms: seq<Message>, typ: byte): (ps: seq<seq<byte>>) {
    if ms == [] then []
    else Payloads(ms[..|ms| - 1], typ) + if ms[|ms| - 1].typ == typ then [ms[|ms| - 1].payload] else []
  }

  /** The message can be read. */
  predicate Legible(m: Message, isText: seq<byte> -> bool) {
    (m.typ == DATA_ROW ==> DecodeRow(m.payload, isText).Ok?) &&
    (m.typ == COMPLETE ==> isText(StripZeros(m.payload))) && (m.typ == READY ==> isText(m.payload))
  }

  /** A reply is refused exactly if a message is illegible. */
  lemma {:induction false} RepliedExactly(ms: seq<Message>, isText: seq<byte> -> bool)
    ensures Replied(ms, isText).Ok? <==> forall i :: 0 <= i < |ms| ==> Legible(ms[i], isText)
  {
    if ms != [] {
      var n := |ms| - 1;
      RepliedExactly(ms[..n], isText);
      assert forall i :: 0 <= i < n ==> ms[..n][i] == ms[i];
    }
  }

  predicate RowsDecode(rows: seq<seq<Field>>, bodies: seq<seq<byte>>, isText: seq<byte> -> bool) {
    |rows| == |bodies| && forall i :: 0 <= i < |bodies| ==> DecodeRow(bodies[i], isText) == Ok(rows[i])
  }

  predicate TagsStrip(tags: seq<seq<byte>>, bodies: seq<seq<byte>>) {
    |tags| == |bodies| && forall i :: 0 <= i < |bodies| ==> tags[i] == StripZeros(bodies[i])
  }

  lemma {:induction false} ReplyRows(ms: seq<Message>, isText: seq<byte> -> bool)
    requires Replied(ms, isText).Ok?
    ensures RowsDecode(Replied(ms, isText).value.rows, Payloads(ms, DATA_ROW), isText)
  {
    if ms != [] {
      ReplyRows(ms[..|ms| - 1], isText);
    }
  }

  lemma {:induction false} ReplyTags(ms: seq<Message>, isText: seq<byte> -> bool)
    requires Replied(ms, isText).Ok?
    ensures TagsStrip(Replied(ms, isText).value.tags, Payloads(ms, COMPLETE))
  {
    if ms != [] {
      ReplyTags(ms[..|ms| - 1], isText);
    }
  }

  lemma {:induction false} ReplyErrors(ms: seq<Message>, isText: seq<byte> -> bool)
    requires Replied(ms, isText).Ok?
    ensures Replied(ms, isText).value.errors == Payloads(ms, ERROR)
    ensures Replied(ms, isText).value.copyEntered <==> Payloads(ms, COPY_IN) != []
  {
    if ms != [] {
      ReplyErrors(ms[..|ms| - 1], isText);
    }
  }

  lemma {:induction false} ReplyStatus(ms: seq<Message>, isText: seq<byte> -> bool)
    requires Replied(ms, isText).Ok?
    ensures var ready := Payloads(ms, READY);
            Replied(ms, isText).value.status == if ready == [] then None else Some(ready[|ready| - 1])
  {
    if ms != [] {
      ReplyStatus(ms[..|ms| - 1], isText);
    }
  }

  /**
   The rows of a reply are the decoded DataRow messages, its errors and tags the ErrorResponse and
   CommandComplete messages, each in order, COPY mode was entered if it was announced, and the status
   is that of the last ReadyForQuery.
   */
  lemma ReplyContents(ms: seq<Message>, isText: seq<byte> -> bool)
    requires Replied(ms, isText).Ok?
    ensures var reply := Replied(ms, isText).value;
            RowsDecode(reply.rows, Payloads(ms, DATA_ROW), isText) && reply.errors == Payloads(ms, ERROR) &&
            TagsStrip(reply.tags, Payloads(ms, COMPLETE)) &&
            (reply.copyEntered <==> Payloads(ms, COPY_IN) != []) &&
            (ms != [] && ms[|ms| - 1].typ == READY ==> reply.status == Some(ms[|ms| - 1].payload)) &&
            (Payloads(ms, READY) == [] ==> reply.status == None)
  {
    ReplyRows(ms, isText);
    ReplyTags(ms, isText);
    ReplyErrors(ms, isText);
    ReplyStatus(ms, isText);
  }

  lemma AnswerOfFrames(ms: seq<Message>, tail: seq<byte>, limit: nat)
    requires AllWithin(ms) && ms != [] && limit > 0
    ensures Answer(FrameAll(ms) + tail, limit) ==
            [ms[0]] + if ms[0].typ == READY then [] else Answer(FrameAll(ms[1..]) + tail, limit - 1)
  {
    NextParsed(ms, 0, tail);
    assert ms[0..] == ms;
    AnswerStep(FrameAll(ms) + tail, ms[0], FrameAll(ms[1..]) + tail, limit);
  }

  lemma AnswerOfReady(ms: seq<Message>, tail: seq<byte>, limit: nat)
    requires AllWithin(ms) && |ms| == 1 && ms[0].typ == READY && limit > 0
    ensures Answer(FrameAll(ms) + tail, limit) == ms
  {
    AnswerOfFrames(ms, tail, limit);
    assert ms == [ms[0]];
  }

  lemma AnswerGrows(ms: seq<Message>, tail: seq<byte>, limit: nat)
    requires AllWithin(ms) && ms != [] && ms[0].typ != READY && limit > 0
    requires Answer(FrameAll(ms[1..]) + tail, limit - 1) == ms[1..]
    ensures Answer(FrameAll(ms) + tail, limit) == ms
  {
    AnswerOfFrames(ms, tail, limit);
    assert ms == [ms[0]] + ms[1..];
  }

  /** The last message, and no other, is ReadyForQuery. */
  predicate EndsReady(ms: seq<Message>) {
    ms != [] && if ms[0].typ == READY then |ms| == 1 else EndsReady(ms[1..])
  }

  /** A conversation that ends with its first ReadyForQuery, within the limit, is the answer. */
  lemma {:induction false} AnswerOfConversation(ms: seq<Message>, tail: seq<byte>, limit: nat)
    requires AllWithin(ms) && |ms| <= limit && EndsReady(ms)
    ensures Answer(FrameAll(ms) + tail, limit) == ms
  {
    if ms[0].typ == READY {
      AnswerOfReady(ms, tail, limit);
    } else {
      AnswerOfConversation(ms[1..], tail, limit - 1);
      AnswerGrows(ms, tail, limit);
    }
  }
}
