/** AVDTP signalling messages on the wire: fragmentation by the sender, reassembly by the receiver (section 8.4 of
    the Audio/Video Distribution Transport Protocol 1.3). */
module AvdtpMessages {

  import opened Rounding

  type Byte = x: int | 0 <= x < 256

  const BUFFER_SIZE: nat := 1024

  /** The four values of a two-bit field, in this order. */
  datatype PacketType = Single | Start | Continue | End

  /** The bit-fields of the first byte: 4, 2 and 2 bits. */
  datatype Header = Header(transaction: nat, packetType: PacketType, messageType: nat)

  /** What is read from or written to the channel at once. No packet is shorter than its first byte. */
  datatype Packet = Packet(header: Header, rest: seq<Byte>)

  /** What a message says besides its payload. The fields have 4, 2 and 6 bits. */
  datatype Label = Label(transaction: nat, messageType: nat, signalId: nat)

  predicate ValidHeader(h: Header) {
    h.transaction < 16 && h.messageType < 4
  }

  predicate ValidLabel(l: Label) {
    l.transaction < 16 && l.messageType < 4 && l.signalId < 64
  }

  // ---------------------------------------------------------------- the wire

  function TypeCode(t: PacketType): (code: nat)
    ensures code < 4
  {
    match t
    case Single => 0
    case Start => 1
    case Continue => 2
    case End => 3
  }

  function TypeOfCode(code: nat): PacketType
    requires code < 4
  {
    if code == 0 then Single else if code == 1 then Start else if code == 2 then Continue else End
  }

  function WireBytes(p: Packet): seq<Byte>
    requires ValidHeader(p.header)
  {
    [p.header.messageType + 4 * TypeCode(p.header.packetType) + 16 * p.header.transaction] + p.rest
  }

  function OffWire(bytes: seq<Byte>): Packet
    requires bytes != []
  {
    Packet(Header(bytes[0] / 16, TypeOfCode((bytes[0] / 4) % 4), bytes[0] % 4), bytes[1..])
  }

  /** Packets and non-empty byte strings are the same thing: nothing is lost by speaking of header fields. */
  lemma WireRoundTrip(p: Packet)
    requires ValidHeader(p.header)
    ensures OffWire(WireBytes(p)) == p
  {
    var b := p.header.messageType + 4 * TypeCode(p.header.packetType) + 16 * p.header.transaction;
    var h := p.header;
    DivisionIsUnique(b, 4, TypeCode(h.packetType) + 4 * h.transaction, h.messageType);
    DivisionIsUnique(TypeCode(h.packetType) + 4 * h.transaction, 4, h.transaction, TypeCode(h.packetType));
    DivisionIsUnique(b, 16, h.transaction, h.messageType + 4 * TypeCode(h.packetType));
    assert WireBytes(p)[1..] == p.rest;
  }

  lemma WireRoundTripBack(bytes: seq<Byte>)
    requires bytes != []
    ensures ValidHeader(OffWire(bytes).header) && WireBytes(OffWire(bytes)) == bytes
  {
    var b := bytes[0];
    assert b == 4 * (b / 4) + b % 4;
    assert b / 4 == 4 * ((b / 4) / 4) + (b / 4) % 4;
    DivisionIsUnique(b, 16, (b / 4) / 4, b % 4 + 4 * ((b / 4) % 4));
  }

  // ---------------------------------------------------------------- sending

  function SinglePacket(l: Label, data: seq<Byte>): Packet {
    Packet(Header(l.transaction, Single, l.messageType), [l.signalId % 64] + data)
  }

  function StartPacket(l: Label, packets: nat, data: seq<Byte>): Packet {
    Packet(Header(l.transaction, Start, l.messageType), [packets % 256, l.signalId % 64] + data)
  }

  function LaterPacket(l: Label, packetType: PacketType, data: seq<Byte>): Packet {
    Packet(Header(l.transaction, packetType, l.messageType), data)
  }

  /** The continue packets and the end packet for the data from `sent` on. */
  function LaterPackets(omtu: nat, l: Label, data: seq<Byte>, sent: nat): seq<Packet>
    requires omtu >= 3 && sent <= |data|
    decreases |data| - sent
  {
    if sent == |data| then []
    else if |data| - sent + 1 > omtu then
      [LaterPacket(l, Continue, data[sent..sent + omtu - 1])] + LaterPackets(omtu, l, data, sent + omtu - 1)
    else [LaterPacket(l, End, data[sent..])]
  }

  /** The sender's count of the packets behind the start packet. */
  function CountedLater(omtu: nat, length: nat): nat
    requires omtu >= 3 && length + 2 > omtu
  {
    (length - (omtu - 3)) / (omtu - 1) + 1
  }

  predicate CanSend(omtu: nat, length: nat) {
    2 + length <= omtu || omtu >= 3
  }

  /** All packets of a message. */
  function Packets(omtu: nat, l: Label, data: seq<Byte>): seq<Packet>
    requires CanSend(omtu, |data|)
  {
    if 2 + |data| <= omtu then [SinglePacket(l, data)]
    else
      [StartPacket(l, CountedLater(omtu, |data|) + 1, data[..omtu - 3])] + LaterPackets(omtu, l, data, omtu - 3)
  }

  /** A signalling channel: what was sent on it, and how many packets it takes before a send fails. */
  class Channel {
    const omtu: nat
    var open: bool
    var sent: seq<Packet>
    var room: nat

    constructor (omtu: nat, room: nat)
      ensures this.omtu == omtu && open && sent == [] && this.room == room
    {
      this.omtu := omtu;
      open, sent, this.room := true, [], room;
    }

    method TrySend(packet: Packet) returns (ok: bool)
      modifies this
      ensures open == old(open)
      ensures ok == (old(room) > 0) && room == (if ok then old(room) - 1 else old(room))
      ensures sent == if ok then old(sent) + [packet] else old(sent)
    {
      if room == 0 {
        return false;
      }
      room, sent := room - 1, sent + [packet];
      return true;
    }

    /** Sends a message whole or in fragments; false when the channel is closed, the MTU has no room for a start
        packet, or a send fails, and then only the packets before that one are out. */
    method Send(l: Label, data: seq<Byte>) returns (ok: bool)
      modifies this
      ensures open == old(open)
      ensures !open || !CanSend(omtu, |data|) ==> !ok && sent == old(sent) && room == old(room)
      ensures open && CanSend(omtu, |data|) ==>
        var all := Packets(omtu, l, data);
        && ok == (|all| <= old(room))
        && sent == old(sent) + (if ok then all else all[..old(room)])
        && room == if ok then old(room) - |all| else 0
    {
      if !open {
        return false;
      }
      if 2 + |data| <= omtu {
        ok := TrySend(SinglePacket(l, data));
        return;
      }
      if omtu < 3 {
        return false;
      }
      var contFragments := (|data| - (omtu - 3)) / (omtu - 1) + 1;
      var start := StartPacket(l, contFragments + 1, data[..omtu - 3]);
      ok := TrySend(start);
      if ok {
        ghost var later := LaterPackets(omtu, l, data, omtu - 3);
        ok := SendLater(l, data, later);
        if !ok {
          TakeFirst(start, later, old(room));
        }
      }
    }

    /** The loop of `Send`, behind the start packet. */
    method SendLater(l: Label, data: seq<Byte>, ghost all: seq<Packet>) returns (ok: bool)
      requires omtu >= 3 && 2 + |data| > omtu && all == LaterPackets(omtu, l, data, omtu - 3)
      modifies this
      ensures open == old(open) && ok == (|all| <= old(room))
      ensures ok ==> sent == old(sent) + all && room == old(room) - |all|
      ensures !ok ==> sent == old(sent) + all[..old(room)] && room == 0
    {
      var done := omtu - 3;
      while done < |data|
        invariant omtu - 3 <= done <= |data|
        invariant sent + LaterPackets(omtu, l, data, done) == old(sent) + all
        invariant open == old(open) && room <= old(room) && |sent| == |old(sent)| + old(room) - room
      {
        ghost var later := LaterPackets(omtu, l, data, done);
        var toCopy;
        ok, toCopy := SendNext(l, data, done);
        if !ok {
          StoppedAt(old(sent), all, sent, later);
          return;
        }
        done := done + toCopy;
      }
      ok := true;
      SentAll(old(sent), all, sent);
    }

    /** One turn of the loop. */
    method SendNext(l: Label, data: seq<Byte>, done: nat) returns (ok: bool, toCopy: nat)
      requires omtu >= 3 && done < |data|
      modifies this
      ensures open == old(open) && ok == (old(room) > 0) && room == (if ok then old(room) - 1 else old(room))
      ensures 0 < toCopy <= |data| - done
      ensures !ok ==> sent == old(sent) && |LaterPackets(omtu, l, data, done)| > 0
      ensures ok ==> |sent| == |old(sent)| + 1
      ensures ok ==> sent + LaterPackets(omtu, l, data, done + toCopy) == old(sent) + LaterPackets(omtu, l, data, done)
    {
      var left := |data| - done;
      var packetType;
      if left + 1 > omtu {
        packetType, toCopy := Continue, omtu - 1;
      } else {
        packetType, toCopy := End, left;
      }
      var packet := LaterPacket(l, packetType, data[done..done + toCopy]);
      LaterUnfold(omtu, l, data, done);
      SentOne(sent, packet, LaterPackets(omtu, l, data, done + toCopy), LaterPackets(omtu, l, data, done));
      ok := TrySend(packet);
    }
  }

  lemma SentOne(before: seq<Packet>, packet: Packet, rest: seq<Packet>, later: seq<Packet>)
    requires later == [packet] + rest
    ensures |later| > 0 && (before + [packet]) + rest == before + later && |before + [packet]| == |before| + 1
  {
  }

  lemma SentAll(before: seq<Packet>, all: seq<Packet>, sent: seq<Packet>)
    requires sent + [] == before + all
    ensures sent == before + all && |sent| == |before| + |all|
  {
  }

  lemma StoppedAt(before: seq<Packet>, all: seq<Packet>, sent: seq<Packet>, later: seq<Packet>)
    requires sent + later == before + all && |sent| >= |before| && |later| > 0
    ensures |sent| - |before| < |all| && sent == before + all[..|sent| - |before|]
  {
    var n := |sent| - |before|;
    assert |sent| + |later| == |before| + |all|;
    assert (before + all)[..|sent|] == before + all[..n];
    assert (sent + later)[..|sent|] == sent;
  }

  lemma TakeFirst(first: Packet, later: seq<Packet>, n: nat)
    requires 0 < n <= |later| + 1
    ensures ([first] + later)[..n] == [first] + later[..n - 1]
  {
  }

  lemma LaterUnfold(omtu: nat, l: Label, data: seq<Byte>, sent: nat)
    requires omtu >= 3 && sent < |data|
    ensures var left := |data| - sent;
      var packetType: PacketType := if left + 1 > omtu then Continue else End;
      var toCopy := if left + 1 > omtu then omtu - 1 else left;
      LaterPackets(omtu, l, data, sent) ==
        [LaterPacket(l, packetType, data[sent..sent + toCopy])] + LaterPackets(omtu, l, data, sent + toCopy)
  {
    if |data| - sent + 1 <= omtu {
      assert data[sent..] == data[sent..|data|];
    }
  }

  // ---------------------------------------------------------------- receiving

  datatype ParseResult = ParseError | ParseFragment | ParseSuccess

  /** The reassembly state. Its size counter has eight bits. */
  datatype Reassembly = Reassembly(active: bool, noOfPackets: int, head: Label, buf: seq<Byte>, dataSize: nat)

  predicate ValidReassembly(s: Reassembly) {
    |s.buf| == BUFFER_SIZE && s.dataSize < 256
  }

  /** The message a successful parse leaves behind. */
  function Delivered(s: Reassembly): seq<Byte>
    requires ValidReassembly(s)
  {
    s.buf[..s.dataSize]
  }

  /** Appends a payload at the size counter, which wraps at 256. */
  function Append(s: Reassembly, payload: seq<Byte>): (r: (Reassembly, ParseResult))
    requires ValidReassembly(s)
    ensures ValidReassembly(r.0)
  {
    if s.dataSize + |payload| > BUFFER_SIZE then (s, ParseError)
    else
      var buf := s.buf[..s.dataSize] + payload + s.buf[s.dataSize + |payload|..];
      var s' := s.(buf := buf, dataSize := (s.dataSize + |payload|) % 256);
      if s.noOfPackets > 1 then (s'.(noOfPackets := s.noOfPackets - 1), ParseFragment)
      else (s'.(active := false), ParseSuccess)
  }

  function Parse(s: Reassembly, packet: Packet): (r: (Reassembly, ParseResult))
    requires ValidReassembly(s)
    ensures ValidReassembly(r.0)
  {
    var h, rest := packet.header, packet.rest;
    match h.packetType
    case Single =>
      if |rest| < 1 || s.active then (s, ParseError)
      else Append(Reassembly(true, 1, Label(h.transaction, h.messageType, rest[0] % 64), s.buf, 0), rest[1..])
    case Start =>
      if |rest| < 2 || s.active then (s, ParseError)
      else Append(Reassembly(true, rest[0], Label(h.transaction, h.messageType, rest[1] % 64), s.buf, 0), rest[2..])
    case Continue =>
      if !s.active || s.head.transaction != h.transaction || s.noOfPackets <= 1 then (s, ParseError)
      else Append(s, rest)
    case End =>
      if !s.active || s.head.transaction != h.transaction || s.noOfPackets > 1 then (s, ParseError)
      else Append(s, rest)
  }

  /** Feeds packets to the receiver until one is refused, which loses the connection. */
  function ParseAll(s: Reassembly, packets: seq<Packet>): (r: (Reassembly, seq<ParseResult>))
    requires ValidReassembly(s)
    ensures ValidReassembly(r.0) && |r.1| <= |packets|
    decreases |packets|
  {
    if packets == [] then (s, [])
    else
      var first := Parse(s, packets[0]);
      if first.1 == ParseError then (first.0, [ParseError])
      else var rest := ParseAll(first.0, packets[1..]); (rest.0, [first.1] + rest.1)
  }

  /** The receiver's end of a channel. */
  class Receiver {
    var active: bool
    var noOfPackets: int
    var transaction: nat
    var messageType: nat
    var signalId: nat
    const buf: array<Byte>
    var dataSize: nat

    ghost predicate Valid()
      reads this
    {
      buf.Length == BUFFER_SIZE && dataSize < 256
    }

    ghost function State(): (s: Reassembly)
      requires Valid()
      reads this, buf
      ensures ValidReassembly(s)
    {
      Reassembly(active, noOfPackets, Label(transaction, messageType, signalId), buf[..], dataSize)
    }

    constructor ()
      ensures Valid() && fresh(buf) && !active
    {
      active, noOfPackets, dataSize := false, 0, 0;
      transaction, messageType, signalId := 0, 0, 0;
      buf := new Byte[BUFFER_SIZE](i => 0);
    }

    method AppendPayload(payload: seq<Byte>) returns (result: ParseResult)
      requires Valid()
      modifies this, buf
      ensures Valid() && (State(), result) == Append(old(State()), payload)
    {
      if dataSize + |payload| > BUFFER_SIZE {
        return ParseError;
      }
      ghost var before := buf[..];
      forall i | 0 <= i < |payload| {
        buf[dataSize + i] := payload[i];
      }
      assert buf[..] == before[..dataSize] + payload + before[dataSize + |payload|..];
      dataSize := (dataSize + |payload|) % 256;
      if noOfPackets > 1 {
        noOfPackets := noOfPackets - 1;
        return ParseFragment;
      }
      active := false;
      return ParseSuccess;
    }

    method ParseData(packet: Packet) returns (result: ParseResult)
      requires Valid()
      modifies this, buf
      ensures Valid() && (State(), result) == Parse(old(State()), packet)
    {
      var h, rest := packet.header, packet.rest;
      var payload;
      match h.packetType {
        case Single =>
          if |rest| < 1 || active {
            return ParseError;
          }
          payload := rest[1..];
          active, dataSize, noOfPackets := true, 0, 1;
          transaction, messageType, signalId := h.transaction, h.messageType, rest[0] % 64;
        case Start =>
          if |rest| < 2 || active {
            return ParseError;
          }
          active, dataSize, noOfPackets := true, 0, rest[0];
          transaction, messageType, signalId := h.transaction, h.messageType, rest[1] % 64;
          payload := rest[2..];
        case Continue =>
          if !active || transaction != h.transaction || noOfPackets <= 1 {
            return ParseError;
          }
          payload := rest;
        case End =>
          if !active || transaction != h.transaction || noOfPackets > 1 {
            return ParseError;
          }
          payload := rest;
      }
      result := AppendPayload(payload);
    }
  }

  // ---------------------------------------------------------------- from sender to receiver

  /** Every packet but the last is a fragment, the last completes the message, and it is the one that was sent. */
  ghost predicate Transferred(r: (Reassembly, seq<ParseResult>), l: Label, data: seq<Byte>)
    requires ValidReassembly(r.0)
  {
    && |r.1| > 0
    && (forall k :: 0 <= k < |r.1| - 1 ==> r.1[k] == ParseFragment)
    && r.1[|r.1| - 1] == ParseSuccess
    && r.0.head == l && Delivered(r.0) == data && !r.0.active
  }

  /** The message fits the receiver's eight-bit size, and the sender does not announce one packet too many. */
  predicate Transferable(omtu: nat, length: nat) {
    length <= 255 && (2 + length <= omtu || (omtu >= 3 && (length - (omtu - 3)) % (omtu - 1) != 0))
  }

  /** The quotient and the exactness of the sender's division, by repeated subtraction. */
  function Quotient(a: nat, d: nat): nat
    requires d > 0
  {
    if a < d then 0 else Quotient(a - d, d) + 1
  }

  predicate Exact(a: nat, d: nat)
    requires d > 0
  {
    if a < d then a == 0 else Exact(a - d, d)
  }

  lemma {:induction false} QuotientIsDivision(a: nat, d: nat)
    requires d > 0
    ensures Quotient(a, d) == a / d && Exact(a, d) == (a % d == 0)
  {
    if a < d {
      DivisionIsUnique(a, d, 0, a);
    } else {
      QuotientIsDivision(a - d, d);
      DivisionIsUnique(a, d, (a - d) / d + 1, (a - d) % d);
    }
  }

  lemma DivisionIsUnique(a: int, d: nat, q: int, r: nat)
    requires d > 0 && a == d * q + r && r < d
    ensures a / d == q && a % d == r
  {
    SmallMultiple(d, q - a / d, a % d - r);
  }

  lemma SmallMultiple(d: int, k: int, r: int)
    requires d * k == r && -d < r < d
    ensures k == 0
  {
    if k > 0 {
      MulAtLeast(k, d);
    } else if k < 0 {
      MulAtLeast(-k, d);
    }
  }

  /** What the receiver makes of one packet that goes behind `sent` bytes of the message. */
  lemma Appended(s: Reassembly, data: seq<Byte>, sent: nat, payload: seq<Byte>)
    requires ValidReassembly(s) && s.dataSize == sent
    requires sent + |payload| <= |data| <= 255 && payload == data[sent..sent + |payload|]
    requires s.buf[..sent] == data[..sent]
    ensures var (t, result) := Append(s, payload);
      && t.dataSize == sent + |payload| && t.buf[..t.dataSize] == data[..t.dataSize] && t.head == s.head
      && (if s.noOfPackets > 1 then
            result == ParseFragment && t.active == s.active && t.noOfPackets == s.noOfPackets - 1
          else result == ParseSuccess && !t.active)
  {
    var t := Append(s, payload).0;
    var end := sent + |payload|;
    assert t.buf[..end] == s.buf[..sent] + payload;
    assert data[..end] == data[..sent] + data[sent..end];
  }

  /** The receiver expects a continue packet exactly while more than one packet is announced. */
  lemma LaterParsed(s: Reassembly, l: Label, packetType: PacketType, payload: seq<Byte>)
    requires ValidReassembly(s) && s.active && s.head == l && (packetType == Continue || packetType == End)
    ensures Parse(s, LaterPacket(l, packetType, payload)) ==
      if (packetType == Continue) == (s.noOfPackets > 1) then Append(s, payload) else (s, ParseError)
  {
  }

  lemma ParseAllFirst(s: Reassembly, first: Packet, rest: seq<Packet>)
    requires ValidReassembly(s) && Parse(s, first).1 != ParseError
    ensures var r := ParseAll(Parse(s, first).0, rest);
      ParseAll(s, [first] + rest) == (r.0, [Parse(s, first).1] + r.1)
  {
    assert ([first] + rest)[1..] == rest;
  }

  /** All packets go through, but the last is refused when the sender's division was exact. */
  ghost predicate GoesThrough(r: (Reassembly, seq<ParseResult>), exact: bool, l: Label, data: seq<Byte>)
    requires ValidReassembly(r.0)
  {
    if exact then
      && |r.1| > 0
      && r.1[|r.1| - 1] == ParseError
    else Transferred(r, l, data)
  }

  /** The receiver holds the first `sent` bytes and expects as many packets as the sender counted. */
  ghost predicate Holds(s: Reassembly, omtu: nat, l: Label, data: seq<Byte>, sent: nat)
    requires omtu >= 3 && sent <= |data| <= 255
  {
    && ValidReassembly(s) && s.active && s.head == l
    && s.dataSize == sent && s.buf[..sent] == data[..sent]
    && s.noOfPackets == Quotient(|data| - sent, omtu - 1) + 1
  }

  lemma ContinueAppended(s: Reassembly, omtu: nat, l: Label, data: seq<Byte>, sent: nat)
    requires omtu >= 3 && sent < |data| <= 255 && |data| - sent + 1 > omtu
    requires Holds(s, omtu, l, data, sent)
    ensures var r := Append(s, data[sent..sent + omtu - 1]);
      r.1 == ParseFragment && Holds(r.0, omtu, l, data, sent + omtu - 1)
  {
    Appended(s, data, sent, data[sent..sent + omtu - 1]);
    assert |data| - (sent + omtu - 1) == |data| - sent - (omtu - 1);
  }

  lemma {:induction false} LaterReceived(s: Reassembly, omtu: nat, l: Label, data: seq<Byte>, sent: nat,
      packets: seq<Packet>, exact: bool)
    requires omtu >= 3 && sent < |data| <= 255 && ValidLabel(l)
    requires Holds(s, omtu, l, data, sent)
    requires packets == LaterPackets(omtu, l, data, sent) && exact == Exact(|data| - sent, omtu - 1)
    ensures GoesThrough(ParseAll(s, packets), exact, l, data)
    decreases |data| - sent
  {
    if |data| - sent + 1 > omtu {
      var next := sent + omtu - 1;
      var rest := LaterPackets(omtu, l, data, next);
      ContinueAppended(s, omtu, l, data, sent);
      assert |data| - next == |data| - sent - (omtu - 1);
      LaterReceived(Append(s, data[sent..next]).0, omtu, l, data, next, rest, exact);
      ContinueReceived(s, omtu, l, data, sent, rest, exact);
    } else {
      EndReceived(s, omtu, l, data, sent);
    }
  }

  lemma ContinueReceived(s: Reassembly, omtu: nat, l: Label, data: seq<Byte>, sent: nat, rest: seq<Packet>, exact: bool)
    requires omtu >= 3 && sent < |data| <= 255 && ValidLabel(l) && |data| - sent + 1 > omtu
    requires Holds(s, omtu, l, data, sent)
    requires GoesThrough(ParseAll(Append(s, data[sent..sent + omtu - 1]).0, rest), exact, l, data)
    ensures GoesThrough(ParseAll(s, [LaterPacket(l, Continue, data[sent..sent + omtu - 1])] + rest), exact, l, data)
  {
    var next := sent + omtu - 1;
    var packet := LaterPacket(l, Continue, data[sent..next]);
    ContinueAppended(s, omtu, l, data, sent);
    LaterParsed(s, l, Continue, data[sent..next]);
    OneMoreFragment(s, packet, Append(s, data[sent..next]).0, rest, [packet] + rest, exact, l, data);
  }

  lemma OneMoreFragment(s: Reassembly, packet: Packet, t: Reassembly, rest: seq<Packet>, all: seq<Packet>, exact: bool,
      l: Label, data: seq<Byte>)
    requires ValidReassembly(s) && ValidReassembly(t) && Parse(s, packet) == (t, ParseFragment)
    requires all == [packet] + rest && GoesThrough(ParseAll(t, rest), exact, l, data)
    ensures GoesThrough(ParseAll(s, all), exact, l, data)
  {
    ParseAllFirst(s, packet, rest);
    var r := ParseAll(t, rest).1;
    var results := [ParseFragment] + r;
    assert results[|results| - 1] == r[|r| - 1];
  }

  lemma EndReceived(s: Reassembly, omtu: nat, l: Label, data: seq<Byte>, sent: nat)
    requires omtu >= 3 && sent < |data| <= 255 && ValidLabel(l)
    requires Holds(s, omtu, l, data, sent)
    requires |data| - sent + 1 <= omtu
    ensures var r := ParseAll(s, LaterPackets(omtu, l, data, sent));
      GoesThrough(r, Exact(|data| - sent, omtu - 1), l, data)
  {
    var left, packet := |data| - sent, LaterPacket(l, End, data[sent..]);
    assert LaterPackets(omtu, l, data, sent) == [packet] + [];
    LaterParsed(s, l, End, data[sent..]);
    if left < omtu - 1 {
      Appended(s, data, sent, data[sent..]);
      ParseAllFirst(s, packet, []);
      assert data[..|data|] == data;
    } else {
      assert Exact(left - (omtu - 1), omtu - 1);
    }
  }

  /** A packet that begins a message is taken by an idle receiver, whatever it holds from before. */
  lemma SingleParsed(s: Reassembly, l: Label, payload: seq<Byte>)
    requires ValidReassembly(s) && !s.active && ValidLabel(l)
    ensures Parse(s, SinglePacket(l, payload)) == Append(Reassembly(true, 1, l, s.buf, 0), payload)
  {
    assert SinglePacket(l, payload).rest[1..] == payload;
  }

  lemma StartParsed(s: Reassembly, l: Label, packets: nat, payload: seq<Byte>)
    requires ValidReassembly(s) && !s.active && ValidLabel(l) && packets < 256
    ensures Parse(s, StartPacket(l, packets, payload)) == Append(Reassembly(true, packets, l, s.buf, 0), payload)
  {
    assert StartPacket(l, packets, payload).rest[2..] == payload;
  }

  lemma SingleAppended(s: Reassembly, data: seq<Byte>)
    requires ValidReassembly(s) && s.dataSize == 0 && s.noOfPackets <= 1 && |data| <= BUFFER_SIZE
    ensures var r := Append(s, data);
      r.1 == ParseSuccess && !r.0.active && r.0.head == s.head && Delivered(r.0) == data[..|data| % 256]
  {
    var t := Append(s, data).0;
    assert t.buf == data + s.buf[|data|..];
    assert t.buf[..t.dataSize] == data[..t.dataSize];
  }

  lemma OnePacket(s: Reassembly, packet: Packet, t: Reassembly)
    requires ValidReassembly(s) && Parse(s, packet) == (t, ParseSuccess)
    ensures ParseAll(s, [packet]) == (t, [ParseSuccess])
  {
    assert [packet][1..] == [];
    assert ParseAll(t, []) == (t, []);
    assert [ParseSuccess] + [] == [ParseSuccess];
  }

  lemma SingleReceived(s: Reassembly, l: Label, data: seq<Byte>, packets: seq<Packet>)
    requires ValidReassembly(s) && !s.active && ValidLabel(l) && |data| <= BUFFER_SIZE
    requires packets == [SinglePacket(l, data)]
    ensures var r := ParseAll(s, packets);
      r.1 == [ParseSuccess] && !r.0.active && r.0.head == l && Delivered(r.0) == data[..|data| % 256]
  {
    var started := Reassembly(true, 1, l, s.buf, 0);
    SingleParsed(s, l, data);
    SingleAppended(started, data);
    OnePacket(s, SinglePacket(l, data), Append(started, data).0);
  }

  lemma FewPackets(omtu: nat, length: nat)
    requires omtu >= 3 && omtu < length + 2 && length <= 255
    ensures CountedLater(omtu, length) + 1 < 256
    ensures CountedLater(omtu, length) == Quotient(length - (omtu - 3), omtu - 1) + 1
  {
    var a, d := length - (omtu - 3), omtu - 1;
    QuotientIsDivision(a, d);
    AtMostHalf(a, d);
  }

  lemma {:induction false} AtMostHalf(a: nat, d: nat)
    requires d >= 2
    ensures 2 * Quotient(a, d) <= a
  {
    if a >= d {
      AtMostHalf(a - d, d);
    }
  }

  /** The start packet leaves the receiver with the first bytes of the message and the count of the later packets. */
  lemma StartAppended(s: Reassembly, omtu: nat, l: Label, data: seq<Byte>)
    requires omtu >= 3 && omtu < |data| + 2 && |data| <= 255
    requires ValidReassembly(s) && s.active && s.head == l && s.dataSize == 0
    requires s.noOfPackets == CountedLater(omtu, |data|) + 1
    ensures var r := Append(s, data[..omtu - 3]);
      r.1 == ParseFragment && Holds(r.0, omtu, l, data, omtu - 3)
  {
    FewPackets(omtu, |data|);
    Appended(s, data, 0, data[..omtu - 3]);
  }

  lemma FragmentsReceived(s: Reassembly, omtu: nat, l: Label, data: seq<Byte>, packets: seq<Packet>, exact: bool)
    requires ValidReassembly(s) && !s.active && ValidLabel(l)
    requires omtu >= 3 && omtu < |data| + 2 && |data| <= 255
    requires packets == Packets(omtu, l, data) && exact == ((|data| - (omtu - 3)) % (omtu - 1) == 0)
    ensures GoesThrough(ParseAll(s, packets), exact, l, data)
  {
    var count := CountedLater(omtu, |data|) + 1;
    var rest := LaterPackets(omtu, l, data, omtu - 3);
    var started := Reassembly(true, count, l, s.buf, 0);
    FewPackets(omtu, |data|);
    StartAppended(started, omtu, l, data);
    QuotientIsDivision(|data| - (omtu - 3), omtu - 1);
    LaterReceived(Append(started, data[..omtu - 3]).0, omtu, l, data, omtu - 3, rest, exact);
    StartReceived(s, l, count, data[..omtu - 3], rest, packets, exact, data);
  }

  lemma StartReceived(s: Reassembly, l: Label, count: nat, payload: seq<Byte>, rest: seq<Packet>, packets: seq<Packet>,
      exact: bool, data: seq<Byte>)
    requires ValidReassembly(s) && !s.active && ValidLabel(l) && 1 < count < 256 && |payload| <= BUFFER_SIZE
    requires packets == [StartPacket(l, count, payload)] + rest
    requires GoesThrough(ParseAll(Append(Reassembly(true, count, l, s.buf, 0), payload).0, rest), exact, l, data)
    ensures GoesThrough(ParseAll(s, packets), exact, l, data)
  {
    var t := Append(Reassembly(true, count, l, s.buf, 0), payload).0;
    StartParsed(s, l, count, payload);
    OneMoreFragment(s, StartPacket(l, count, payload), t, rest, packets, exact, l, data);
  }

  /** Sending a message and reassembling its packets gives the message back exactly when it fits eight bits of size and
      the sender's division leaves a remainder. */
  lemma TransferExactlyWhen(s: Reassembly, omtu: nat, l: Label, data: seq<Byte>, packets: seq<Packet>)
    requires ValidReassembly(s) && !s.active && ValidLabel(l)
    requires CanSend(omtu, |data|) && packets == Packets(omtu, l, data)
    ensures Transferred(ParseAll(s, packets), l, data) <==> Transferable(omtu, |data|)
  {
    if |data| > 255 {
      NothingLongIsTransferred(ParseAll(s, packets), l, data);
    } else if 2 + |data| <= omtu {
      SingleReceived(s, l, data, packets);
      assert data[..|data|] == data;
    } else {
      FragmentsReceived(s, omtu, l, data, packets, (|data| - (omtu - 3)) % (omtu - 1) == 0);
    }
  }

  lemma NothingLongIsTransferred(r: (Reassembly, seq<ParseResult>), l: Label, data: seq<Byte>)
    requires ValidReassembly(r.0) && |data| > 255
    ensures !Transferred(r, l, data)
  {
    assert |Delivered(r.0)| < 256;
  }

  /** A message that fills its last packet is announced with one packet too many: the receiver takes its end packet for
      an early one and drops the connection. */
  lemma FullLastPacketIsRefused(s: Reassembly, l: Label, data: seq<Byte>, packets: seq<Packet>)
    requires ValidReassembly(s) && !s.active && ValidLabel(l)
    requires |data| == 6 && packets == Packets(5, l, data)
    ensures var r := ParseAll(s, packets).1;
      |r| > 0 && r[|r| - 1] == ParseError
  {
    FragmentsReceived(s, 5, l, data, packets, true);
  }

  /** A message of 256 bytes or more that comes in one packet is accepted and loses all but its length modulo 256. */
  lemma LongMessageIsCut(s: Reassembly, omtu: nat, l: Label, data: seq<Byte>, packets: seq<Packet>)
    requires ValidReassembly(s) && !s.active && ValidLabel(l)
    requires 2 + |data| <= omtu && |data| <= BUFFER_SIZE && packets == Packets(omtu, l, data)
    ensures var r := ParseAll(s, packets);
      r.1 == [ParseSuccess] && r.0.head == l && Delivered(r.0) == data[..|data| % 256]
  {
    SingleReceived(s, l, data, packets);
  }

  /** No packet is larger than the outgoing MTU. */
  lemma PacketsFit(omtu: nat, l: Label, data: seq<Byte>)
    requires CanSend(omtu, |data|)
    ensures forall k :: 0 <= k < |Packets(omtu, l, data)| ==> |Packets(omtu, l, data)[k].rest| + 1 <= omtu
  {
    if 2 + |data| > omtu {
      LaterPacketsFit(omtu, l, data, omtu - 3);
    }
  }

  lemma {:induction false} LaterPacketsFit(omtu: nat, l: Label, data: seq<Byte>, sent: nat)
    requires omtu >= 3 && sent <= |data|
    ensures forall k :: 0 <= k < |LaterPackets(omtu, l, data, sent)| ==> |LaterPackets(omtu, l, data, sent)[k].rest| + 1 <= omtu
    decreases |data| - sent
  {
    if |data| - sent + 1 > omtu {
      LaterPacketsFit(omtu, l, data, sent + omtu - 1);
    }
  }
}
