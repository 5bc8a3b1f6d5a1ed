/** The packets of an AVDTP message byte by byte, and what the receiver makes of each packet. */
module AvdtpPackets {
  import opened AvdtpMessages

  // ---------------------------------------------------------------- what is sent

  /** The first byte of a packet: the message type in the two low bits, then the packet type, then the transaction. */
  lemma FirstByte(p: Packet)
    requires ValidHeader(p.header)
    ensures var code := match p.header.packetType case Single => 0 case Start => 1 case Continue => 2 case End => 3;
      WireBytes(p) == [16 * p.header.transaction + 4 * code + p.header.messageType] + p.rest
  {
  }

  /** The packets behind the start packet in closed form: each takes the next `omtu - 1` bytes, the last what is left. */
  lemma {:induction false} LaterAt(omtu: nat, l: Label, data: seq<Byte>, sent: nat, k: nat, at: nat)
    requires omtu >= 3 && sent <= |data| && k < |LaterPackets(omtu, l, data, sent)| && at == sent + k * (omtu - 1)
    ensures at < |data|
    ensures k == |LaterPackets(omtu, l, data, sent)| - 1 <==> |data| - at <= omtu - 1
    ensures LaterPackets(omtu, l, data, sent)[k] ==
      if |data| - at <= omtu - 1 then Packet(Header(l.transaction, End, l.messageType), data[at..])
      else Packet(Header(l.transaction, Continue, l.messageType), data[at..at + (omtu - 1)])
    decreases k
  {
    if k > 0 {
      OneLess(k, omtu - 1);
      LaterAt(omtu, l, data, sent + omtu - 1, k - 1, at);
    }
  }

  lemma OneLess(k: nat, d: nat)
    requires k > 0
    ensures k * d == d + (k - 1) * d
  {
  }

  /** The packets of a message, number `k` of them: a single one if the message fits with two bytes in front of it; else
      the start packet, with the number of packets the sender announces and the first bytes, then continue packets, and
      the end packet. */
  lemma MessagePackets(omtu: nat, l: Label, data: seq<Byte>, k: nat, at: nat)
    requires CanSend(omtu, |data|) && ValidLabel(l) && k < |Packets(omtu, l, data)|
    requires at == if k == 0 then 0 else omtu - 3 + (k - 1) * (omtu - 1)
    ensures var p := Packets(omtu, l, data)[k];
      if 2 + |data| <= omtu then
        k == 0 && p == Packet(Header(l.transaction, Single, l.messageType), [l.signalId] + data)
      else if k == 0 then
        && |Packets(omtu, l, data)| > 1
        && p == Packet(Header(l.transaction, Start, l.messageType),
            [((|data| - (omtu - 3)) / (omtu - 1) + 2) % 256, l.signalId] + data[..omtu - 3])
      else
        && at < |data|
        && (k == |Packets(omtu, l, data)| - 1 <==> |data| - at <= omtu - 1)
        && p == (if |data| - at <= omtu - 1 then Packet(Header(l.transaction, End, l.messageType), data[at..])
            else Packet(Header(l.transaction, Continue, l.messageType), data[at..at + (omtu - 1)]))
  {
    if 2 + |data| > omtu {
      var later := LaterPackets(omtu, l, data, omtu - 3);
      LaterUnfold(omtu, l, data, omtu - 3);
      if k > 0 {
        assert Packets(omtu, l, data)[k] == later[k - 1];
        LaterAt(omtu, l, data, omtu - 3, k - 1, at);
      }
    }
  }

  // ---------------------------------------------------------------- what is received

  /** Where the payload of a packet begins, behind its first byte. */
  function Behind(t: PacketType): nat {
    match t
    case Single => 1
    case Start => 2
    case Continue => 0
    case End => 0
  }

  /** A packet is taken exactly when it comes in its place: one that begins a message while none is being received, one
      that goes on with it in the same transaction, a continue packet while more than one packet is expected and an end
      packet when it is the last; and when its payload has room in the buffer. */
  predicate Taken(s: Reassembly, p: Packet) {
    && (if p.header.packetType == Single || p.header.packetType == Start then
          !s.active && |p.rest| >= Behind(p.header.packetType) && |p.rest| - Behind(p.header.packetType) <= 1024
        else
          && s.active && p.header.transaction == s.head.transaction
          && (p.header.packetType == Continue <==> s.noOfPackets > 1)
          && s.dataSize + |p.rest| <= 1024)
  }

  /** The receiver after a packet: a packet that is not taken is an error. One that is taken puts its payload behind what
      was received so far, and leaves a fragment while more packets are expected, else the whole message. A packet that
      begins a message notes transaction, message type, signal and the number of packets. */
  lemma PacketTaken(s: Reassembly, p: Packet)
    requires ValidReassembly(s)
    ensures var (r, result) := Parse(s, p);
      if !Taken(s, p) then result == ParseError
      else
        var begins := p.header.packetType == Single || p.header.packetType == Start;
        var payload := p.rest[Behind(p.header.packetType)..];
        var start := if begins then 0 else s.dataSize;
        var expected := if p.header.packetType == Single then 1 else if begins then p.rest[0] else s.noOfPackets;
        && |r.buf| == 1024 && r.buf[..start] == s.buf[..start] && r.buf[start..start + |payload|] == payload
        && r.buf[start + |payload|..] == s.buf[start + |payload|..]
        && r.dataSize == (start + |payload|) % 256
        && r.head == (if begins then
              Label(p.header.transaction, p.header.messageType, p.rest[Behind(p.header.packetType) - 1] % 64)
            else s.head)
        && (if expected > 1 then result == ParseFragment && r.active && r.noOfPackets == expected - 1
            else result == ParseSuccess && !r.active)
  {
  }

  /** A continue or end packet that is refused leaves the message so far as it was. */
  lemma RefusedLeaves(s: Reassembly, p: Packet)
    requires ValidReassembly(s) && !Taken(s, p) && (p.header.packetType == Continue || p.header.packetType == End)
    ensures Parse(s, p).0 == s
  {
  }
}
