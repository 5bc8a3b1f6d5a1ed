/** AVRCP responses that do not fit one AV/C frame: the first part is sent at once, the rest on demand (section 6.8 of
    the Audio/Video Remote Control Profile 1.5). */
module AvrcpContinuation {
  import opened Options

  type Byte = x: int | 0 <= x < 256

  type Iovec = seq<seq<Byte>>

  const HEADER_LENGTH: nat := 7

  const ABORT_CONTINUING := 0x41

  datatype PacketType = Single | Start | Continuing | End

  /** A packet as it is handed to the channel: an entry of the vector may have been left unset. */
  datatype Pdu = Pdu(pduId: nat, packetType: PacketType, parts: seq<Option<seq<Byte>>>)

  datatype Remainder = Remainder(pduId: nat, data: seq<Byte>)

  datatype Control = Control(mtu: nat, continuing: Option<Remainder>, sent: seq<Pdu>)

  function Joined(iov: Iovec): seq<Byte> {
    if iov == [] then [] else iov[0] + Joined(iov[1..])
  }

  function Params(parts: seq<Option<seq<Byte>>>): seq<Byte> {
    if parts == [] then []
    else (if parts[0].Some? then parts[0].value else []) + Params(parts[1..])
  }

  predicate AllSet(parts: seq<Option<seq<Byte>>>) {
    forall k :: 0 <= k < |parts| ==> parts[k].Some?
  }

  function Unset(n: nat): (r: seq<Option<seq<Byte>>>)
    ensures |r| == n && forall k :: 0 <= k < n ==> r[k] == None
  {
    if n == 0 then [] else [None] + Unset(n - 1)
  }

  // ---------------------------------------------------------------- operations

  /** The entries that go out when there is room for `space` bytes, how many bytes these are, and what is left over. */
  datatype Cut = Cut(parts: seq<Option<seq<Byte>>>, used: nat, rest: Option<seq<Byte>>)

  function CutAt(space: nat, iov: Iovec): (c: Cut)
    ensures |c.parts| == |iov| && c.used <= space
    decreases |iov|
  {
    if iov == [] then Cut([], 0, None)
    else if |iov[0]| <= space then
      var c := CutAt(space - |iov[0]|, iov[1..]);
      Cut([Some(iov[0])] + c.parts, |iov[0]| + c.used, c.rest)
    else
      Cut([Some(iov[0][..space])] + Unset(|iov| - 1), space, Some(iov[0][space..] + Joined(iov[1..])))
  }

  function SentType(packetType: PacketType, iov: Iovec, c: Cut): PacketType {
    if c.rest.Some? then if packetType == Single then Start else Continuing
    else if packetType != Single && iov != [] then End
    else packetType
  }

  function SendInternal(s: Control, pduId: nat, packetType: PacketType, iov: Iovec): Control
    requires s.mtu > HEADER_LENGTH
  {
    var c := CutAt(s.mtu - HEADER_LENGTH, iov);
    s.(continuing := if c.rest.Some? then Some(Remainder(pduId, c.rest.value)) else None,
       sent := s.sent + [Pdu(pduId, SentType(packetType, iov, c), c.parts)])
  }

  /** A response of the upper layer. */
  function Respond(s: Control, pduId: nat, iov: Iovec): Control
    requires s.mtu > HEADER_LENGTH
  {
    SendInternal(s, pduId, Single, iov)
  }

  /** The peer asks for more; false if there is nothing more of this PDU. */
  function RequestContinuing(s: Control, params: seq<nat>): (Control, bool)
    requires s.mtu > HEADER_LENGTH
  {
    if |params| != 1 || s.continuing.None? || s.continuing.value.pduId != params[0] then (s, false)
    else (SendInternal(s, params[0], Continuing, [s.continuing.value.data]), true)
  }

  function AbortContinuing(s: Control, params: seq<nat>): (Control, bool)
    requires s.mtu > HEADER_LENGTH
  {
    if |params| != 1 || s.continuing.None? then (s, false)
    else (SendInternal(s.(continuing := None), ABORT_CONTINUING, Single, []), true)
  }

  // ---------------------------------------------------------------- the object

  class Avrcp {
    const mtu: nat
    var continuing: Option<Remainder>
    var sent: seq<Pdu>

    ghost function State(): Control
      reads this
    {
      Control(mtu, continuing, sent)
    }

    constructor (mtu: nat)
      requires mtu > HEADER_LENGTH
      ensures State() == Control(mtu, None, [])
    {
      this.mtu := mtu;
      continuing, sent := None, [];
    }

    method ContinuingNew(pduId: nat, iov: Iovec, offset: nat)
      requires iov != [] && 0 <= offset <= |iov[0]|
      modifies `continuing
      ensures continuing == Some(Remainder(pduId, iov[0][offset..] + Joined(iov[1..])))
    {
      var data, i := iov[0][offset..], 1;
      while i < |iov|
        invariant 1 <= i <= |iov|
        invariant data + Joined(iov[i..]) == iov[0][offset..] + Joined(iov[1..])
      {
        assert iov[i..][1..] == iov[i + 1..];
        assert (data + iov[i]) + Joined(iov[i + 1..]) == data + (iov[i] + Joined(iov[i + 1..]));
        data := data + iov[i];
        i := i + 1;
      }
      assert data + Joined([]) == data;
      continuing := Some(Remainder(pduId, data));
    }

    method AvrcpSendInternal(pduId: nat, packetType: PacketType, iov: Iovec)
      requires mtu > HEADER_LENGTH
      modifies this
      ensures State() == SendInternal(old(State()), pduId, packetType, iov)
    {
      continuing := None;
      var parts, paramsLen, i := FillWhole(iov);
      var hdrType := if packetType != Single && i > 0 then End else packetType;
      if i < |iov| {
        var space := mtu - (HEADER_LENGTH + paramsLen);
        ProgressCut(iov, mtu - HEADER_LENGTH, i, parts, paramsLen);
        parts := parts[i := Some(iov[i][..space])];
        ContinuingNew(pduId, iov[i..], space);
        hdrType := if hdrType != Single then Continuing else Start;
      } else {
        ProgressEnd(iov, mtu - HEADER_LENGTH, parts, paramsLen);
      }
      sent := sent + [Pdu(pduId, hdrType, parts)];
    }

    method SendMore(params: seq<nat>) returns (ok: bool)
      requires mtu > HEADER_LENGTH
      modifies this
      ensures (State(), ok) == RequestContinuing(old(State()), params)
      ensures ok <==> |params| == 1 && old(continuing).Some? && old(continuing).value.pduId == params[0]
      ensures !ok ==> sent == old(sent) && continuing == old(continuing)
      ensures ok ==> |sent| == |old(sent)| + 1 && sent[..|old(sent)|] == old(sent) && sent[|old(sent)|].pduId == params[0]
    {
      if |params| != 1 || continuing.None? || continuing.value.pduId != params[0] {
        return false;
      }
      AvrcpSendInternal(params[0], Continuing, [continuing.value.data]);
      return true;
    }

    method StopContinuing(params: seq<nat>) returns (ok: bool)
      requires mtu > HEADER_LENGTH
      modifies this
      ensures (State(), ok) == AbortContinuing(old(State()), params)
      ensures ok <==> |params| == 1 && old(continuing).Some?
      ensures !ok ==> sent == old(sent) && continuing == old(continuing)
      ensures ok ==> sent == old(sent) + [Pdu(0x41, Single, [])] && continuing == None
    {
      if |params| != 1 || continuing.None? {
        return false;
      }
      continuing := None;
      AvrcpSendInternal(ABORT_CONTINUING, Single, []);
      return true;
    }

    /** Takes the next entry as it is. */
    method TakeWhole(iov: Iovec, space: nat, i: nat, parts: seq<Option<seq<Byte>>>, used: nat)
      returns (parts': seq<Option<seq<Byte>>>, used': nat, i': nat)
      requires i < |iov| && Progress(iov, space, i, parts, used) && used + |iov[i]| <= space
      ensures Progress(iov, space, i', parts', used') && i' == i + 1
    {
      ProgressStep(iov, space, i, parts, used);
      parts', used', i' := parts[i := Some(iov[i])], used + |iov[i]|, i + 1;
    }

    /** The entries that fit whole, up to the first that does not. */
    method FillWhole(iov: Iovec) returns (parts: seq<Option<seq<Byte>>>, paramsLen: nat, i: nat)
      requires mtu > HEADER_LENGTH
      ensures Progress(iov, mtu - HEADER_LENGTH, i, parts, paramsLen)
      ensures i == |iov| || HEADER_LENGTH + paramsLen + |iov[i]| > mtu
    {
      parts, paramsLen, i := Unset(|iov|), 0, 0;
      ProgressStart(iov, mtu - HEADER_LENGTH);
      while i < |iov| && HEADER_LENGTH + paramsLen + |iov[i]| <= mtu
        invariant Progress(iov, mtu - HEADER_LENGTH, i, parts, paramsLen)
      {
        parts, paramsLen, i := TakeWhole(iov, mtu - HEADER_LENGTH, i, parts, paramsLen);
      }
    }
  }

  /** The first `i` entries are set, and the rest of the work is the same cut with less space. */
  ghost predicate Progress(iov: Iovec, space: nat, i: nat, parts: seq<Option<seq<Byte>>>, used: nat) {
    && i <= |iov| && |parts| == |iov| && used <= space
    && parts[i..] == Unset(|iov| - i)
    && var c, d := CutAt(space, iov), CutAt(space - used, iov[i..]);
      c == Cut(parts[..i] + d.parts, used + d.used, d.rest)
  }

  lemma ProgressStart(iov: Iovec, space: nat)
    ensures Progress(iov, space, 0, Unset(|iov|), 0)
  {
    var parts := Unset(|iov|);
    assert iov[0..] == iov && parts[0..] == parts && parts[..0] + CutAt(space, iov).parts == CutAt(space, iov).parts;
  }

  lemma ProgressStep(iov: Iovec, space: nat, i: nat, parts: seq<Option<seq<Byte>>>, used: nat)
    requires i < |iov| && Progress(iov, space, i, parts, used) && used + |iov[i]| <= space
    ensures Progress(iov, space, i + 1, parts[i := Some(iov[i])], used + |iov[i]|)
  {
    assert iov[i..][1..] == iov[i + 1..];
    assert parts[i + 1..] == parts[i..][1..] == Unset(|iov| - i - 1);
    var next := parts[i := Some(iov[i])];
    assert next[..i + 1] == parts[..i] + [Some(iov[i])];
  }

  lemma ProgressCut(iov: Iovec, space: nat, i: nat, parts: seq<Option<seq<Byte>>>, used: nat)
    requires i < |iov| && Progress(iov, space, i, parts, used) && used + |iov[i]| > space
    ensures var c := CutAt(space, iov);
      && c.parts == parts[i := Some(iov[i][..space - used])]
      && c.rest == Some(iov[i..][0][space - used..] + Joined(iov[i..][1..]))
  {
    assert parts[i + 1..] == parts[i..][1..] == Unset(|iov| - i - 1);
  }

  lemma ProgressEnd(iov: Iovec, space: nat, parts: seq<Option<seq<Byte>>>, used: nat)
    requires Progress(iov, space, |iov|, parts, used)
    ensures CutAt(space, iov).parts == parts && CutAt(space, iov).rest == None
  {
    assert iov[|iov|..] == [] && parts[..|iov|] == parts;
  }

  // ---------------------------------------------------------------- a whole response

  /** A response cut into pieces of at most `space` bytes, as the profile has it. */
  function Fragments(space: nat, data: seq<Byte>): (fs: seq<seq<Byte>>)
    requires space > 0
    ensures |fs| > 0
    decreases |data|
  {
    if |data| <= space then [data] else [data[..space]] + Fragments(space, data[space..])
  }

  /** The fragments are the response; all but the last are full. */
  lemma {:induction false} FragmentsJoin(space: nat, data: seq<Byte>)
    requires space > 0
    ensures var fs := Fragments(space, data);
      && Joined(fs) == data
      && (forall k :: 0 <= k < |fs| - 1 ==> |fs[k]| == space)
      && |fs[|fs| - 1]| <= space && (|fs| > 1 ==> |fs[|fs| - 1]| > 0)
    decreases |data|
  {
    var fs := Fragments(space, data);
    if |data| <= space {
      assert fs[1..] == [];
    } else {
      FragmentsJoin(space, data[space..]);
      assert fs[1..] == Fragments(space, data[space..]);
      assert data == data[..space] + data[space..];
    }
  }

  function TypeAt(k: nat, count: nat): PacketType {
    if count == 1 then Single else if k == 0 then Start else if k == count - 1 then End else Continuing
  }

  /** What the peer sees of a packet. */
  datatype Seen = Seen(pduId: nat, packetType: PacketType, params: seq<Byte>, complete: bool)

  function View(p: Pdu): Seen {
    Seen(p.pduId, p.packetType, Params(p.parts), AllSet(p.parts))
  }

  /** All entries but the last go out whole, so that a cut can only fall into the last. */
  predicate CutsLast(mtu: nat, iov: Iovec) {
    iov == [] || HEADER_LENGTH + |Joined(iov[..|iov| - 1])| <= mtu
  }

  lemma UnsetParams(n: nat)
    ensures Params(Unset(n)) == []
  {
    if n > 0 {
      assert Unset(n)[1..] == Unset(n - 1);
      UnsetParams(n - 1);
    }
  }

  /** A cut sends the first `space` bytes of the joined entries and leaves the others. */
  lemma {:induction false} CutJoins(space: nat, iov: Iovec)
    ensures var c, data := CutAt(space, iov), Joined(iov);
      && Params(c.parts) == (if |data| <= space then data else data[..space])
      && c.rest == (if |data| <= space then None else Some(data[space..]))
    decreases |iov|
  {
    var c, data := CutAt(space, iov), Joined(iov);
    if iov != [] {
      var others := Joined(iov[1..]);
      if |iov[0]| <= space {
        var left := space - |iov[0]|;
        CutJoins(left, iov[1..]);
        assert c.parts[1..] == CutAt(left, iov[1..]).parts;
        if |data| > space {
          assert data[..space] == iov[0] + others[..left] && data[space..] == others[left..];
        }
      } else {
        UnsetParams(|iov| - 1);
        assert c.parts[1..] == Unset(|iov| - 1);
        assert data[..space] == iov[0][..space] && data[space..] == iov[0][space..] + others;
      }
    }
  }

  /** It leaves an entry unset exactly when it falls before the last one. */
  lemma {:induction false} CutSetsAllExactlyWhen(space: nat, iov: Iovec)
    ensures AllSet(CutAt(space, iov).parts) <==> iov == [] || |Joined(iov[..|iov| - 1])| <= space
    decreases |iov|
  {
    var c := CutAt(space, iov);
    if |iov| > 1 {
      var front := iov[..|iov| - 1];
      assert front[0] == iov[0] && front[1..] == iov[1..][..|iov| - 2];
      if |iov[0]| <= space {
        var d := CutAt(space - |iov[0]|, iov[1..]);
        CutSetsAllExactlyWhen(space - |iov[0]|, iov[1..]);
        assert c.parts == [Some(iov[0])] + d.parts;
        assert AllSet(c.parts) <==> AllSet(d.parts) by {
          assert forall k :: 0 <= k < |d.parts| ==> c.parts[k + 1] == d.parts[k];
        }
      } else {
        assert c.parts[1] == None;
      }
    } else if |iov| == 1 {
      assert iov[..0] == [];
    }
  }

  /** After a response and `n` requests for more: exactly the first fragments are out, and the others are stored. */
  function Served(s: Control, pduId: nat, iov: Iovec, n: nat): (r: Control)
    requires s.mtu > HEADER_LENGTH
    ensures r.mtu == s.mtu
  {
    if n == 0 then Respond(s, pduId, iov) else RequestContinuing(Served(s, pduId, iov, n - 1), [pduId]).0
  }

  /** A packet carries the fragment that is next, of the type its place calls for, and fits the MTU. */
  lemma SendsOne(s: Control, pduId: nat, first: bool, iov: Iovec)
    requires s.mtu > HEADER_LENGTH && CutsLast(s.mtu, iov) && (first || |iov| == 1)
    ensures var space, data := s.mtu - HEADER_LENGTH, Joined(iov);
      var r := SendInternal(s, pduId, if first then Single else Continuing, iov);
      var fits := |data| <= space;
      && r.mtu == s.mtu && |r.sent| == |s.sent| + 1 && r.sent[..|s.sent|] == s.sent
      && View(r.sent[|s.sent|]) ==
        Seen(pduId, if first then (if fits then Single else Start) else (if fits then End else Continuing),
          if fits then data else data[..space], true)
      && r.continuing == if fits then None else Some(Remainder(pduId, data[space..]))
  {
    var space := s.mtu - HEADER_LENGTH;
    CutJoins(space, iov);
    CutSetsAllExactlyWhen(space, iov);
  }

  lemma {:induction false} JoinedOne(data: seq<Byte>)
    ensures Joined([data]) == data
  {
    assert [data][1..] == [];
  }

  /** Exactly the first `n` + 1 fragments are out, each complete, under the type its place calls for; the others are
      stored, and nothing is stored after the last. */
  ghost predicate SoFar(s: Control, r: Control, pduId: nat, fs: seq<seq<Byte>>, n: nat)
    requires s.mtu > HEADER_LENGTH && n < |fs|
  {
    && r.mtu == s.mtu && |r.sent| == |s.sent| + n + 1 && r.sent[..|s.sent|] == s.sent
    && (forall k :: 0 <= k <= n ==> View(r.sent[|s.sent| + k]) == Seen(pduId, TypeAt(k, |fs|), fs[k], true))
    && (n == |fs| - 1 ==> r.continuing == None)
    && (n < |fs| - 1 ==> r.continuing.Some? && r.continuing.value.pduId == pduId)
    && (n < |fs| - 1 ==> Fragments(s.mtu - HEADER_LENGTH, r.continuing.value.data) == fs[n + 1..])
  }

  lemma NextFragment(s: Control, before: Control, pduId: nat, fs: seq<seq<Byte>>, n: nat)
    requires s.mtu > HEADER_LENGTH && 0 < n < |fs| && SoFar(s, before, pduId, fs, n - 1)
    ensures SoFar(s, RequestContinuing(before, [pduId]).0, pduId, fs, n)
  {
    var space, rest := s.mtu - HEADER_LENGTH, before.continuing.value.data;
    var r := RequestContinuing(before, [pduId]).0;
    JoinedOne(rest);
    SendsOne(before, pduId, false, [rest]);
    FirstOfRest(space, rest, fs, n);
    forall k | 0 <= k <= n ensures View(r.sent[|s.sent| + k]) == Seen(pduId, TypeAt(k, |fs|), fs[k], true) {
      if k < n {
        assert r.sent[|s.sent| + k] == r.sent[..|before.sent|][|s.sent| + k];
      }
    }
  }

  lemma FirstOfRest(space: nat, rest: seq<Byte>, fs: seq<seq<Byte>>, n: nat)
    requires space > 0 && n < |fs| && Fragments(space, rest) == fs[n..]
    ensures |rest| <= space <==> n == |fs| - 1
    ensures fs[n] == if |rest| <= space then rest else rest[..space]
    ensures |rest| > space ==> Fragments(space, rest[space..]) == fs[n + 1..]
  {
    assert fs[n] == fs[n..][0] && fs[n + 1..] == fs[n..][1..];
  }

  /** A response and `n` requests for more. */
  lemma {:induction false} ServedInFragments(s: Control, pduId: nat, iov: Iovec, fs: seq<seq<Byte>>, n: nat)
    requires s.mtu > HEADER_LENGTH && CutsLast(s.mtu, iov)
    requires fs == Fragments(s.mtu - HEADER_LENGTH, Joined(iov)) && n < |fs|
    ensures SoFar(s, Served(s, pduId, iov, n), pduId, fs, n)
  {
    if n == 0 {
      SendsOne(s, pduId, true, iov);
      assert fs[0..] == fs;
      FirstOfRest(s.mtu - HEADER_LENGTH, Joined(iov), fs, 0);
    } else {
      ServedInFragments(s, pduId, iov, fs, n - 1);
      NextFragment(s, Served(s, pduId, iov, n - 1), pduId, fs, n);
    }
  }

  // ---------------------------------------------------------------- runs

  datatype ControlEvent =
    | Response(pduId: nat, iov: Iovec)
    | More(params: seq<nat>)
    | Stop(params: seq<nat>)

  function ControlStep(s: Control, e: ControlEvent): (r: Control)
    requires s.mtu > HEADER_LENGTH
    ensures r.mtu == s.mtu
  {
    match e
    case Response(pduId, iov) => Respond(s, pduId, iov)
    case More(params) => RequestContinuing(s, params).0
    case Stop(params) => AbortContinuing(s, params).0
  }

  /** A response goes out at once as far as the packet has room behind its seven header bytes, and the rest is stored;
      an older rest is dropped. */
  lemma ResponseSends(s: Control, pduId: nat, iov: Iovec)
    requires s.mtu > 7
    ensures var r, data, space := ControlStep(s, Response(pduId, iov)), Joined(iov), s.mtu - 7;
      && |r.sent| == |s.sent| + 1 && r.sent[..|s.sent|] == s.sent
      && var p := r.sent[|s.sent|];
        && p.pduId == pduId && p.packetType == (if |data| <= space then Single else Start)
        && Params(p.parts) == (if |data| <= space then data else data[..space])
        && r.continuing == if |data| <= space then None else Some(Remainder(pduId, data[space..]))
  {
    CutJoins(s.mtu - 7, iov);
  }

  /** A request for more is met exactly if it names the one PDU of which something is stored, and then by the next part
      of that; else nothing happens. */
  lemma MoreSends(s: Control, params: seq<nat>)
    requires s.mtu > 7
    ensures var r := ControlStep(s, More(params));
      if |params| == 1 && s.continuing.Some? && s.continuing.value.pduId == params[0] then
        var data, space := s.continuing.value.data, s.mtu - 7;
        && |r.sent| == |s.sent| + 1 && r.sent[..|s.sent|] == s.sent
        && View(r.sent[|s.sent|]) == Seen(params[0], if |data| <= space then End else Continuing,
              if |data| <= space then data else data[..space], true)
        && r.continuing == if |data| <= space then None else Some(Remainder(params[0], data[space..]))
      else r == s
  {
    if |params| == 1 && s.continuing.Some? && s.continuing.value.pduId == params[0] {
      JoinedOne(s.continuing.value.data);
      SendsOne(s, params[0], false, [s.continuing.value.data]);
    }
  }

  /** An abort is answered, by an empty packet of its own PDU, exactly if something is stored; that is dropped. */
  lemma StopSends(s: Control, params: seq<nat>)
    requires s.mtu > 7
    ensures var r := ControlStep(s, Stop(params));
      if |params| == 1 && s.continuing.Some? then
        r == s.(sent := s.sent + [Pdu(0x41, Single, [])], continuing := None)
      else r == s
  {
  }

  function ControlRun(s: Control, events: seq<ControlEvent>): (r: Control)
    requires s.mtu > HEADER_LENGTH
    decreases |events|
  {
    if events == [] then s else ControlRun(ControlStep(s, events[0]), events[1..])
  }

  predicate Unfinished(t: PacketType) {
    t == Start || t == Continuing
  }

  predicate Continues(t: PacketType) {
    t == Continuing || t == End
  }

  /** Packets follow each other as the profile allows: what continues a PDU comes right behind its unfinished part; and
      something is stored exactly while the last packet is unfinished. */
  ghost predicate Legal(s: Control) {
    && (forall j :: 0 <= j < |s.sent| && Continues(s.sent[j].packetType) ==>
          j > 0 && Unfinished(s.sent[j - 1].packetType) && s.sent[j - 1].pduId == s.sent[j].pduId)
    && (s.continuing.Some? <==> s.sent != [] && Unfinished(s.sent[|s.sent| - 1].packetType))
    && (s.continuing.Some? ==> s.continuing.value.pduId == s.sent[|s.sent| - 1].pduId && s.continuing.value.data != [])
  }

  lemma SendKeepsLegal(s: Control, pduId: nat, packetType: PacketType, iov: Iovec)
    requires s.mtu > HEADER_LENGTH && Legal(s)
    requires packetType == Single || (packetType == Continuing && |iov| == 1 && s.continuing.Some?
      && s.continuing.value.pduId == pduId)
    ensures Legal(SendInternal(s, pduId, packetType, iov))
  {
    CutJoins(s.mtu - HEADER_LENGTH, iov);
  }

  lemma LegalStep(s: Control, e: ControlEvent)
    requires s.mtu > HEADER_LENGTH && Legal(s)
    ensures Legal(ControlStep(s, e))
  {
    match e
    case Response(pduId, iov) => SendKeepsLegal(s, pduId, Single, iov);
    case More(params) =>
      if RequestContinuing(s, params).1 {
        SendKeepsLegal(s, params[0], Continuing, [s.continuing.value.data]);
      }
    case Stop(params) =>
      if AbortContinuing(s, params).1 {
        SendKeepsLegal(s, ABORT_CONTINUING, Single, []);
      }
  }

  lemma {:induction false} LegalRuns(s: Control, events: seq<ControlEvent>)
    requires s.mtu > HEADER_LENGTH && Legal(s)
    ensures Legal(ControlRun(s, events))
    decreases |events|
  {
    if events != [] {
      LegalStep(s, events[0]);
      LegalRuns(ControlStep(s, events[0]), events[1..]);
    }
  }

  /** Every run of responses, requests for more and aborts sends a legal succession of packets. */
  lemma RunsAreLegal(mtu: nat, events: seq<ControlEvent>)
    requires mtu > HEADER_LENGTH
    ensures Legal(ControlRun(Control(mtu, None, []), events))
  {
    LegalRuns(Control(mtu, None, []), events);
  }

  lemma {:induction false} RunSnoc(s: Control, events: seq<ControlEvent>, e: ControlEvent)
    requires s.mtu > HEADER_LENGTH
    ensures ControlRun(s, events).mtu == s.mtu
    ensures ControlRun(s, events + [e]) == ControlStep(ControlRun(s, events), e)
    decreases |events|
  {
    if events == [] {
      assert ControlRun(ControlStep(s, e), [][..]) == ControlStep(s, e);
    } else {
      RunSnoc(ControlStep(s, events[0]), events[1..], e);
      assert (events + [e])[1..] == events[1..] + [e];
    }
  }

  /** Over every run, a request for more sends a packet exactly if it names the PDU of the last packet and that is
      unfinished, and then continues it; any other sends nothing. */
  lemma MoreSendsExactlyWhen(mtu: nat, events: seq<ControlEvent>, params: seq<nat>)
    requires mtu > HEADER_LENGTH
    ensures var start := Control(mtu, None, []);
      var before, after := ControlRun(start, events).sent, ControlRun(start, events + [More(params)]).sent;
      if |params| == 1 && before != [] && Unfinished(before[|before| - 1].packetType)
        && before[|before| - 1].pduId == params[0] then
        && |after| == |before| + 1 && after[..|before|] == before
        && after[|before|].pduId == params[0] && Continues(after[|before|].packetType)
      else after == before
  {
    var start := Control(mtu, None, []);
    var s := ControlRun(start, events);
    RunsAreLegal(mtu, events);
    RunSnoc(start, events, More(params));
    MoreSends(s, params);
  }

  /** And an abort exactly if the last packet is unfinished. */
  lemma StopSendsExactlyWhen(mtu: nat, events: seq<ControlEvent>, params: seq<nat>)
    requires mtu > HEADER_LENGTH
    ensures var start := Control(mtu, None, []);
      var before, after := ControlRun(start, events).sent, ControlRun(start, events + [Stop(params)]).sent;
      after == before +
        if |params| == 1 && before != [] && Unfinished(before[|before| - 1].packetType) then [Pdu(0x41, Single, [])]
        else []
  {
    var start := Control(mtu, None, []);
    RunsAreLegal(mtu, events);
    RunSnoc(start, events, Stop(params));
    StopSends(ControlRun(start, events), params);
  }
}
