/** What each call of the upper layer, each message of the peer and each timer does to an AVDTP session. */
module AvdtpHandlers {
  import opened AvdtpRequests
  import opened AvdtpStates
  import opened Options

  // ---------------------------------------------------------------- cancelling

  function FindByRseid(e: Ends, ids: seq<nat>, seid: nat): (r: Option<nat>)
    requires Core(e) && forall x <- ids :: x in e.streams
    ensures r.Some? ==> r.value in e.streams && e.objects[r.value].rseid == seid
  {
    if ids == [] then None
    else
      assert StreamHeld(e, ids[0]);
      if e.objects[ids[0]].rseid == seid then Some(ids[0]) else FindByRseid(e, ids[1..], seid)
  }

  function FreeOutstanding(s: Session): (r: Session)
    requires Inv(s) && s.q.outstanding.Some?
    ensures Inv(r) && r == s.(q := r.q) && r.q.outstanding.None?
  {
    FreeingConserves(s.q);
    s.(q := Dropped(s.q))
  }

  function Change(s: Session, id: nat, x: Stream): (r: Session)
    requires Inv(s) && id in s.e.streams && id in s.e.objects
    requires x.lsep == s.e.objects[id].lsep && x.rseid == s.e.objects[id].rseid
    ensures Inv(r) && r.q == s.q && r.version13 == s.version13 && r.listening == s.listening
    ensures r.e.streams == s.e.streams && r.e.lseps == s.e.lseps && r.e.objects == s.e.objects[id := x]
  {
    s.(e := SetStream(s.e, id, x))
  }

  /** The requests whose failure costs the connection. */
  predicate Fatal(signal: Signal) {
    signal == SetConfiguration || signal == DiscoverSeps || signal == GetCapabilities || signal == AbortStream
  }

  function Cancelled(x: Stream, signal: Signal): (r: Stream)
    ensures r.lsep == x.lsep && r.rseid == x.rseid
  {
    var aborting := x.(abortInt := true);
    if signal == StartStream then aborting.(starting := false)
    else if signal == CloseStream then aborting.(closeInt := false)
    else aborting
  }

  /** Gives up the outstanding request; its stream is aborted, or the connection lost. */
  function CancelRequest(s: Session): (r: Session)
    requires Inv(s) && s.q.outstanding.Some?
    ensures Inv(r) && r.listening == s.listening && !InProcess(r.q) && Grows(s.e, r.e)
  {
    var req := s.q.outstanding.value;
    var freed := FreeOutstanding(s);
    var stream :=
      if req.signal == DiscoverSeps || req.seid == 0 then None else FindByRseid(s.e, s.e.streams, req.seid);
    if stream.None? then ConnectionLost(freed)
    else
      assert StreamHeld(s.e, stream.value);
      var marked := Change(freed, stream.value, Cancelled(s.e.objects[stream.value], req.signal));
      if Fatal(req.signal) then ConnectionLost(marked)
      else
        var (asked, ok) := SendFor(marked, true, stream.value, AbortStream);
        if ok then asked else ConnectionLost(asked)
  }

  // ---------------------------------------------------------------- calls of the upper layer

  /** Sends or queues a request, and if that works notes it in the stream. */
  function Ask(s: Session, priority: bool, id: nat, signal: Signal, x: Stream): (r: Session)
    requires Inv(s) && id in s.e.streams && id in s.e.objects
    requires x.lsep == s.e.objects[id].lsep && x.rseid == s.e.objects[id].rseid
    ensures Inv(r) && r.listening == s.listening && r.e.streams == s.e.streams
    ensures KeepsProcess(s.q, r.q) && Grows(s.e, r.e)
  {
    var (asked, ok) := SendFor(s, priority, id, signal);
    if ok then Change(asked, id, x) else asked
  }

  predicate Concerns(q: Requests, id: nat) {
    q.outstanding.Some? && q.outstanding.value.stream == Some(id)
  }

  function Abort(s: Session, id: nat): (r: Session)
    requires Inv(s)
    ensures Inv(r) && r.listening == s.listening && KeepsProcess(s.q, r.q) && Grows(s.e, r.e)
  {
    if id !in s.e.streams || StateOf(s.e, id) == Aborting then s
    else if Concerns(s.q, id) && s.q.outstanding.value.timed then
      CancelRequest(s)
    else
      assert StreamHeld(s.e, id);
      Ask(s, true, id, AbortStream, s.e.objects[id].(abortInt := true))
  }

  function OpenCall(s: Session, id: nat): (r: Session)
    requires Inv(s)
    ensures Inv(r) && r.listening == s.listening && KeepsProcess(s.q, r.q) && Grows(s.e, r.e)
  {
    if id !in s.e.streams || Rank(StateOf(s.e, id)) > Rank(Configured) then s
    else assert StreamHeld(s.e, id); SendFor(s, false, id, OpenStream).0
  }

  function Start(s: Session, id: nat): (r: Session)
    requires Inv(s)
    ensures Inv(r) && r.listening == s.listening && KeepsProcess(s.q, r.q) && Grows(s.e, r.e)
    ensures r.e.streams == s.e.streams
  {
    if id !in s.e.streams || StateOf(s.e, id) != Open then s
    else
      assert StreamHeld(s.e, id);
      var x := s.e.objects[id];
      if x.openAcp then Change(s, id, x.(startTimer := true))
      else if x.closeInt || x.starting then s
      else Ask(s, false, id, StartStream, x.(starting := true))
  }

  function Close(s: Session, id: nat, immediate: bool): (r: Session)
    requires Inv(s)
    ensures Inv(r) && r.listening == s.listening && KeepsProcess(s.q, r.q) && Grows(s.e, r.e)
  {
    if id !in s.e.streams then s
    else
      assert StreamHeld(s.e, id);
      var x := s.e.objects[id];
      if x.closeInt then s
      else if Rank(StateOf(s.e, id)) < Rank(Open) || (immediate && Concerns(s.q, id)) then Abort(s, id)
      else Ask(s, false, id, CloseStream, x.(closeInt := true))
  }

  function Suspend(s: Session, id: nat): (r: Session)
    requires Inv(s)
    ensures Inv(r) && r.listening == s.listening && KeepsProcess(s.q, r.q) && Grows(s.e, r.e)
  {
    if id !in s.e.streams || Rank(StateOf(s.e, id)) <= Rank(Open) || s.e.objects[id].closeInt then s
    else assert StreamHeld(s.e, id); SendFor(s, false, id, SuspendStream).0
  }

  function GetConfigurationCall(s: Session, id: nat): (r: Session)
    requires Inv(s) && id in s.e.streams
    ensures Inv(r) && r.listening == s.listening && KeepsProcess(s.q, r.q) && Grows(s.e, r.e)
  {
    assert StreamHeld(s.e, id);
    SendFor(s, false, id, GetConfiguration).0
  }

  /** Asks for the remote end points, unless they are known or a discovery is under way. */
  function DiscoverCall(s: Session, busy: bool): (r: Session)
    requires Inv(s)
    ensures Inv(r) && r.listening == s.listening && KeepsProcess(s.q, r.q) && Grows(s.e, r.e)
  {
    if busy || s.e.seps != map[] then s else SendForNone(s, false, DiscoverSeps, 0).0
  }

  /** Chooses a remote end point for a local one; without one of the two it fails. Whether the local one is free is not
      looked at. */
  function SetConfigurationCall(s: Session, lsep: nat, rsep: nat): (r: Session)
    requires Inv(s)
    ensures r.listening == s.listening && KeepsProcess(s.q, r.q)
    ensures (lsep in s.e.lseps ==> s.e.lseps[lsep].stream.None?) ==> Inv(r) && Grows(s.e, r.e)
  {
    if lsep !in s.e.lseps || rsep !in s.e.seps then s
    else
      var x := NewStream(lsep, rsep, s.e.seps[rsep].delayReporting && s.e.lseps[lsep].delayReporting);
      var id := Some(s.e.created);
      SendRequestConserves(s.q, false, id, false, SetConfiguration, rsep);
      var (q, ok) := SendRequest(s.q, false, id, false, SetConfiguration, rsep);
      var e := if ok then Adopt(s.e, x, true) else Abandon(s.e, x);
      assert s.e.lseps[lsep].stream.None? ==> RefersTo(q, e.streams) by {
        SetConfigurationRefersTo(s.q, s.e.streams, s.e.created, rsep);
      }
      s.(q := q, e := e)
  }

  /** The invariant survives the call exactly if the local end point is free, when both are there. */
  lemma ConfigurationKeepsExactlyWhen(s: Session, lsep: nat, rsep: nat)
    requires Inv(s)
    ensures Inv(SetConfigurationCall(s, lsep, rsep)) <==>
      (lsep in s.e.lseps && rsep in s.e.seps ==> s.e.lseps[lsep].stream.None?)
  {
    if lsep in s.e.lseps && rsep in s.e.seps && s.e.lseps[lsep].stream.Some? {
      var x := NewStream(lsep, rsep, s.e.seps[rsep].delayReporting && s.e.lseps[lsep].delayReporting);
      LosesHolder(s.e, x, true);
    }
  }

  lemma SetConfigurationRefersTo(q: Requests, live: seq<nat>, id: nat, rsep: nat)
    requires RefersTo(q, live)
    ensures var r := SendRequest(q, false, Some(id), false, SetConfiguration, rsep);
      RefersTo(r.0, if r.1 then live + [id] else live)
  {
    MoreLive(q, live, live + [id]);
    SendRequestRefersTo(q, false, Some(id), false, SetConfiguration, rsep, live + [id]);
  }

  // ---------------------------------------------------------------- transports and timers

  /** The transport channel of the stream that is being opened is there. */
  function SetTransport(s: Session, id: nat): (r: Session)
    requires Inv(s) && id in s.e.streams
    ensures Inv(r) && r.listening == s.listening && KeepsProcess(s.q, r.q) && Grows(s.e, r.e)
  {
    if s.e.pendingOpen != Some(id) then s
    else
      assert StreamHeld(s.e, id);
      var connecting := SetSepState(s.(e := ClearPending(s.e, id)), s.e.objects[id].lsep, Open);
      assert StreamHeld(connecting.e, id);
      Change(connecting, id, connecting.e.objects[id].(connected := true))
  }

  function TransportLost(s: Session, id: nat): (r: Session)
    requires Inv(s) && id in s.e.streams
    ensures Inv(r) && r.listening == s.listening && KeepsProcess(s.q, r.q) && Grows(s.e, r.e)
  {
    assert StreamHeld(s.e, id);
    var closed := Change(s, id, s.e.objects[id].(connected := false));
    if s.e.objects[id].abortInt then closed else SetSepState(closed, s.e.objects[id].lsep, Idle)
  }

  /** The peer did not open the transport channel in time. */
  function OpenTimeout(s: Session, id: nat): (r: Session)
    requires Inv(s) && id in s.e.streams
    ensures Inv(r) && r.listening == s.listening && KeepsProcess(s.q, r.q) && Grows(s.e, r.e)
  {
    assert StreamHeld(s.e, id);
    var stopped := Change(s, id, s.e.objects[id].(timer := false));
    Abort(stopped.(e := stopped.e.(pendingOpen := None)), id)
  }

  /** The peer did not close the transport channel in time. */
  function CloseTimeout(s: Session, id: nat): (r: Session)
    requires Inv(s) && id in s.e.streams
    ensures Inv(r) && r.listening == s.listening && r.q == s.q
  {
    assert StreamHeld(s.e, id);
    Change(s, id, s.e.objects[id].(timer := false))
  }

  function StartTimeout(s: Session, id: nat): (r: Session)
    requires Inv(s) && id in s.e.streams
    ensures Inv(r) && r.listening == s.listening && KeepsProcess(s.q, r.q) && Grows(s.e, r.e)
  {
    assert StreamHeld(s.e, id);
    var started := Start(Change(s, id, s.e.objects[id].(openAcp := false)), id);
    assert StreamHeld(started.e, id);
    Change(started, id, started.e.objects[id].(startTimer := false))
  }

  // ---------------------------------------------------------------- commands of the peer

  /** What the upper layer says to a configuration the peer asks for: it may not care, refuse, or accept by a callback,
      which then answers the peer. */
  datatype Verdict = NoCallback | Refuses | Accepts

  function Configure(s: Session, k: nat, x: Stream): (r: (Session, bool))
    requires Inv(s) && k in s.e.lseps && s.e.lseps[k].stream.None? && x.lsep == k
    ensures Inv(r.0) && r.0.listening == s.listening && KeepsProcess(s.q, r.0.q) && Grows(s.e, r.0.e)
    ensures r.0.e.streams == s.e.streams + [s.e.created]
  {
    var e := Adopt(s.e, x, false);
    MoreLive(s.q, s.e.streams, e.streams);
    (SetSepState(s.(e := e), k, Configured), true)
  }

  function SetConfigurationCommand(s: Session, seid: nat, rseid: nat, malformed: bool, delay: bool, verdict: Verdict):
      (r: (Session, bool))
    requires Inv(s)
    ensures Inv(r.0) && r.0.listening == s.listening && KeepsProcess(s.q, r.0.q) && Grows(s.e, r.0.e)
    ensures r.0.e.streams == s.e.streams || r.0.e.streams == s.e.streams + [s.e.created]
  {
    if seid !in s.e.lseps || s.e.lseps[seid].stream.Some? then Reply(s, false, SetConfiguration)
    else
      var x := NewStream(seid, rseid, delay);
      if malformed then Reply(s.(e := Abandon(s.e, x)), false, SetConfiguration)
      else
        var raised := s.(version13 := s.version13 || delay);
        if verdict == Refuses then Reply(raised.(e := Abandon(s.e, x)), false, SetConfiguration)
        else
          var (replied, ok) := Reply(raised, true, SetConfiguration);
          if !ok then (replied.(e := Abandon(s.e, x)), verdict == Accepts)
          else Configure(replied, seid, x)
  }

  /** Marks the outstanding request if the peer asks for the same thing at the same time. */
  function Collide(s: Session, signal: Signal, rseid: nat): (r: Session)
    requires Inv(s)
    ensures Inv(r) && r == s.(q := r.q)
    ensures InProcess(s.q) == InProcess(r.q)
  {
    if s.q.outstanding.None? then s
    else
      var req := s.q.outstanding.value;
      var same := req.signal == signal || signal == AbortStream;
      var crossing := req.signal == OpenStream || req.signal == CloseStream || req.signal == StartStream
        || req.signal == SuspendStream;
      if same && crossing && req.seid == rseid then
        var q := s.q.(outstanding := Some(req.(collided := true)));
        CollidedConserves(s.q, q);
        s.(q := q)
      else s
  }

  lemma CollidedConserves(q: Requests, q': Requests)
    requires Conserved(q) && q.outstanding.Some?
    requires q' == q.(outstanding := Some(q.outstanding.value.(collided := true)))
    ensures Conserved(q')
  {
    forall id: nat ensures Places(q', id) == if id < q'.accepted then 1 else 0 {
      assert Places(q', id) == Places(q, id);
    }
  }

  function AwaitTransport(s: Session, id: nat): (r: Session)
    requires Inv(s) && id in s.e.streams && id in s.e.objects
    ensures Inv(r) && r.q == s.q && r.listening == s.listening
  {
    var opening := Change(s, id, s.e.objects[id].(openAcp := true, timer := true));
    opening.(e := opening.e.(pendingOpen := Some(id)))
  }

  function OpenCommand(s: Session, seid: nat, refused: bool): (r: (Session, bool))
    requires Inv(s)
    ensures Inv(r.0) && r.0.listening == s.listening && (!InProcess(s.q) ==> !InProcess(r.0.q)) && Grows(s.e, r.0.e)
  {
    if seid !in s.e.lseps || s.e.lseps[seid].state != Configured || refused then Reply(s, false, OpenStream)
    else
      assert SepSound(s.e, seid);
      var id := s.e.lseps[seid].stream.value;
      assert StreamHeld(s.e, id);
      var (replied, ok) := Reply(Collide(s, OpenStream, s.e.objects[id].rseid), true, OpenStream);
      if !ok then (replied, false)
      else
        (AwaitTransport(replied, id), true)
  }

  function StartCommand(s: Session, seids: seq<nat>, refused: set<nat>): (r: (Session, bool))
    requires Inv(s)
    ensures Inv(r.0) && r.0.listening == s.listening && (!InProcess(s.q) ==> !InProcess(r.0.q)) && Grows(s.e, r.0.e)
    decreases |seids|
  {
    if seids == [] then Reply(s, true, StartStream)
    else
      var k := seids[0];
      if k !in s.e.lseps || s.e.lseps[k].stream.None? || s.e.lseps[k].state != Open then Reply(s, false, StartStream)
      else
        assert SepSound(s.e, k);
        var id := s.e.lseps[k].stream.value;
        var x := s.e.objects[id];
        var starting := Change(s, id, x.(starting := true));
        if k in refused then Reply(starting, false, StartStream)
        else StartCommand(SetSepState(Collide(starting, StartStream, x.rseid), k, Streaming), seids[1..], refused)
  }

  function SuspendCommand(s: Session, seids: seq<nat>, refused: set<nat>): (r: (Session, bool))
    requires Inv(s)
    ensures Inv(r.0) && r.0.listening == s.listening && (!InProcess(s.q) ==> !InProcess(r.0.q)) && Grows(s.e, r.0.e)
    decreases |seids|
  {
    if seids == [] then Reply(s, true, SuspendStream)
    else
      var k := seids[0];
      if k !in s.e.lseps || s.e.lseps[k].stream.None? || s.e.lseps[k].state != Streaming || k in refused then
        Reply(s, false, SuspendStream)
      else
        assert SepSound(s.e, k);
        var rseid := s.e.objects[s.e.lseps[k].stream.value].rseid;
        SuspendCommand(SetSepState(Collide(s, SuspendStream, rseid), k, Open), seids[1..], refused)
  }

  function EnterClosing(s: Session, k: nat): (r: Session)
    requires Inv(s) && k in s.e.lseps && s.e.lseps[k].stream.Some?
    ensures Inv(r) && r.listening == s.listening && (!InProcess(s.q) ==> !InProcess(r.q)) && Grows(s.e, r.e)
    ensures s.e.lseps[k].stream.value in r.e.streams
  {
    assert SepSound(s.e, k);
    SetSepState(Collide(s, CloseStream, s.e.objects[s.e.lseps[k].stream.value].rseid), k, Closing)
  }

  function AwaitClose(s: Session, id: nat): (r: Session)
    requires Inv(s) && id in s.e.streams
    ensures Inv(r) && r.q == s.q && r.listening == s.listening && Grows(s.e, r.e)
  {
    assert StreamHeld(s.e, id);
    Change(s, id, s.e.objects[id].(timer := true))
  }

  function CloseCommand(s: Session, seid: nat, refused: bool): (r: (Session, bool))
    requires Inv(s)
    ensures Inv(r.0) && r.0.listening == s.listening && (!InProcess(s.q) ==> !InProcess(r.0.q)) && Grows(s.e, r.0.e)
  {
    if seid !in s.e.lseps || s.e.lseps[seid].stream.None? || refused then Reply(s, false, CloseStream)
    else if s.e.lseps[seid].state != Open && s.e.lseps[seid].state != Streaming then Reply(s, false, CloseStream)
    else
      var id := s.e.lseps[seid].stream.value;
      var (replied, ok) := Reply(EnterClosing(s, seid), true, CloseStream);
      if !ok then (replied, false) else (AwaitClose(replied, id), true)
  }

  function AbortCommand(s: Session, seid: nat): (r: (Session, bool))
    requires Inv(s)
    ensures Inv(r.0) && r.0.listening == s.listening && (!InProcess(s.q) ==> !InProcess(r.0.q)) && Grows(s.e, r.0.e)
  {
    if seid !in s.e.lseps || s.e.lseps[seid].stream.None? then (s, true)
    else
      assert SepSound(s.e, seid);
      var rseid := s.e.objects[s.e.lseps[seid].stream.value].rseid;
      var (replied, ok) := Reply(Collide(s, AbortStream, rseid), true, AbortStream);
      if ok then (SetSepState(replied, seid, Aborting), true) else (replied, false)
  }

  // ---------------------------------------------------------------- answers of the peer

  datatype Found = Found(seid: nat, inuse: bool)

  /** The remote end points the peer has, each asked for its capabilities. */
  function DiscoverAnswer(s: Session, found: seq<Found>): (r: Session)
    requires Inv(s) && InProcess(s.q)
    ensures Inv(r) && r.q.outstanding == s.q.outstanding && r.listening == s.listening && Grows(s.e, r.e)
    decreases |found|
  {
    if found == [] then s
    else
      var (asked, ok) := DiscoverOne(s, found[0]);
      if ok then DiscoverAnswer(asked, found[1..]) else asked
  }

  /** An end point in use by somebody else is passed over. */
  function DiscoverOne(s: Session, f: Found): (r: (Session, bool))
    requires Inv(s) && InProcess(s.q)
    ensures Inv(r.0) && r.0.q.outstanding == s.q.outstanding && r.0.listening == s.listening && Grows(s.e, r.0.e)
  {
    var stream := FindByRseid(s.e, s.e.streams, f.seid);
    if f.seid !in s.e.seps && f.inuse && stream.None? then (s, true)
    else
      var known := s.(e := Discovered(s.e, f.seid, stream));
      SendForNone(known, true, if s.version13 then GetAllCapabilities else GetCapabilities, f.seid)
  }

  function Discovered(e: Ends, k: nat, stream: Option<nat>): (r: Ends)
    requires Core(e)
    requires stream.Some? ==> stream.value in e.streams && stream.value in e.objects && e.objects[stream.value].rseid == k
    ensures Core(r) && r == e.(seps := r.seps)
  {
    var sep := if k in e.seps then e.seps[k].(stream := stream) else RemoteSep(stream, false);
    e.(seps := e.seps[k := sep])
  }

  function Capabilities(e: Ends, k: nat, delayReporting: bool): (r: Ends)
    requires Core(e)
    ensures Core(r) && r == e.(seps := r.seps)
  {
    if k in e.seps then e.(seps := e.seps[k := e.seps[k].(delayReporting := delayReporting)]) else e
  }

  datatype Answer =
    | Accept(short: bool, found: seq<Found>, delay: bool)
    | Reject(short: bool)
    | GeneralReject

  /** An accepted abort. */
  function AbortAccepted(s: Session, k: nat): (r: Session)
    requires Inv(s) && InProcess(s.q) && k in s.e.lseps
    ensures Inv(r) && r.listening == s.listening && r.q.outstanding == s.q.outstanding && Grows(s.e, r.e)
  {
    SetSepState(SetSepState(s, k, Aborting), k, Idle)
  }

  /** An accepted request about a stream. */
  function StreamAccepted(s: Session, signal: Signal, id: nat): (r: Session)
    requires Inv(s) && InProcess(s.q) && id in s.e.streams
    ensures Inv(r) && r.listening == s.listening && r.q.outstanding == s.q.outstanding && Grows(s.e, r.e)
  {
    assert StreamHeld(s.e, id);
    var k := s.e.objects[id].lsep;
    match signal
    case SetConfiguration => SetSepState(s, k, Configured)
    case OpenStream => s.(e := s.e.(pendingOpen := Some(id)))
    case SuspendStream => SetSepState(s, k, Open)
    case StartStream => if s.e.lseps[k].state != Streaming then SetSepState(s, k, Streaming) else s
    case CloseStream => SetSepState(s, k, Closing)
    case AbortStream => AbortAccepted(s, k)
    case _ => s
  }

  function Accepted(s: Session, a: Answer): (r: (Session, bool))
    requires Inv(s) && InProcess(s.q) && a.Accept?
    requires s.q.outstanding.value.stream.Some? ==> s.q.outstanding.value.stream.value in s.e.streams
    ensures Inv(r.0) && r.0.listening == s.listening && r.0.q.outstanding == s.q.outstanding && Grows(s.e, r.0.e)
  {
    var req := s.q.outstanding.value;
    if req.signal == DiscoverSeps then (DiscoverAnswer(s, a.found), true)
    else if req.signal == GetCapabilities || req.signal == GetAllCapabilities then
      if a.short then (s, false) else (s.(e := Capabilities(s.e, req.seid, a.delay)), true)
    else if req.stream.None? then (s, true)
    else (StreamAccepted(s, req.signal, req.stream.value), true)
  }

  function Rejected(s: Session, short: bool): (r: (Session, bool))
    requires Inv(s) && InProcess(s.q)
    requires s.q.outstanding.value.stream.Some? ==> s.q.outstanding.value.stream.value in s.e.streams
    ensures Inv(r.0) && r.0.listening == s.listening && r.0.q == s.q && Grows(s.e, r.0.e)
  {
    var req := s.q.outstanding.value;
    if req.signal == SecurityControl then (s, true)
    else if short then (s, false)
    else if req.signal == AbortStream then (s, false)
    else if req.stream.Some? && (req.signal == StartStream || req.signal == CloseStream) then
      assert StreamHeld(s.e, req.stream.value);
      var x := s.e.objects[req.stream.value];
      var told := if req.signal == StartStream then x.(starting := false) else x.(closeInt := false);
      (Change(s, req.stream.value, told), true)
    else (s, true)
  }
}
