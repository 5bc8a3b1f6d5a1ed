/** One AVDTP session: its streams, the end points that hold them, and the requests about them. The operations here are
    the ones that free streams; each keeps the invariant `Inv`: a reference to a stream is to one in the session's
    list. */
module AvdtpStates {
  import opened AvdtpRequests
  import opened Options
  import opened Sequences

  datatype SepState = Idle | Configured | Open | Streaming | Closing | Aborting

  function Rank(state: SepState): nat {
    match state
    case Idle => 0
    case Configured => 1
    case Open => 2
    case Streaming => 3
    case Closing => 4
    case Aborting => 5
  }

  datatype Stream = Stream(lsep: nat, rseid: nat, timer: bool, openAcp: bool, closeInt: bool, abortInt: bool,
    startTimer: bool, delayReporting: bool, starting: bool, connected: bool)

  datatype LocalSep = LocalSep(state: SepState, stream: Option<nat>, inuse: bool, sink: bool, delayReporting: bool)

  datatype RemoteSep = RemoteSep(stream: Option<nat>, delayReporting: bool)

  /** Everything that refers to streams but the requests. `streams` is the session's list, `objects` are the records in
      memory, both by identity; end points are kept by their SEID. Identities from `created` on are still unused. */
  datatype Ends = Ends(streams: seq<nat>, objects: map<nat, Stream>, seps: map<nat, RemoteSep>,
    lseps: map<nat, LocalSep>, pendingOpen: Option<nat>, created: nat)

  /** A session; `listening` says that messages of the peer are still read. */
  datatype Session = Session(q: Requests, e: Ends, version13: bool, listening: bool)

  // ---------------------------------------------------------------- the invariant

  /** A stream of the list and its local end point point at each other. */
  ghost predicate StreamHeld(e: Ends, id: nat) {
    && id in e.objects && id < e.created
    && e.objects[id].lsep in e.lseps && e.lseps[e.objects[id].lsep].stream == Some(id)
  }

  /** A local end point without a stream is idle; the stream of any other is in the list and points back. */
  ghost predicate SepSound(e: Ends, k: nat)
    requires k in e.lseps
  {
    var sep := e.lseps[k];
    && sep.inuse == sep.stream.Some?
    && (if sep.stream.None? then sep.state == Idle
        else sep.stream.value in e.streams && sep.stream.value in e.objects && e.objects[sep.stream.value].lsep == k)
  }

  ghost predicate RemoteSound(e: Ends, k: nat)
    requires k in e.seps
  {
    e.seps[k].stream.Some? ==>
      && e.seps[k].stream.value in e.streams && e.seps[k].stream.value in e.objects
      && e.objects[e.seps[k].stream.value].rseid == k
  }

  ghost predicate Core(e: Ends) {
    && Distinct(e.streams)
    && (forall id <- e.streams :: StreamHeld(e, id))
    && (forall id <- e.objects :: id < e.created)
    && (forall k <- e.lseps :: SepSound(e, k))
    && (forall k <- e.seps :: RemoteSound(e, k))
    && (e.pendingOpen.Some? ==> e.pendingOpen.value in e.streams)
  }

  ghost predicate Inv(s: Session) {
    Core(s.e) && RefersTo(s.q, s.e.streams) && Conserved(s.q)
  }

  /** Identities are not used again: a stream that is new in the list has one from `created` on. */
  ghost predicate Grows(e: Ends, e': Ends) {
    e.created <= e'.created && forall x <- e'.streams :: x in e.streams || e.created <= x
  }

  // ---------------------------------------------------------------- changes to streams and end points

  function SetStream(e: Ends, id: nat, x: Stream): (r: Ends)
    requires Core(e) && id in e.streams && id in e.objects
    requires x.lsep == e.objects[id].lsep && x.rseid == e.objects[id].rseid
    ensures Core(r)
  {
    e.(objects := e.objects[id := x])
  }

  function SetState(e: Ends, k: nat, state: SepState): (r: Ends)
    requires Core(e) && k in e.lseps && e.lseps[k].stream.Some?
    ensures Core(r)
  {
    e.(lseps := e.lseps[k := e.lseps[k].(state := state)])
  }

  /** Frees a record and what its end points know of it. */
  function StreamFree(e: Ends, id: nat): Ends
    requires id in e.objects && e.objects[id].lsep in e.lseps
  {
    var x := e.objects[id];
    var lsep := e.lseps[x.lsep].(inuse := false, stream := None);
    e.(objects := e.objects - {id},
       lseps := e.lseps[x.lsep := lsep],
       seps := if x.rseid in e.seps then e.seps[x.rseid := e.seps[x.rseid].(stream := None)] else e.seps)
  }

  /** Takes a stream out of the list and frees it. */
  function Remove(e: Ends, id: nat): (r: Ends)
    requires Core(e) && id in e.streams && id in e.objects && e.objects[id].lsep in e.lseps
    requires e.lseps[e.objects[id].lsep].state == Idle && e.pendingOpen != Some(id)
    ensures Core(r) && |r.streams| == |e.streams| - 1 && id !in r.objects
    ensures forall x :: x in r.streams <==> x in e.streams && x != id
  {
    DropDrops(e.streams, id);
    StreamFree(e.(streams := Drop(e.streams, id)), id)
  }

  /** Gives up waiting for the transport of a stream. */
  function ClearPending(e: Ends, id: nat): (r: Ends)
    requires Core(e) && id in e.streams && id in e.objects
    ensures Core(r) && r.streams == e.streams && r.lseps == e.lseps && r.pendingOpen != Some(id)
    ensures id in r.objects && r.objects[id].lsep == e.objects[id].lsep
  {
    if e.pendingOpen == Some(id) then SetStream(e.(pendingOpen := None), id, e.objects[id].(timer := false)) else e
  }

  // ---------------------------------------------------------------- requests about streams

  /** Answers a command of the peer. */
  function Reply(s: Session, accepted: bool, signal: Signal): (r: (Session, bool))
    requires Inv(s)
    ensures Inv(r.0) && r.0 == s.(q := r.0.q) && KeepsProcess(s.q, r.0.q)
  {
    TrySendConserves(s.q, Response(accepted, signal));
    var (q, ok) := TrySend(s.q, Response(accepted, signal));
    (s.(q := q), ok)
  }

  function SendFor(s: Session, priority: bool, id: nat, signal: Signal): (r: (Session, bool))
    requires Inv(s) && id in s.e.streams && id in s.e.objects
    ensures Inv(r.0) && r.0 == s.(q := r.0.q) && KeepsProcess(s.q, r.0.q)
  {
    var x := s.e.objects[id];
    SendRequestConserves(s.q, priority, Some(id), x.abortInt, signal, x.rseid);
    SendRequestRefersTo(s.q, priority, Some(id), x.abortInt, signal, x.rseid, s.e.streams);
    var (q, ok) := SendRequest(s.q, priority, Some(id), x.abortInt, signal, x.rseid);
    (s.(q := q), ok)
  }

  function SendForNone(s: Session, priority: bool, signal: Signal, seid: nat): (r: (Session, bool))
    requires Inv(s)
    ensures Inv(r.0) && r.0 == s.(q := r.0.q) && KeepsProcess(s.q, r.0.q)
  {
    SendRequestConserves(s.q, priority, None, false, signal, seid);
    SendRequestRefersTo(s.q, priority, None, false, signal, seid, s.e.streams);
    var (q, ok) := SendRequest(s.q, priority, None, false, signal, seid);
    (s.(q := q), ok)
  }

  function StateOf(e: Ends, id: nat): SepState
    requires Core(e) && id in e.streams
  {
    e.lseps[e.objects[id].lsep].state
  }

  function ReportDelay(s: Session, id: nat): (r: (Session, bool))
    requires Inv(s)
    ensures Inv(r.0) && r.0 == s.(q := r.0.q) && KeepsProcess(s.q, r.0.q)
  {
    if id !in s.e.streams then (s, false)
    else if StateOf(s.e, id) != Configured && StateOf(s.e, id) != Streaming then (s, false)
    else if !s.e.objects[id].delayReporting || !s.version13 then (s, false)
    else SendFor(s, true, id, DelayReport)
  }

  /** The requests about a stream that goes away. */
  function GiveUp(s: Session, id: nat): (r: Session)
    requires Inv(s)
    ensures Inv(r) && r == s.(q := r.q) && ForgetsStream(r.q, id) && KeepsProcess(s.q, r.q)
  {
    var concerned := s.q.outstanding.Some? && s.q.outstanding.value.stream == Some(id);
    var q := if concerned then HandleUnanswered(s.q) else s.q;
    assert Conserved(q) by { if concerned { HandleUnansweredConserves(s.q); } }
    CleanupForgets(q, s.e.streams, id);
    CleanupQueueConserves(q, id);
    s.(q := CleanupQueue(q, id))
  }

  // ---------------------------------------------------------------- the state of an end point

  /** What a new state other than idle does to the stream. */
  function Entered(x: Stream, state: SepState): (r: Stream)
    ensures r.lsep == x.lsep && r.rseid == x.rseid
  {
    match state
    case Idle => x.(startTimer := false)
    case Configured => x
    case Open => x.(starting := false)
    case Streaming => x.(startTimer := false, openAcp := false)
    case Closing => x.(startTimer := false)
    case Aborting => x.(startTimer := false)
  }

  function Enter(e: Ends, k: nat, state: SepState): (r: Ends)
    requires Core(e) && k in e.lseps && e.lseps[k].stream.Some?
    ensures Core(r) && r.streams == e.streams && r.lseps == e.lseps[k := e.lseps[k].(state := state)]
    ensures r.objects.Keys == e.objects.Keys && r.seps == e.seps && r.pendingOpen == e.pendingOpen
  {
    var id := e.lseps[k].stream.value;
    SetStream(SetState(e, k, state), id, Entered(e.objects[id], state))
  }

  function EnterState(s: Session, k: nat, state: SepState): (r: Session)
    requires Inv(s) && k in s.e.lseps && s.e.lseps[k].stream.Some?
    ensures Inv(r) && r == s.(e := Enter(s.e, k, state)) && Grows(s.e, r.e)
    ensures s.e.lseps[k].stream.value in r.e.streams && StateOf(r.e, s.e.lseps[k].stream.value) == state
    ensures r.e.streams == s.e.streams && r.e.lseps.Keys == s.e.lseps.Keys
  {
    assert SepSound(s.e, k);
    s.(e := Enter(s.e, k, state))
  }

  /** Gives up and frees the stream of an end point that is idle now. */
  function Discard(s: Session, id: nat): (r: Session)
    requires Inv(s) && id in s.e.streams && StateOf(s.e, id) == Idle
    ensures KeepsProcess(s.q, r.q) && Grows(s.e, r.e)
    ensures Inv(r) && r.e.lseps.Keys == s.e.lseps.Keys && r.version13 == s.version13 && r.listening == s.listening
    ensures |r.e.streams| == |s.e.streams| - 1 && id !in r.e.objects
    ensures forall x :: x in r.e.streams <==> x in s.e.streams && x != id
  {
    var waiting := GiveUp(s.(e := ClearPending(s.e, id)), id);
    var e := Remove(waiting.e, id);
    LivesOn(waiting.q, waiting.e.streams, id, e.streams);
    waiting.(e := e)
  }

  /** Moves a local end point to a state; in the idle state its stream is given up and freed. */
  function SetSepState(s: Session, k: nat, state: SepState): (r: Session)
    requires Inv(s) && k in s.e.lseps
    ensures KeepsProcess(s.q, r.q) && Grows(s.e, r.e)
    ensures Inv(r)
    ensures r.e.lseps.Keys == s.e.lseps.Keys && r.version13 == s.version13 && r.listening == s.listening
    ensures state != Idle || s.e.lseps[k].stream.None? ==> r.e.streams == s.e.streams
    ensures state == Idle && s.e.lseps[k].stream.Some? ==>
      && |r.e.streams| == |s.e.streams| - 1 && s.e.lseps[k].stream.value !in r.e.objects
      && forall x :: x in r.e.streams <==> x in s.e.streams && Some(x) != s.e.lseps[k].stream
  {
    assert SepSound(s.e, k);
    if s.e.lseps[k].stream.None? then s
    else
      var id := s.e.lseps[k].stream.value;
      var entered := EnterState(s, k, state);
      match state
      case Idle => Discard(entered, id)
      case Configured => if s.e.lseps[k].sink then ReportDelay(entered, id).0 else entered
      case _ => entered
  }

  /** The loss of the connection releases the streams that were in the list, one after the other. */
  function ReleaseAll(s: Session, ids: seq<nat>): (r: Session)
    requires Inv(s) && Distinct(ids) && forall x <- ids :: x in s.e.streams
    ensures KeepsProcess(s.q, r.q) && Grows(s.e, r.e)
    ensures Inv(r) && r.e.lseps.Keys == s.e.lseps.Keys && r.version13 == s.version13 && r.listening == s.listening
    ensures |r.e.streams| == |s.e.streams| - |ids|
    decreases |ids|
  {
    if ids == [] then s
    else
      assert StreamHeld(s.e, ids[0]);
      ReleaseAll(SetSepState(s, s.e.objects[ids[0]].lsep, Idle), ids[1..])
  }

  function ConnectionLost(s: Session): (r: Session)
    requires Inv(s)
    ensures KeepsProcess(s.q, r.q) && Grows(s.e, r.e)
    ensures Inv(r) && r.e.streams == []
    ensures r.e.lseps.Keys == s.e.lseps.Keys && r.version13 == s.version13 && r.listening == s.listening
  {
    ReleaseAll(s, s.e.streams)
  }

  // ---------------------------------------------------------------- new streams

  lemma {:induction false} DistinctSnoc(ids: seq<nat>, id: nat)
    requires Distinct(ids) && id !in ids
    ensures Distinct(ids + [id])
  {
    if ids != [] {
      DistinctSnoc(ids[1..], id);
      assert (ids + [id])[1..] == ids[1..] + [id];
    }
  }

  /** A new record that did not make it into the list. */
  function Abandon(e: Ends, x: Stream): (r: Ends)
    requires Core(e) && x.lsep in e.lseps
    ensures e.lseps[x.lsep].stream.None? ==> Core(r) && r.streams == e.streams && r.lseps == e.lseps
  {
    StreamFree(e.(objects := e.objects[e.created := x], created := e.created + 1), e.created)
  }

  function Adopted(e: Ends, x: Stream, chosen: bool): Ends
    requires x.lsep in e.lseps && (chosen ==> x.rseid in e.seps)
  {
    var id := e.created;
    Ends(e.streams + [id], e.objects[id := x],
      if chosen then e.seps[x.rseid := e.seps[x.rseid].(stream := Some(id))] else e.seps,
      e.lseps[x.lsep := e.lseps[x.lsep].(inuse := true, stream := Some(id))], e.pendingOpen, id + 1)
  }

  lemma AdoptedIsSound(e: Ends, x: Stream, chosen: bool)
    requires Core(e) && x.lsep in e.lseps && (chosen ==> x.rseid in e.seps) && e.lseps[x.lsep].stream.None?
    ensures Core(Adopted(e, x, chosen))
  {
    var r := Adopted(e, x, chosen);
    assert forall id <- e.streams :: StreamHeld(e, id);
    DistinctSnoc(e.streams, e.created);
    forall id | id in r.streams ensures StreamHeld(r, id) {
      assert id == e.created || StreamHeld(e, id);
    }
    forall k | k in r.lseps ensures SepSound(r, k) {
      assert SepSound(e, k);
    }
    forall k | k in r.seps ensures RemoteSound(r, k) {
      assert RemoteSound(e, k);
    }
  }

  /** A new record that goes into the list, with its end points; a remote one only if this side chose it. */
  function Adopt(e: Ends, x: Stream, chosen: bool): (r: Ends)
    requires Core(e) && x.lsep in e.lseps && (chosen ==> x.rseid in e.seps)
    ensures r.streams == e.streams + [e.created] && r.lseps.Keys == e.lseps.Keys
    ensures r.lseps[x.lsep].stream == Some(e.created)
    ensures e.lseps[x.lsep].stream.None? ==> Core(r)
  {
    assert e.lseps[x.lsep].stream.None? ==> Core(Adopted(e, x, chosen)) by {
      if e.lseps[x.lsep].stream.None? {
        AdoptedIsSound(e, x, chosen);
      }
    }
    Adopted(e, x, chosen)
  }

  /** Either way the old stream of an end point that has one would be in the list without its end point. */
  lemma LosesHolder(e: Ends, x: Stream, chosen: bool)
    requires Core(e) && x.lsep in e.lseps && e.lseps[x.lsep].stream.Some? && (chosen ==> x.rseid in e.seps)
    ensures !Core(Abandon(e, x)) && !Core(Adopt(e, x, chosen))
  {
    assert SepSound(e, x.lsep);
    var loser := e.lseps[x.lsep].stream.value;
    assert StreamHeld(e, loser);
    assert !StreamHeld(Abandon(e, x), loser) && !StreamHeld(Adopt(e, x, chosen), loser);
    assert loser in Abandon(e, x).streams && loser in Adopt(e, x, chosen).streams;
  }

  function NewStream(lsep: nat, rseid: nat, delayReporting: bool): Stream {
    Stream(lsep, rseid, false, false, false, false, false, delayReporting, false, false)
  }
}
