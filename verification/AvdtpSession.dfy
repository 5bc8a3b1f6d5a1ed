/** The session as an object whose fields its methods change, each proved against the function that says what it does. */
module AvdtpSession {
  import AvdtpCommands
  import opened AvdtpHandlers
  import opened AvdtpRequests
  import opened AvdtpRuns
  import opened AvdtpStates
  import opened Options
  import opened Sequences

  function FirstFor(queue: seq<Request>, stream: nat): (i: nat)
    ensures i <= |queue| && (i < |queue| ==> queue[i].stream == Some(stream))
    ensures forall j :: 0 <= j < i ==> queue[j].stream != Some(stream)
  {
    if queue == [] then 0 else if queue[0].stream == Some(stream) then 0 else 1 + FirstFor(queue[1..], stream)
  }

  lemma {:induction false} RemoveFirst(queue: seq<Request>, stream: nat, i: nat)
    requires i < |queue| && queue[i].stream == Some(stream)
    requires forall j :: 0 <= j < i ==> queue[j].stream != Some(stream)
    ensures Without(queue, stream) == Without(queue[..i] + queue[i + 1..], stream)
    ensures IdsFor(queue, stream) == [queue[i].id] + IdsFor(queue[..i] + queue[i + 1..], stream)
  {
    var shorter := queue[..i] + queue[i + 1..];
    if i == 0 {
      assert shorter == queue[1..];
    } else {
      assert queue[0].stream != Some(stream);
      RemoveFirst(queue[1..], stream, i - 1);
      assert shorter[1..] == queue[1..][..i - 1] + queue[1..][i..];
    }
  }

  lemma {:induction false} NothingToRemove(queue: seq<Request>, stream: nat)
    requires forall j :: 0 <= j < |queue| ==> queue[j].stream != Some(stream)
    ensures Without(queue, stream) == queue && IdsFor(queue, stream) == []
  {
    if queue != [] {
      assert queue[0].stream != Some(stream);
      NothingToRemove(queue[1..], stream);
    }
  }

  lemma ReleaseFirst(s: Session, ids: seq<nat>)
    requires Inv(s) && Distinct(ids) && ids != [] && forall x <- ids :: x in s.e.streams
    ensures StreamHeld(s.e, ids[0])
    ensures forall x <- ids[1..] :: x in SetSepState(s, s.e.objects[ids[0]].lsep, Idle).e.streams
  {
    assert ids[0] in ids;
    assert StreamHeld(s.e, ids[0]);
  }

  lemma ReleaseAllUnfold(s: Session, ids: seq<nat>, t: Session)
    requires Inv(s) && Distinct(ids) && ids != [] && forall x <- ids :: x in s.e.streams
    requires StreamHeld(s.e, ids[0]) && t == SetSepState(s, s.e.objects[ids[0]].lsep, Idle)
    requires forall x <- ids[1..] :: x in t.e.streams
    ensures ReleaseAll(s, ids) == ReleaseAll(t, ids[1..])
  {
  }

  lemma SetConfigurationUnfold(s: Session, lsep: nat, rsep: nat, x: Stream, q: Requests, ok: bool)
    requires Inv(s) && lsep in s.e.lseps && rsep in s.e.seps
    requires x == NewStream(lsep, rsep, s.e.seps[rsep].delayReporting && s.e.lseps[lsep].delayReporting)
    requires (q, ok) == AvdtpRequests.SendRequest(s.q, false, Some(s.e.created), false, SetConfiguration, rsep)
    ensures SetConfigurationCall(s, lsep, rsep) ==
      s.(q := q, e := if ok then Adopt(s.e, x, true) else Abandon(s.e, x))
  {
  }

  /** The cases of a configuration the peer asks for, for a free end point. */
  lemma SetconfUnfold(s: Session, seid: nat, rseid: nat, malformed: bool, delay: bool, verdict: Verdict, x: Stream,
      raised: Session)
    requires Inv(s) && seid in s.e.lseps && s.e.lseps[seid].stream.None?
    requires x == NewStream(seid, rseid, delay) && raised == s.(version13 := s.version13 || delay)
    ensures var r := SetConfigurationCommand(s, seid, rseid, malformed, delay, verdict);
      var replied := Reply(raised, true, SetConfiguration);
      r ==
        if malformed then Reply(s.(e := Abandon(s.e, x)), false, SetConfiguration)
        else if verdict == Refuses then Reply(raised.(e := Abandon(s.e, x)), false, SetConfiguration)
        else if !replied.1 then (replied.0.(e := Abandon(s.e, x)), verdict == Accepts)
        else Configure(replied.0, seid, x)
  {
  }

  lemma AbortUnfold(s: Session, signal: Signal, id: nat)
    requires Inv(s) && InProcess(s.q) && id in s.e.streams && signal == AbortStream
    ensures StreamHeld(s.e, id) && StreamAccepted(s, signal, id) == AbortAccepted(s, s.e.objects[id].lsep)
  {
    assert StreamHeld(s.e, id);
  }

  lemma RunUnfold(s: Session, signal: Signal, id: nat)
    requires Inv(s) && InProcess(s.q) && id in s.e.streams && (signal == StartStream || signal == CloseStream)
    ensures StreamHeld(s.e, id)
    ensures var k := s.e.objects[id].lsep;
      StreamAccepted(s, signal, id) ==
        if signal == CloseStream then SetSepState(s, k, Closing)
        else if s.e.lseps[k].state != Streaming then SetSepState(s, k, Streaming) else s
  {
    assert StreamHeld(s.e, id);
  }

  class Avdtp {
    var outstanding: Option<Request>
    var prioQueue: seq<Request>
    var reqQueue: seq<Request>
    var accepted: nat
    var freed: seq<nat>
    var transaction: nat
    var sent: seq<Message>
    var faults: seq<bool>

    var streams: seq<nat>
    var objects: map<nat, Stream>
    var seps: map<nat, RemoteSep>
    var lseps: map<nat, LocalSep>
    var pendingOpen: Option<nat>
    var created: nat

    var version13: bool
    var listening: bool

    ghost function Q(): Requests
      reads `outstanding, `prioQueue, `reqQueue, `accepted, `freed, `transaction, `sent, `faults
    {
      Requests(outstanding, prioQueue, reqQueue, accepted, freed, transaction, sent, faults)
    }

    ghost function E(): Ends
      reads `streams, `objects, `seps, `lseps, `pendingOpen, `created
    {
      Ends(streams, objects, seps, lseps, pendingOpen, created)
    }

    ghost function State(): Session
      reads this
    {
      Session(Q(), E(), version13, listening)
    }

    // -------------------------------------------------------------- requests

    method TrySend(m: Message) returns (ok: bool)
      modifies `sent, `faults
      ensures (Q(), ok) == AvdtpRequests.TrySend(old(Q()), m)
    {
      if faults != [] {
        var fails := faults[0];
        faults := faults[1..];
        if fails {
          return false;
        }
      }
      sent := sent + [m];
      return true;
    }

    method QueueRequest(r: Request, priority: bool)
      modifies `prioQueue, `reqQueue
      ensures prioQueue == (if priority then old(prioQueue) + [r] else old(prioQueue))
      ensures reqQueue == (if priority then old(reqQueue) else old(reqQueue) + [r])
    {
      if priority {
        prioQueue := prioQueue + [r];
      } else {
        reqQueue := reqQueue + [r];
      }
    }

    method SendReq(priority: bool, r: Request) returns (ok: bool)
      modifies `outstanding, `prioQueue, `reqQueue, `freed, `transaction, `sent, `faults
      ensures (Q(), ok) == AvdtpRequests.SendReq(old(Q()), priority, r)
    {
      if outstanding.Some? {
        QueueRequest(r, priority);
        return true;
      }
      var numbered := r.(transaction := transaction);
      transaction := (transaction + 1) % 16;
      ok := TrySend(Command(r.id, priority, accepted));
      if !ok {
        freed := freed + [r.id];
        return;
      }
      outstanding := Some(numbered.(timed := true));
    }

    method SendRequest(priority: bool, stream: Option<nat>, aborting: bool, signal: Signal, seid: nat)
      returns (ok: bool)
      modifies `outstanding, `prioQueue, `reqQueue, `accepted, `freed, `transaction, `sent, `faults
      ensures (Q(), ok) == AvdtpRequests.SendRequest(old(Q()), priority, stream, aborting, signal, seid)
    {
      if stream.Some? && aborting && signal != AbortStream {
        return false;
      }
      var r := Request(accepted, signal, seid, stream, 0, false, false);
      accepted := accepted + 1;
      ok := SendReq(priority, r);
    }

    method ProcessQueue() returns (ok: bool)
      modifies `outstanding, `prioQueue, `reqQueue, `freed, `transaction, `sent, `faults
      ensures (Q(), ok) == AvdtpRequests.ProcessQueue(old(Q()))
    {
      if outstanding.Some? {
        return true;
      }
      var r, priority;
      if prioQueue != [] {
        r, priority := prioQueue[0], true;
        prioQueue := prioQueue[1..];
      } else if reqQueue != [] {
        r, priority := reqQueue[0], false;
        reqQueue := reqQueue[1..];
      } else {
        return true;
      }
      ok := SendReq(priority, r);
    }

    /** Removes the first request of the stream until there is none. */
    method Purge(queue: seq<Request>, stream: nat) returns (rest: seq<Request>)
      modifies `freed
      ensures rest == Without(queue, stream) && freed == old(freed) + IdsFor(queue, stream)
    {
      rest := queue;
      var i := FirstFor(rest, stream);
      while i < |rest|
        invariant i == FirstFor(rest, stream)
        invariant Without(rest, stream) == Without(queue, stream)
        invariant freed + IdsFor(rest, stream) == old(freed) + IdsFor(queue, stream)
        decreases |rest|
      {
        RemoveFirst(rest, stream, i);
        freed := freed + [rest[i].id];
        rest := rest[..i] + rest[i + 1..];
        i := FirstFor(rest, stream);
      }
      NothingToRemove(rest, stream);
    }

    method CleanupQueue(stream: nat)
      modifies `prioQueue, `reqQueue, `freed
      ensures Q() == AvdtpRequests.CleanupQueue(old(Q()), stream)
    {
      var rest := Purge(prioQueue, stream);
      prioQueue := rest;
      rest := Purge(reqQueue, stream);
      reqQueue := rest;
    }

    method HandleUnansweredReq()
      requires outstanding.Some?
      modifies `outstanding, `freed
      ensures Q() == AvdtpRequests.HandleUnanswered(old(Q()))
    {
      if !outstanding.value.timed {
        return;
      }
      if outstanding.value.signal == AbortStream {
        outstanding := Some(outstanding.value.(stream := None));
        return;
      }
      freed := freed + [outstanding.value.id];
      outstanding := None;
    }

    // -------------------------------------------------------------- streams

    method StreamFree(id: nat)
      requires id in objects && objects[id].lsep in lseps
      modifies `objects, `seps, `lseps
      ensures E() == AvdtpStates.StreamFree(old(E()), id)
    {
      var x := objects[id];
      lseps := lseps[x.lsep := lseps[x.lsep].(inuse := false, stream := None)];
      if x.rseid in seps {
        seps := seps[x.rseid := seps[x.rseid].(stream := None)];
      }
      objects := objects - {id};
    }

    method DelayReport(id: nat)
      requires Inv(State())
      modifies this
      ensures State() == ReportDelay(old(State()), id).0
    {
      if id !in streams {
        return;
      }
      assert StreamHeld(E(), id);
      var x := objects[id];
      if lseps[x.lsep].state != Configured && lseps[x.lsep].state != Streaming {
        return;
      }
      if !x.delayReporting || !version13 {
        return;
      }
      var _ := SendRequest(true, Some(id), x.abortInt, AvdtpRequests.DelayReport, x.rseid);
    }

    /** Changes the state of a local end point. In the idle state everything that waits for its stream is given up, and
        the stream is freed. */
    method SepSetState(k: nat, state: SepState)
      requires Inv(State()) && k in lseps
      modifies this
      ensures State() == SetSepState(old(State()), k, state)
    {
      if lseps[k].stream.None? {
        return;
      }
      assert SepSound(E(), k);
      var id := lseps[k].stream.value;
      EnterState(k, state);
      if state == Configured && lseps[k].sink {
        DelayReport(id);
      } else if state == Idle {
        DiscardStream(id);
      }
    }

    method EnterState(k: nat, state: SepState)
      requires Core(E()) && k in lseps && lseps[k].stream.Some?
      modifies `lseps, `objects
      ensures E() == Enter(old(E()), k, state)
    {
      assert SepSound(E(), k);
      var id := lseps[k].stream.value;
      lseps := lseps[k := lseps[k].(state := state)];
      match state {
        case Configured =>
          assert objects[id := objects[id]] == objects;
        case Open =>
          objects := objects[id := objects[id].(starting := false)];
        case Streaming =>
          objects := objects[id := objects[id].(startTimer := false, openAcp := false)];
        case Closing =>
          objects := objects[id := objects[id].(startTimer := false)];
        case Aborting =>
          objects := objects[id := objects[id].(startTimer := false)];
        case Idle =>
          objects := objects[id := objects[id].(startTimer := false)];
      }
    }

    method ForgetPendingOpen(id: nat)
      requires Core(E()) && id in streams && id in objects
      modifies `pendingOpen, `objects
      ensures State() == old(State()).(e := ClearPending(old(E()), id))
    {
      if pendingOpen == Some(id) {
        pendingOpen := None;
        objects := objects[id := objects[id].(timer := false)];
      }
    }

    method GiveUpRequests(id: nat)
      requires Inv(State())
      modifies `outstanding, `prioQueue, `reqQueue, `freed
      ensures State() == GiveUp(old(State()), id)
    {
      if outstanding.Some? && outstanding.value.stream == Some(id) {
        HandleUnansweredReq();
      }
      CleanupQueue(id);
    }

    method RemoveStream(id: nat)
      requires Core(E()) && id in streams && id in objects && objects[id].lsep in lseps
      requires lseps[objects[id].lsep].state == Idle && pendingOpen != Some(id)
      modifies `streams, `objects, `seps, `lseps
      ensures E() == Remove(old(E()), id)
    {
      streams := Drop(streams, id);
      StreamFree(id);
    }

    method DiscardStream(id: nat)
      requires Inv(State()) && id in streams && StateOf(E(), id) == Idle
      modifies this
      ensures State() == Discard(old(State()), id)
    {
      assert StreamHeld(E(), id);
      ForgetPendingOpen(id);
      GiveUpRequests(id);
      ghost var waiting := State();
      RemoveStream(id);
      assert Q() == waiting.q;
    }

    // -------------------------------------------------------------- giving up

    /** Releases the streams one after the other; each leaves the list while the loop goes on with the rest. */
    method ConnectionLost()
      requires Inv(State())
      modifies this
      ensures State() == AvdtpStates.ConnectionLost(old(State()))
    {
      var rest := streams;
      while rest != []
        invariant Inv(State()) && Distinct(rest) && forall x <- rest :: x in streams
        invariant ReleaseAll(State(), rest) == ReleaseAll(old(State()), old(streams))
        decreases |rest|
      {
        ghost var s := State();
        ReleaseFirst(s, rest);
        var id := rest[0];
        ReleaseStream(id);
        ReleaseAllUnfold(s, rest, State());
        rest := rest[1..];
      }
    }

    method ReleaseStream(id: nat)
      requires Inv(State()) && id in streams && StreamHeld(E(), id)
      modifies this
      ensures State() == SetSepState(old(State()), old(objects)[id].lsep, Idle)
    {
      SepSetState(objects[id].lsep, Idle);
    }

    method FreeReq()
      requires Inv(State()) && outstanding.Some?
      modifies `outstanding, `freed
      ensures State() == FreeOutstanding(old(State()))
    {
      freed := freed + [outstanding.value.id];
      outstanding := None;
    }

    method FindStreamByRseid(seid: nat) returns (r: Option<nat>)
      requires Core(E())
      ensures r == FindByRseid(E(), streams, seid)
    {
      var i := 0;
      assert streams[0..] == streams;
      while i < |streams|
        invariant i <= |streams|
        invariant FindByRseid(E(), streams[i..], seid) == FindByRseid(E(), streams, seid)
      {
        assert streams[i] in streams && StreamHeld(E(), streams[i]) && streams[i..][1..] == streams[i + 1..];
        if objects[streams[i]].rseid == seid {
          return Some(streams[i]);
        }
        i := i + 1;
      }
      return None;
    }

    method SetStreamFields(id: nat, x: Stream)
      requires Inv(State()) && id in streams && id in objects
      requires x.lsep == objects[id].lsep && x.rseid == objects[id].rseid
      modifies `objects
      ensures State() == Change(old(State()), id, x)
    {
      objects := objects[id := x];
    }

    method SendForStream(priority: bool, id: nat, signal: Signal) returns (ok: bool)
      requires Inv(State()) && id in streams && id in objects
      modifies `outstanding, `prioQueue, `reqQueue, `accepted, `freed, `transaction, `sent, `faults
      ensures (State(), ok) == SendFor(old(State()), priority, id, signal)
    {
      ok := SendRequest(priority, Some(id), objects[id].abortInt, signal, objects[id].rseid);
    }

    method SendForNoStream(priority: bool, signal: Signal, seid: nat) returns (ok: bool)
      requires Inv(State())
      modifies `outstanding, `prioQueue, `reqQueue, `accepted, `freed, `transaction, `sent, `faults
      ensures (State(), ok) == SendForNone(old(State()), priority, signal, seid)
    {
      ok := SendRequest(priority, None, false, signal, seid);
    }

    method CancelRequest()
      requires Inv(State()) && outstanding.Some?
      modifies this
      ensures State() == AvdtpHandlers.CancelRequest(old(State()))
    {
      var req := outstanding.value;
      FreeReq();
      var stream := None;
      if req.signal != DiscoverSeps && req.seid != 0 {
        stream := FindStreamByRseid(req.seid);
      }
      if stream.None? {
        ConnectionLost();
        return;
      }
      assert StreamHeld(E(), stream.value);
      SetStreamFields(stream.value, Cancelled(objects[stream.value], req.signal));
      if Fatal(req.signal) {
        ConnectionLost();
        return;
      }
      var ok := SendForStream(true, stream.value, AbortStream);
      if !ok {
        ConnectionLost();
      }
    }

    // -------------------------------------------------------------- calls of the upper layer

    method AskFor(priority: bool, id: nat, signal: Signal, x: Stream)
      requires Inv(State()) && id in streams && id in objects
      requires x.lsep == objects[id].lsep && x.rseid == objects[id].rseid
      modifies this
      ensures State() == Ask(old(State()), priority, id, signal, x)
    {
      var ok := SendForStream(priority, id, signal);
      if ok {
        SetStreamFields(id, x);
      }
    }

    method AvdtpAbort(id: nat)
      requires Inv(State())
      modifies this
      ensures State() == Abort(old(State()), id)
    {
      if id !in streams {
        return;
      }
      ghost var s := State();
      assert StreamHeld(E(), id);
      var x := objects[id];
      if lseps[x.lsep].state == Aborting {
        return;
      }
      if outstanding.Some? && outstanding.value.timed && outstanding.value.stream == Some(id) {
        assert Abort(s, id) == AvdtpHandlers.CancelRequest(s);
        CancelRequest();
      } else {
        assert Abort(s, id) == Ask(s, true, id, AbortStream, x.(abortInt := true));
        AskFor(true, id, AbortStream, x.(abortInt := true));
      }
    }

    method AvdtpOpen(id: nat)
      requires Inv(State())
      modifies this
      ensures State() == OpenCall(old(State()), id)
    {
      if id !in streams {
        return;
      }
      assert StreamHeld(E(), id);
      if Rank(lseps[objects[id].lsep].state) > Rank(Configured) {
        return;
      }
      var _ := SendForStream(false, id, OpenStream);
    }

    method AvdtpStart(id: nat)
      requires Inv(State())
      modifies this
      ensures State() == Start(old(State()), id)
    {
      if id !in streams {
        return;
      }
      assert StreamHeld(E(), id);
      var x := objects[id];
      if lseps[x.lsep].state != Open {
        return;
      }
      if x.openAcp {
        SetStreamFields(id, x.(startTimer := true));
        return;
      }
      if x.closeInt || x.starting {
        return;
      }
      AskFor(false, id, StartStream, x.(starting := true));
    }

    method AvdtpClose(id: nat, immediate: bool)
      requires Inv(State())
      modifies this
      ensures State() == Close(old(State()), id, immediate)
    {
      if id !in streams {
        return;
      }
      ghost var s := State();
      assert StreamHeld(E(), id);
      var x := objects[id];
      if x.closeInt {
        return;
      }
      if Rank(lseps[x.lsep].state) < Rank(Open) {
        assert Close(s, id, immediate) == Abort(s, id);
        AvdtpAbort(id);
      } else if immediate && outstanding.Some? && outstanding.value.stream == Some(id) {
        assert Close(s, id, immediate) == Abort(s, id);
        AvdtpAbort(id);
      } else {
        assert Close(s, id, immediate) == Ask(s, false, id, CloseStream, x.(closeInt := true));
        AskFor(false, id, CloseStream, x.(closeInt := true));
      }
    }

    method AvdtpSuspend(id: nat)
      requires Inv(State())
      modifies this
      ensures State() == Suspend(old(State()), id)
    {
      if id !in streams {
        return;
      }
      assert StreamHeld(E(), id);
      if Rank(lseps[objects[id].lsep].state) <= Rank(Open) || objects[id].closeInt {
        return;
      }
      var _ := SendForStream(false, id, SuspendStream);
    }

    method AvdtpGetConfiguration(id: nat)
      requires Inv(State()) && id in streams
      modifies this
      ensures State() == GetConfigurationCall(old(State()), id)
    {
      assert StreamHeld(E(), id);
      var _ := SendForStream(false, id, GetConfiguration);
    }

    method AvdtpDiscover(busy: bool)
      requires Inv(State())
      modifies this
      ensures State() == DiscoverCall(old(State()), busy)
    {
      if busy || seps != map[] {
        return;
      }
      var _ := SendForNoStream(false, DiscoverSeps, 0);
    }

    method FreeNewRecord(x: Stream)
      requires Core(E()) && x.lsep in lseps
      modifies `objects, `seps, `lseps, `created
      ensures E() == Abandon(old(E()), x)
    {
      ghost var e := E();
      objects, created := objects[created := x], created + 1;
      assert E() == e.(objects := e.objects[e.created := x], created := e.created + 1);
      StreamFree(created - 1);
    }

    method AbandonStream(x: Stream)
      requires Core(E()) && x.lsep in lseps
      modifies `objects, `seps, `lseps, `created
      ensures State() == old(State()).(e := Abandon(old(E()), x))
    {
      FreeNewRecord(x);
    }

    method AdoptStream(x: Stream, chosen: bool)
      requires Core(E()) && x.lsep in lseps && (chosen ==> x.rseid in seps)
      modifies `streams, `objects, `seps, `lseps, `created
      ensures E() == Adopt(old(E()), x, chosen)
    {
      var id := created;
      objects, created := objects[id := x], created + 1;
      lseps := lseps[x.lsep := lseps[x.lsep].(inuse := true, stream := Some(id))];
      if chosen {
        seps := seps[x.rseid := seps[x.rseid].(stream := Some(id))];
      }
      streams := streams + [id];
    }

    method AdoptOrAbandon(x: Stream, sentOrQueued: bool)
      requires Core(E()) && x.lsep in lseps && x.rseid in seps
      modifies `streams, `objects, `seps, `lseps, `created
      ensures State() == old(State()).(e := if sentOrQueued then Adopt(old(E()), x, true) else Abandon(old(E()), x))
    {
      if sentOrQueued {
        AdoptStream(x, true);
      } else {
        AbandonStream(x);
      }
    }

    method AvdtpSetConfiguration(lsep: nat, rsep: nat)
      requires Inv(State())
      modifies this
      ensures State() == SetConfigurationCall(old(State()), lsep, rsep)
    {
      if lsep !in lseps || rsep !in seps {
        return;
      }
      ghost var s := State();
      var x := NewStream(lsep, rsep, seps[rsep].delayReporting && lseps[lsep].delayReporting);
      var ok := SendRequest(false, Some(created), false, SetConfiguration, rsep);
      SetConfigurationUnfold(s, lsep, rsep, x, Q(), ok);
      assert State() == s.(q := Q());
      AdoptOrAbandon(x, ok);
    }

    // -------------------------------------------------------------- commands of the peer

    method SendReply(accept: bool, signal: Signal) returns (ok: bool)
      requires Inv(State())
      modifies `sent, `faults
      ensures (State(), ok) == Reply(old(State()), accept, signal)
    {
      ok := TrySend(Response(accept, signal));
    }

    method CheckCollision(signal: Signal, rseid: nat)
      requires Inv(State())
      modifies `outstanding
      ensures State() == Collide(old(State()), signal, rseid)
    {
      if outstanding.None? {
        return;
      }
      var req := outstanding.value;
      if req.signal != signal && signal != AbortStream {
        return;
      }
      match req.signal {
        case OpenStream | CloseStream | StartStream | SuspendStream =>
          if req.seid == rseid {
            outstanding := Some(req.(collided := true));
          }
        case _ =>
      }
    }

    method SetconfCmd(seid: nat, rseid: nat, malformed: bool, delay: bool, verdict: Verdict) returns (ok: bool)
      requires Inv(State())
      modifies this
      ensures (State(), ok) == SetConfigurationCommand(old(State()), seid, rseid, malformed, delay, verdict)
    {
      ghost var s := State();
      ghost var target := SetConfigurationCommand(s, seid, rseid, malformed, delay, verdict);
      if seid !in lseps || lseps[seid].stream.Some? {
        ok := SendReply(false, SetConfiguration);
        return;
      }
      var x := NewStream(seid, rseid, delay);
      ghost var raised := s.(version13 := version13 || delay);
      SetconfUnfold(s, seid, rseid, malformed, delay, verdict, x, raised);
      if malformed {
        AbandonStream(x);
        assert State() == s.(e := Abandon(s.e, x));
        ok := SendReply(false, SetConfiguration);
        assert (State(), ok) == target;
        return;
      }
      if delay {
        version13 := true;
      }
      assert State() == raised;
      if verdict == Refuses {
        AbandonStream(x);
        assert State() == raised.(e := Abandon(s.e, x));
        ok := SendReply(false, SetConfiguration);
        assert (State(), ok) == target;
        return;
      }
      ok := SendReply(true, SetConfiguration);
      if !ok {
        AbandonStream(x);
        ok := verdict == Accepts;
        assert (State(), ok) == target;
        return;
      }
      EnterConfiguration(seid, x);
      assert (State(), ok) == target;
    }

    method EnterConfiguration(k: nat, x: Stream)
      requires Inv(State()) && k in lseps && lseps[k].stream.None? && x.lsep == k
      modifies this
      ensures State() == Configure(old(State()), k, x).0
    {
      MoreLive(Q(), streams, streams + [created]);
      AdoptStream(x, false);
      SepSetState(k, Configured);
    }

    method OpenCmd(seid: nat, refused: bool) returns (ok: bool)
      requires Inv(State())
      modifies this
      ensures (State(), ok) == OpenCommand(old(State()), seid, refused)
    {
      if seid !in lseps || lseps[seid].state != Configured || refused {
        ok := SendReply(false, OpenStream);
        return;
      }
      assert SepSound(E(), seid);
      var id := lseps[seid].stream.value;
      assert StreamHeld(E(), id);
      CheckCollision(OpenStream, objects[id].rseid);
      ok := SendReply(true, OpenStream);
      if ok {
        SetStreamFields(id, objects[id].(openAcp := true, timer := true));
        pendingOpen := Some(id);
      }
    }

    method StartCmd(seids: seq<nat>, refused: set<nat>) returns (ok: bool)
      requires Inv(State())
      modifies this
      ensures (State(), ok) == StartCommand(old(State()), seids, refused)
      ensures AvdtpCommands.Obeys(old(State()), Open, Streaming, StartStream, seids, refused, State(), ok)
    {
      AvdtpCommands.StartObeys(State(), seids, refused);
      ok := StartEach(seids, refused);
    }

    method StartEach(seids: seq<nat>, refused: set<nat>) returns (ok: bool)
      requires Inv(State())
      modifies this
      ensures (State(), ok) == StartCommand(old(State()), seids, refused)
    {
      var i := 0;
      assert seids[0..] == seids;
      while i < |seids|
        invariant i <= |seids| && Inv(State())
        invariant StartCommand(State(), seids[i..], refused) == StartCommand(old(State()), seids, refused)
      {
        var k := seids[i];
        assert seids[i..][1..] == seids[i + 1..];
        if k !in lseps || lseps[k].stream.None? || lseps[k].state != Open {
          ok := SendReply(false, StartStream);
          return;
        }
        assert SepSound(E(), k);
        var id := lseps[k].stream.value;
        SetStreamFields(id, objects[id].(starting := true));
        if k in refused {
          ok := SendReply(false, StartStream);
          return;
        }
        CheckCollision(StartStream, objects[id].rseid);
        SepSetState(k, Streaming);
        i := i + 1;
      }
      ok := SendReply(true, StartStream);
    }

    method SuspendCmd(seids: seq<nat>, refused: set<nat>) returns (ok: bool)
      requires Inv(State())
      modifies this
      ensures (State(), ok) == SuspendCommand(old(State()), seids, refused)
      ensures AvdtpCommands.Obeys(old(State()), Streaming, Open, SuspendStream, seids, refused, State(), ok)
    {
      AvdtpCommands.SuspendObeys(State(), seids, refused);
      ok := SuspendEach(seids, refused);
    }

    method SuspendEach(seids: seq<nat>, refused: set<nat>) returns (ok: bool)
      requires Inv(State())
      modifies this
      ensures (State(), ok) == SuspendCommand(old(State()), seids, refused)
    {
      var i := 0;
      assert seids[0..] == seids;
      while i < |seids|
        invariant i <= |seids| && Inv(State())
        invariant SuspendCommand(State(), seids[i..], refused) == SuspendCommand(old(State()), seids, refused)
      {
        var k := seids[i];
        assert seids[i..][1..] == seids[i + 1..];
        if k !in lseps || lseps[k].stream.None? || lseps[k].state != Streaming || k in refused {
          ok := SendReply(false, SuspendStream);
          return;
        }
        assert SepSound(E(), k);
        CheckCollision(SuspendStream, objects[lseps[k].stream.value].rseid);
        SepSetState(k, Open);
        i := i + 1;
      }
      ok := SendReply(true, SuspendStream);
    }

    method CloseCmd(seid: nat, refused: bool) returns (ok: bool)
      requires Inv(State())
      modifies this
      ensures (State(), ok) == CloseCommand(old(State()), seid, refused)
    {
      if seid !in lseps || lseps[seid].stream.None? || refused {
        ok := SendReply(false, CloseStream);
        return;
      }
      if lseps[seid].state != Open && lseps[seid].state != Streaming {
        ok := SendReply(false, CloseStream);
        return;
      }
      assert SepSound(E(), seid);
      var id := lseps[seid].stream.value;
      CheckCollision(CloseStream, objects[id].rseid);
      SepSetState(seid, Closing);
      ok := SendReply(true, CloseStream);
      if ok {
        assert StreamHeld(E(), id);
        SetStreamFields(id, objects[id].(timer := true));
      }
    }

    method AbortCmd(seid: nat) returns (ok: bool)
      requires Inv(State())
      modifies this
      ensures (State(), ok) == AbortCommand(old(State()), seid)
    {
      if seid !in lseps || lseps[seid].stream.None? {
        return true;
      }
      assert SepSound(E(), seid);
      CheckCollision(AbortStream, objects[lseps[seid].stream.value].rseid);
      ok := SendReply(true, AbortStream);
      if ok {
        SepSetState(seid, Aborting);
      }
    }

    method ParseCmd(c: Command) returns (ok: bool)
      requires Inv(State())
      modifies this
      ensures (State(), ok) == Commanded(old(State()), c)
    {
      match c {
        case SetConfigurationCmd(seid, rseid, malformed, delay, verdict) =>
          ok := SetconfCmd(seid, rseid, malformed, delay, verdict);
        case OpenCmd(seid, refused) => ok := OpenCmd(seid, refused);
        case StartCmd(seids, refused) => ok := StartCmd(seids, refused);
        case SuspendCmd(seids, refused) => ok := SuspendCmd(seids, refused);
        case CloseCmd(seid, refused) => ok := CloseCmd(seid, refused);
        case AbortCmd(seid) => ok := AbortCmd(seid);
        case OtherCmd(signal, accepted) => ok := SendReply(accepted, signal);
        case TooShort => return false;
      }
    }

    // -------------------------------------------------------------- answers of the peer

    method DiscoverResp(found: seq<Found>)
      requires Inv(State()) && InProcess(Q())
      modifies this
      ensures State() == DiscoverAnswer(old(State()), found)
    {
      var rest := found;
      while rest != []
        invariant Inv(State()) && InProcess(Q())
        invariant DiscoverAnswer(State(), rest) == DiscoverAnswer(old(State()), found)
        decreases |rest|
      {
        var ok := FoundSep(rest[0]);
        if !ok {
          return;
        }
        rest := rest[1..];
      }
    }

    method FoundSep(f: Found) returns (ok: bool)
      requires Inv(State()) && InProcess(Q())
      modifies this
      ensures (State(), ok) == DiscoverOne(old(State()), f)
    {
      var stream := FindStreamByRseid(f.seid);
      if f.seid !in seps && f.inuse && stream.None? {
        return true;
      }
      NoteSep(f.seid, stream);
      ok := SendForNoStream(true, if version13 then GetAllCapabilities else GetCapabilities, f.seid);
    }

    method NoteSep(k: nat, stream: Option<nat>)
      requires Inv(State())
      requires stream.Some? ==> stream.value in streams && stream.value in objects && objects[stream.value].rseid == k
      modifies `seps
      ensures State() == old(State()).(e := Discovered(old(E()), k, stream))
    {
      if k !in seps {
        seps := seps[k := RemoteSep(None, false)];
      }
      seps := seps[k := seps[k].(stream := stream)];
    }

    method StreamResp(signal: Signal, id: nat)
      requires Inv(State()) && InProcess(Q()) && id in streams
      modifies this
      ensures State() == StreamAccepted(old(State()), signal, id)
    {
      match signal {
        case SetConfiguration | SuspendStream => MoveResp(signal, id);
        case StartStream | CloseStream => RunResp(signal, id);
        case OpenStream => OpenResp(id);
        case AbortStream => AbortResp(id);
        case _ =>
      }
    }

    method OpenResp(id: nat)
      requires Inv(State()) && InProcess(Q()) && id in streams
      modifies `pendingOpen
      ensures State() == StreamAccepted(old(State()), OpenStream, id)
    {
      pendingOpen := Some(id);
    }

    method MoveResp(signal: Signal, id: nat)
      requires Inv(State()) && InProcess(Q()) && id in streams
      requires signal == SetConfiguration || signal == SuspendStream
      modifies this
      ensures State() == StreamAccepted(old(State()), signal, id)
    {
      assert StreamHeld(E(), id);
      var k := objects[id].lsep;
      match signal {
        case SetConfiguration => SepSetState(k, Configured);
        case SuspendStream => SepSetState(k, Open);
      }
    }

    method RunResp(signal: Signal, id: nat)
      requires Inv(State()) && InProcess(Q()) && id in streams && (signal == StartStream || signal == CloseStream)
      modifies this
      ensures State() == StreamAccepted(old(State()), signal, id)
    {
      RunUnfold(State(), signal, id);
      var k := objects[id].lsep;
      if signal == CloseStream {
        SepSetState(k, Closing);
      } else if lseps[k].state != Streaming {
        SepSetState(k, Streaming);
      }
    }

    method AbortResp(id: nat)
      requires Inv(State()) && InProcess(Q()) && id in streams
      modifies this
      ensures State() == StreamAccepted(old(State()), AbortStream, id)
    {
      AbortUnfold(State(), AbortStream, id);
      AbortSep(objects[id].lsep);
    }

    method AbortSep(k: nat)
      requires Inv(State()) && InProcess(Q()) && k in lseps
      modifies this
      ensures State() == AbortAccepted(old(State()), k)
    {
      SepSetState(k, Aborting);
      SepSetState(k, Idle);
    }

    method ParseResp(a: Answer) returns (ok: bool)
      requires Inv(State()) && InProcess(Q()) && a.Accept?
      requires outstanding.value.stream.Some? ==> outstanding.value.stream.value in streams
      modifies this
      ensures (State(), ok) == Accepted(old(State()), a)
    {
      var req := outstanding.value;
      match req.signal {
        case DiscoverSeps =>
          DiscoverResp(a.found);
        case GetCapabilities | GetAllCapabilities =>
          if a.short {
            return false;
          }
          if req.seid in seps {
            seps := seps[req.seid := seps[req.seid].(delayReporting := a.delay)];
          }
        case _ =>
          if req.stream.Some? {
            StreamResp(req.signal, req.stream.value);
          }
      }
      return true;
    }

    method ParseRej(short: bool) returns (ok: bool)
      requires Inv(State()) && InProcess(Q())
      requires outstanding.value.stream.Some? ==> outstanding.value.stream.value in streams
      modifies this
      ensures (State(), ok) == Rejected(old(State()), short)
    {
      var req := outstanding.value;
      if req.signal == SecurityControl {
        return true;
      }
      if short || req.signal == AbortStream {
        return false;
      }
      if req.stream.Some? {
        var id := req.stream.value;
        assert StreamHeld(E(), id);
        match req.signal {
          case StartStream => SetStreamFields(id, objects[id].(starting := false));
          case CloseStream => SetStreamFields(id, objects[id].(closeInt := false));
          case _ =>
        }
      }
      return true;
    }

    method ParseAnswer(a: Answer) returns (ok: bool)
      requires Inv(State()) && InProcess(Q())
      requires outstanding.value.stream.Some? ==> outstanding.value.stream.value in streams
      modifies this
      ensures (State(), ok) == Processed(old(State()), a)
    {
      match a {
        case Accept(_, _, _) => ok := ParseResp(a);
        case Reject(short) => ok := ParseRej(short);
        case GeneralReject => return true;
      }
    }

    // -------------------------------------------------------------- the channel

    method StopReqTimer()
      requires Inv(State()) && outstanding.Some?
      modifies `outstanding
      ensures State() == StopTimer(old(State()))
    {
      outstanding := Some(outstanding.value.(timed := false));
    }

    method Fail()
      requires Inv(State())
      modifies this
      ensures State() == Failed(old(State()))
    {
      ConnectionLost();
      listening := false;
    }

    method Next()
      requires Inv(State()) && outstanding.Some?
      modifies this
      ensures State() == Finished(old(State()))
    {
      FreeReq();
      var _ := ProcessQueue();
    }

    method CommandCb(c: Command)
      requires Between(State()) && listening
      modifies this
      ensures State() == CommandRead(old(State()), c)
    {
      var ok := ParseCmd(c);
      if !ok {
        Fail();
      } else if outstanding.Some? && outstanding.value.collided {
        Next();
      }
    }

    method AnswerCb(transactionLabel: nat, signal: Signal, a: Answer)
      requires Between(State()) && listening
      modifies this
      ensures State() == AnswerRead(old(State()), transactionLabel, signal, a)
    {
      if outstanding.None? || outstanding.value.transaction != transactionLabel || outstanding.value.signal != signal {
        return;
      }
      StopReqTimer();
      var ok := ParseAnswer(a);
      if ok {
        Next();
      } else {
        Fail();
      }
    }

    // -------------------------------------------------------------- transports and timers

    method StreamSetTransport(id: nat)
      requires Inv(State()) && id in streams
      modifies this
      ensures State() == SetTransport(old(State()), id)
    {
      if pendingOpen != Some(id) {
        return;
      }
      assert StreamHeld(E(), id);
      ForgetPendingOpen(id);
      SepSetState(objects[id].lsep, Open);
      assert StreamHeld(E(), id);
      SetStreamFields(id, objects[id].(connected := true));
    }

    method TransportCb(id: nat)
      requires Inv(State()) && id in streams
      modifies this
      ensures State() == TransportLost(old(State()), id)
    {
      assert StreamHeld(E(), id);
      SetStreamFields(id, objects[id].(connected := false));
      if !objects[id].abortInt {
        SepSetState(objects[id].lsep, Idle);
      }
    }

    method StreamOpenTimeout(id: nat)
      requires Inv(State()) && id in streams
      modifies this
      ensures State() == OpenTimeout(old(State()), id)
    {
      assert StreamHeld(E(), id);
      SetStreamFields(id, objects[id].(timer := false));
      pendingOpen := None;
      AvdtpAbort(id);
    }

    method StreamCloseTimeout(id: nat)
      requires Inv(State()) && id in streams
      modifies this
      ensures State() == CloseTimeout(old(State()), id)
    {
      assert StreamHeld(E(), id);
      SetStreamFields(id, objects[id].(timer := false));
    }

    method StartTimeoutCb(id: nat)
      requires Inv(State()) && id in streams
      modifies this
      ensures State() == StartTimeout(old(State()), id)
    {
      assert StreamHeld(E(), id);
      SetStreamFields(id, objects[id].(openAcp := false));
      AvdtpStart(id);
      assert StreamHeld(E(), id);
      SetStreamFields(id, objects[id].(startTimer := false));
    }

    // -------------------------------------------------------------- events

    /** Whatever comes next. */
    method Handle(ev: Event)
      requires Between(State()) && Enabled(State(), ev)
      modifies this
      ensures State() == Step(old(State()), ev)
    {
      match ev {
        case CallSetConfiguration(lsep, rsep) => AvdtpSetConfiguration(lsep, rsep);
        case CallGetConfiguration(id) => AvdtpGetConfiguration(id);
        case CallOpen(id) => AvdtpOpen(id);
        case CallStart(id) => AvdtpStart(id);
        case CallClose(id, immediate) => AvdtpClose(id, immediate);
        case CallSuspend(id) => AvdtpSuspend(id);
        case CallAbort(id) => AvdtpAbort(id);
        case CallReportDelay(id) => DelayReport(id);
        case CallDiscover(busy) => AvdtpDiscover(busy);
        case TransportUp(id) => StreamSetTransport(id);
        case TransportDown(id) => TransportCb(id);
        case RequestTimesOut => CancelRequest();
        case OpenTimesOut(id) => StreamOpenTimeout(id);
        case CloseTimesOut(id) => StreamCloseTimeout(id);
        case StartTimesOut(id) => StartTimeoutCb(id);
        case PeerCommand(c) => CommandCb(c);
        case PeerAnswer(transactionLabel, signal, a) => AnswerCb(transactionLabel, signal, a);
        case Disconnected => Fail();
      }
    }

    /** One event after the other, from a fresh session: what the runs keep, the object keeps. */
    method Serve(events: seq<Event>)
      requires Fresh(State()) && Between(State()) && CanRun(State(), events)
      modifies this
      ensures State() == Run(old(State()), events)
      ensures OthersLive(State()) && (AllLive(State()) <==> !StrandsReference(old(State()), events))
    {
      ghost var s := State();
      var rest := events;
      while rest != []
        invariant Between(State()) && CanRun(State(), rest) && Run(State(), rest) == Run(s, events)
        decreases |rest|
      {
        Handle(rest[0]);
        rest := rest[1..];
      }
      RunsKeepOthersLive(s, events);
      RunsLiveExactlyWhen(s, events);
    }
  }
}
