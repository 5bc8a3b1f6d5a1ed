/** Whatever happens to a session, its requests go through the queue operations whose order is studied in `AvdtpOrder`. */
module AvdtpQueueRuns {
  import opened AvdtpHandlers
  import Order = AvdtpOrder
  import opened AvdtpRequests
  import opened AvdtpRuns
  import opened AvdtpStates
  import opened Options
  import opened Sequences

  /** Queue operations lead from one state of the requests to another. */
  ghost predicate Queues(q: Requests, r: Requests) {
    exists events :: Order.QueueRun(q, events) == r
  }

  lemma QueuesNothing(q: Requests)
    ensures Queues(q, q)
  {
    assert Order.QueueRun(q, []) == q;
  }

  lemma QueuesStep(q: Requests, e: Order.QueueEvent)
    ensures Queues(q, Order.QueueStep(q, e))
  {
    assert [e][1..] == [];
    assert Order.QueueRun(Order.QueueStep(q, e), []) == Order.QueueStep(q, e);
    assert Order.QueueRun(q, [e]) == Order.QueueStep(q, e);
  }

  lemma {:induction false} RunConcat(q: Requests, a: seq<Order.QueueEvent>, b: seq<Order.QueueEvent>)
    ensures Order.QueueRun(q, a + b) == Order.QueueRun(Order.QueueRun(q, a), b)
    decreases |a|
  {
    if a == [] {
      assert a + b == b;
    } else {
      RunConcat(Order.QueueStep(q, a[0]), a[1..], b);
      assert (a + b)[1..] == a[1..] + b;
    }
  }

  lemma QueuesOn(q: Requests, r: Requests, t: Requests)
    requires Queues(q, r) && Queues(r, t)
    ensures Queues(q, t)
  {
    var a :| Order.QueueRun(q, a) == r;
    var b :| Order.QueueRun(r, b) == t;
    RunConcat(q, a, b);
    assert Order.QueueRun(q, a + b) == t;
  }

  // ---------------------------------------------------------------- the operations

  lemma SubmitQueues(q: Requests, priority: bool, stream: Option<nat>, aborting: bool, signal: Signal, seid: nat)
    ensures Queues(q, SendRequest(q, priority, stream, aborting, signal, seid).0)
  {
    QueuesStep(q, Order.Submit(priority, stream, aborting, signal, seid));
  }

  lemma TellQueues(q: Requests, accepted: bool, signal: Signal)
    ensures Queues(q, TrySend(q, Response(accepted, signal)).0)
  {
    QueuesStep(q, Order.Told(accepted, signal));
  }

  lemma MarkQueues(q: Requests, timed: bool, collided: bool)
    requires q.outstanding.Some?
    ensures Queues(q, q.(outstanding := Some(q.outstanding.value.(timed := timed, collided := collided))))
  {
    QueuesStep(q, Order.Marked(timed, collided));
  }

  lemma DropQueues(q: Requests)
    requires q.outstanding.Some?
    ensures Queues(q, Dropped(q)) && Queues(q, Answered(q))
  {
    QueuesStep(q, Order.Cancelled);
    QueuesStep(q, Order.Answer);
  }

  lemma GiveUpQueues(s: Session, id: nat)
    requires Inv(s)
    ensures Queues(s.q, GiveUp(s, id).q)
  {
    var concerned := s.q.outstanding.Some? && s.q.outstanding.value.stream == Some(id);
    QueuesNothing(s.q);
    QueuesStep(s.q, Order.GivenUp);
    var q := if concerned then HandleUnanswered(s.q) else s.q;
    QueuesStep(q, Order.Cleanup(id));
    QueuesOn(s.q, q, CleanupQueue(q, id));
  }

  lemma ReplyQueues(s: Session, accepted: bool, signal: Signal)
    requires Inv(s)
    ensures Queues(s.q, Reply(s, accepted, signal).0.q)
  {
    TellQueues(s.q, accepted, signal);
  }

  lemma SendForQueues(s: Session, priority: bool, id: nat, signal: Signal)
    requires Inv(s) && id in s.e.streams && id in s.e.objects
    ensures Queues(s.q, SendFor(s, priority, id, signal).0.q)
  {
    SubmitQueues(s.q, priority, Some(id), s.e.objects[id].abortInt, signal, s.e.objects[id].rseid);
  }

  lemma SendForNoneQueues(s: Session, priority: bool, signal: Signal, seid: nat)
    requires Inv(s)
    ensures Queues(s.q, SendForNone(s, priority, signal, seid).0.q)
  {
    SubmitQueues(s.q, priority, None, false, signal, seid);
  }

  // ---------------------------------------------------------------- states

  lemma ReportDelayQueues(s: Session, id: nat)
    requires Inv(s)
    ensures Queues(s.q, ReportDelay(s, id).0.q)
  {
    QueuesNothing(s.q);
    if id in s.e.streams {
      assert StreamHeld(s.e, id);
      SendForQueues(s, true, id, DelayReport);
    }
  }

  lemma DiscardQueues(s: Session, id: nat)
    requires Inv(s) && id in s.e.streams && StateOf(s.e, id) == Idle
    ensures Queues(s.q, Discard(s, id).q)
  {
    assert StreamHeld(s.e, id);
    GiveUpQueues(s.(e := ClearPending(s.e, id)), id);
  }

  lemma SetSepStateQueues(s: Session, k: nat, state: SepState)
    requires Inv(s) && k in s.e.lseps
    ensures Queues(s.q, SetSepState(s, k, state).q)
  {
    QueuesNothing(s.q);
    if s.e.lseps[k].stream.Some? {
      var entered := EnterState(s, k, state);
      if state == Idle {
        DiscardQueues(entered, s.e.lseps[k].stream.value);
      } else if state == Configured {
        ReportDelayQueues(entered, s.e.lseps[k].stream.value);
      }
    }
  }

  lemma {:induction false} ReleaseAllQueues(s: Session, ids: seq<nat>)
    requires Inv(s) && Distinct(ids) && forall x <- ids :: x in s.e.streams
    ensures Queues(s.q, ReleaseAll(s, ids).q)
    decreases |ids|
  {
    if ids == [] {
      QueuesNothing(s.q);
    } else {
      assert StreamHeld(s.e, ids[0]);
      var next := SetSepState(s, s.e.objects[ids[0]].lsep, Idle);
      SetSepStateQueues(s, s.e.objects[ids[0]].lsep, Idle);
      ReleaseAllQueues(next, ids[1..]);
      QueuesOn(s.q, next.q, ReleaseAll(next, ids[1..]).q);
    }
  }

  lemma ConnectionLostQueues(s: Session)
    requires Inv(s)
    ensures Queues(s.q, ConnectionLost(s).q)
  {
    ReleaseAllQueues(s, s.e.streams);
  }

  // ---------------------------------------------------------------- calls and timers

  lemma CancelRequestQueues(s: Session)
    requires Inv(s) && s.q.outstanding.Some?
    ensures Queues(s.q, CancelRequest(s).q)
  {
    var req, freed := s.q.outstanding.value, FreeOutstanding(s);
    DropQueues(s.q);
    var stream :=
      if req.signal == DiscoverSeps || req.seid == 0 then None else FindByRseid(s.e, s.e.streams, req.seid);
    if stream.None? {
      ConnectionLostQueues(freed);
      QueuesOn(s.q, freed.q, ConnectionLost(freed).q);
    } else {
      assert StreamHeld(s.e, stream.value);
      MarkedQueues(s.q, Change(freed, stream.value, Cancelled(s.e.objects[stream.value], req.signal)), stream.value,
        req.signal);
    }
  }

  lemma MarkedQueues(q: Requests, marked: Session, id: nat, signal: Signal)
    requires Inv(marked) && id in marked.e.streams && id in marked.e.objects && Queues(q, marked.q)
    ensures var asked := SendFor(marked, true, id, AbortStream);
      && Queues(q, ConnectionLost(marked).q) && Queues(q, asked.0.q) && Queues(q, ConnectionLost(asked.0).q)
  {
    var asked := SendFor(marked, true, id, AbortStream).0;
    ConnectionLostQueues(marked);
    QueuesOn(q, marked.q, ConnectionLost(marked).q);
    SendForQueues(marked, true, id, AbortStream);
    QueuesOn(q, marked.q, asked.q);
    ConnectionLostQueues(asked);
    QueuesOn(q, asked.q, ConnectionLost(asked).q);
  }

  lemma AbortQueues(s: Session, id: nat)
    requires Inv(s)
    ensures Queues(s.q, Abort(s, id).q)
  {
    QueuesNothing(s.q);
    if id in s.e.streams {
      assert StreamHeld(s.e, id);
      SendForQueues(s, true, id, AbortStream);
      if s.q.outstanding.Some? {
        CancelRequestQueues(s);
      }
    }
  }

  lemma StartQueues(s: Session, id: nat)
    requires Inv(s)
    ensures Queues(s.q, Start(s, id).q)
  {
    QueuesNothing(s.q);
    if id in s.e.streams {
      assert StreamHeld(s.e, id);
      SendForQueues(s, false, id, StartStream);
    }
  }

  lemma CloseQueues(s: Session, id: nat, immediate: bool)
    requires Inv(s)
    ensures Queues(s.q, Close(s, id, immediate).q)
  {
    QueuesNothing(s.q);
    if id in s.e.streams {
      assert StreamHeld(s.e, id);
      AbortQueues(s, id);
      SendForQueues(s, false, id, CloseStream);
    }
  }

  lemma SetConfigurationQueues(s: Session, lsep: nat, rsep: nat)
    requires Inv(s)
    ensures Queues(s.q, SetConfigurationCall(s, lsep, rsep).q)
  {
    QueuesNothing(s.q);
    SubmitQueues(s.q, false, Some(s.e.created), false, SetConfiguration, rsep);
  }

  lemma CalledQueues(s: Session, ev: Event)
    requires Inv(s) && Enabled(s, ev) && IsCall(ev)
    ensures Queues(s.q, Called(s, ev).q)
  {
    QueuesNothing(s.q);
    match ev
    case CallSetConfiguration(lsep, rsep) => SetConfigurationQueues(s, lsep, rsep);
    case CallGetConfiguration(id) =>
      assert StreamHeld(s.e, id);
      SendForQueues(s, false, id, GetConfiguration);
    case CallOpen(id) =>
      if id in s.e.streams {
        assert StreamHeld(s.e, id);
        SendForQueues(s, false, id, OpenStream);
      }
    case CallStart(id) => StartQueues(s, id);
    case CallClose(id, immediate) => CloseQueues(s, id, immediate);
    case CallSuspend(id) =>
      if id in s.e.streams {
        assert StreamHeld(s.e, id);
        SendForQueues(s, false, id, SuspendStream);
      }
    case CallAbort(id) => AbortQueues(s, id);
    case CallReportDelay(id) => ReportDelayQueues(s, id);
    case CallDiscover(busy) => SendForNoneQueues(s, false, DiscoverSeps, 0);
  }

  lemma SetTransportQueues(s: Session, id: nat)
    requires Inv(s) && id in s.e.streams
    ensures Queues(s.q, SetTransport(s, id).q)
  {
    QueuesNothing(s.q);
    assert StreamHeld(s.e, id);
    SetSepStateQueues(s.(e := ClearPending(s.e, id)), s.e.objects[id].lsep, Open);
  }

  lemma TransportLostQueues(s: Session, id: nat)
    requires Inv(s) && id in s.e.streams
    ensures Queues(s.q, TransportLost(s, id).q)
  {
    QueuesNothing(s.q);
    assert StreamHeld(s.e, id);
    SetSepStateQueues(Change(s, id, s.e.objects[id].(connected := false)), s.e.objects[id].lsep, Idle);
  }

  lemma OpenTimeoutQueues(s: Session, id: nat)
    requires Inv(s) && id in s.e.streams
    ensures Queues(s.q, OpenTimeout(s, id).q)
  {
    assert StreamHeld(s.e, id);
    var stopped := Change(s, id, s.e.objects[id].(timer := false));
    AbortQueues(stopped.(e := stopped.e.(pendingOpen := None)), id);
  }

  lemma StartTimeoutQueues(s: Session, id: nat)
    requires Inv(s) && id in s.e.streams
    ensures Queues(s.q, StartTimeout(s, id).q)
  {
    assert StreamHeld(s.e, id);
    StartQueues(Change(s, id, s.e.objects[id].(openAcp := false)), id);
  }

  // ---------------------------------------------------------------- commands of the peer

  lemma CollideQueues(s: Session, signal: Signal, rseid: nat)
    requires Inv(s)
    ensures Queues(s.q, Collide(s, signal, rseid).q)
  {
    QueuesNothing(s.q);
    if s.q.outstanding.Some? {
      MarkQueues(s.q, s.q.outstanding.value.timed, true);
    }
  }

  lemma CollidedReplyQueues(s: Session, crossing: Signal, rseid: nat, accepted: bool, signal: Signal)
    requires Inv(s)
    ensures Queues(s.q, Reply(Collide(s, crossing, rseid), accepted, signal).0.q)
  {
    var collided := Collide(s, crossing, rseid);
    CollideQueues(s, crossing, rseid);
    ReplyQueues(collided, accepted, signal);
    QueuesOn(s.q, collided.q, Reply(collided, accepted, signal).0.q);
  }

  lemma CollidedStateQueues(s: Session, crossing: Signal, rseid: nat, k: nat, state: SepState)
    requires Inv(s) && k in s.e.lseps
    ensures Queues(s.q, SetSepState(Collide(s, crossing, rseid), k, state).q)
  {
    var collided := Collide(s, crossing, rseid);
    CollideQueues(s, crossing, rseid);
    SetSepStateQueues(collided, k, state);
    QueuesOn(s.q, collided.q, SetSepState(collided, k, state).q);
  }

  lemma SetConfigurationCommandQueues(s: Session, seid: nat, rseid: nat, malformed: bool, delay: bool, verdict: Verdict)
    requires Inv(s)
    ensures Queues(s.q, SetConfigurationCommand(s, seid, rseid, malformed, delay, verdict).0.q)
  {
    ReplyQueues(s, false, SetConfiguration);
    if seid in s.e.lseps && s.e.lseps[seid].stream.None? && !malformed && verdict != Refuses {
      var raised := s.(version13 := s.version13 || delay);
      var replied := Reply(raised, true, SetConfiguration).0;
      ReplyQueues(raised, true, SetConfiguration);
      ConfigureQueues(replied, seid, NewStream(seid, rseid, delay));
      QueuesOn(s.q, replied.q, Configure(replied, seid, NewStream(seid, rseid, delay)).0.q);
    }
  }

  lemma ConfigureQueues(s: Session, k: nat, x: Stream)
    requires Inv(s) && k in s.e.lseps && s.e.lseps[k].stream.None? && x.lsep == k
    ensures Queues(s.q, Configure(s, k, x).0.q)
  {
    var e := Adopt(s.e, x, false);
    MoreLive(s.q, s.e.streams, e.streams);
    SetSepStateQueues(s.(e := e), k, SepState.Configured);
  }

  lemma OpenCommandQueues(s: Session, seid: nat, refused: bool)
    requires Inv(s)
    ensures Queues(s.q, OpenCommand(s, seid, refused).0.q)
  {
    ReplyQueues(s, false, OpenStream);
    if seid in s.e.lseps && s.e.lseps[seid].state == SepState.Configured && !refused {
      assert SepSound(s.e, seid);
      CollidedReplyQueues(s, OpenStream, s.e.objects[s.e.lseps[seid].stream.value].rseid, true, OpenStream);
    }
  }

  lemma {:induction false} StartCommandQueues(s: Session, seids: seq<nat>, refused: set<nat>)
    requires Inv(s)
    ensures Queues(s.q, StartCommand(s, seids, refused).0.q)
    decreases |seids|
  {
    ReplyQueues(s, seids == [], StartStream);
    if seids != [] && seids[0] in s.e.lseps && s.e.lseps[seids[0]].stream.Some? && s.e.lseps[seids[0]].state == Open {
      var k := seids[0];
      assert SepSound(s.e, k);
      var id := s.e.lseps[k].stream.value;
      var starting := Change(s, id, s.e.objects[id].(starting := true));
      ReplyQueues(starting, false, StartStream);
      CollidedStateQueues(starting, StartStream, s.e.objects[id].rseid, k, Streaming);
      var next := SetSepState(Collide(starting, StartStream, s.e.objects[id].rseid), k, Streaming);
      StartCommandQueues(next, seids[1..], refused);
      QueuesOn(s.q, next.q, StartCommand(next, seids[1..], refused).0.q);
    }
  }

  lemma {:induction false} SuspendCommandQueues(s: Session, seids: seq<nat>, refused: set<nat>)
    requires Inv(s)
    ensures Queues(s.q, SuspendCommand(s, seids, refused).0.q)
    decreases |seids|
  {
    ReplyQueues(s, seids == [], SuspendStream);
    if seids != [] && seids[0] in s.e.lseps && s.e.lseps[seids[0]].stream.Some?
       && s.e.lseps[seids[0]].state == Streaming {
      var k := seids[0];
      assert SepSound(s.e, k);
      var rseid := s.e.objects[s.e.lseps[k].stream.value].rseid;
      CollidedStateQueues(s, SuspendStream, rseid, k, Open);
      var next := SetSepState(Collide(s, SuspendStream, rseid), k, Open);
      SuspendCommandQueues(next, seids[1..], refused);
      QueuesOn(s.q, next.q, SuspendCommand(next, seids[1..], refused).0.q);
    }
  }

  lemma CloseCommandQueues(s: Session, seid: nat, refused: bool)
    requires Inv(s)
    ensures Queues(s.q, CloseCommand(s, seid, refused).0.q)
  {
    ReplyQueues(s, false, CloseStream);
    if seid in s.e.lseps && s.e.lseps[seid].stream.Some? {
      assert SepSound(s.e, seid);
      var closing := EnterClosing(s, seid);
      CollidedStateQueues(s, CloseStream, s.e.objects[s.e.lseps[seid].stream.value].rseid, seid, Closing);
      ReplyQueues(closing, true, CloseStream);
      QueuesOn(s.q, closing.q, Reply(closing, true, CloseStream).0.q);
    }
  }

  lemma AbortCommandQueues(s: Session, seid: nat)
    requires Inv(s)
    ensures Queues(s.q, AbortCommand(s, seid).0.q)
  {
    QueuesNothing(s.q);
    if seid in s.e.lseps && s.e.lseps[seid].stream.Some? {
      assert SepSound(s.e, seid);
      var rseid := s.e.objects[s.e.lseps[seid].stream.value].rseid;
      var replied := Reply(Collide(s, AbortStream, rseid), true, AbortStream).0;
      CollidedReplyQueues(s, AbortStream, rseid, true, AbortStream);
      SetSepStateQueues(replied, seid, Aborting);
      QueuesOn(s.q, replied.q, SetSepState(replied, seid, Aborting).q);
    }
  }

  lemma CommandedQueues(s: Session, c: Command)
    requires Inv(s)
    ensures Queues(s.q, Commanded(s, c).0.q)
  {
    QueuesNothing(s.q);
    match c
    case SetConfigurationCmd(seid, rseid, malformed, delay, verdict) =>
      SetConfigurationCommandQueues(s, seid, rseid, malformed, delay, verdict);
    case OpenCmd(seid, refused) => OpenCommandQueues(s, seid, refused);
    case StartCmd(seids, refused) => StartCommandQueues(s, seids, refused);
    case SuspendCmd(seids, refused) => SuspendCommandQueues(s, seids, refused);
    case CloseCmd(seid, refused) => CloseCommandQueues(s, seid, refused);
    case AbortCmd(seid) => AbortCommandQueues(s, seid);
    case OtherCmd(signal, accepted) => ReplyQueues(s, accepted, signal);
    case TooShort =>
  }

  lemma FinishedQueues(q: Requests, s: Session)
    requires Inv(s) && Queues(q, s.q)
    ensures Queues(q, Failed(s).q) && (s.q.outstanding.Some? ==> Queues(q, Finished(s).q))
  {
    ConnectionLostQueues(s);
    QueuesOn(q, s.q, ConnectionLost(s).q);
    if s.q.outstanding.Some? {
      DropQueues(s.q);
      QueuesOn(q, s.q, Answered(s.q));
    }
  }

  lemma CommandReadQueues(s: Session, c: Command)
    requires Between(s) && s.listening
    ensures Queues(s.q, CommandRead(s, c).q)
  {
    CommandedQueues(s, c);
    FinishedQueues(s.q, Commanded(s, c).0);
  }

  // ---------------------------------------------------------------- answers of the peer

  lemma {:induction false} DiscoverAnswerQueues(s: Session, found: seq<Found>)
    requires Inv(s) && InProcess(s.q)
    ensures Queues(s.q, DiscoverAnswer(s, found).q)
    decreases |found|
  {
    QueuesNothing(s.q);
    if found != [] {
      var asked := DiscoverOne(s, found[0]).0;
      DiscoverOneQueues(s, found[0]);
      DiscoverAnswerQueues(asked, found[1..]);
      QueuesOn(s.q, asked.q, DiscoverAnswer(asked, found[1..]).q);
    }
  }

  lemma DiscoverOneQueues(s: Session, f: Found)
    requires Inv(s) && InProcess(s.q)
    ensures Queues(s.q, DiscoverOne(s, f).0.q)
  {
    QueuesNothing(s.q);
    SubmitQueues(s.q, true, None, false, if s.version13 then GetAllCapabilities else GetCapabilities, f.seid);
  }

  lemma AbortAcceptedQueues(s: Session, k: nat)
    requires Inv(s) && InProcess(s.q) && k in s.e.lseps
    ensures Queues(s.q, AbortAccepted(s, k).q)
  {
    var aborting := SetSepState(s, k, Aborting);
    SetSepStateQueues(s, k, Aborting);
    SetSepStateQueues(aborting, k, Idle);
    QueuesOn(s.q, aborting.q, SetSepState(aborting, k, Idle).q);
  }

  lemma StreamMovedQueues(s: Session, signal: Signal, id: nat)
    requires Inv(s) && InProcess(s.q) && id in s.e.streams
    requires signal == SetConfiguration || signal == SuspendStream || signal == StartStream || signal == CloseStream
    ensures Queues(s.q, StreamAccepted(s, signal, id).q)
  {
    QueuesNothing(s.q);
    assert StreamHeld(s.e, id);
    var k := s.e.objects[id].lsep;
    var to := if signal == SetConfiguration then SepState.Configured else if signal == SuspendStream then Open
      else if signal == StartStream then Streaming else Closing;
    SetSepStateQueues(s, k, to);
  }

  lemma AbortUnfold(s: Session, signal: Signal, id: nat) returns (k: nat)
    requires Inv(s) && InProcess(s.q) && id in s.e.streams && signal == AbortStream
    ensures k in s.e.lseps && StreamAccepted(s, signal, id) == AbortAccepted(s, k)
  {
    assert StreamHeld(s.e, id);
    k := s.e.objects[id].lsep;
  }

  lemma StreamAbortedQueues(s: Session, signal: Signal, id: nat)
    requires Inv(s) && InProcess(s.q) && id in s.e.streams && signal == AbortStream
    ensures Queues(s.q, StreamAccepted(s, signal, id).q)
  {
    var k := AbortUnfold(s, signal, id);
    AbortAcceptedQueues(s, k);
  }

  lemma StreamAcceptedQueues(s: Session, signal: Signal, id: nat)
    requires Inv(s) && InProcess(s.q) && id in s.e.streams
    ensures Queues(s.q, StreamAccepted(s, signal, id).q)
  {
    match signal
    case SetConfiguration | SuspendStream | StartStream | CloseStream => StreamMovedQueues(s, signal, id);
    case AbortStream => StreamAbortedQueues(s, signal, id);
    case _ => QueuesNothing(s.q);
  }

  lemma ProcessedQueues(s: Session, a: Answer)
    requires Inv(s) && InProcess(s.q)
    requires s.q.outstanding.value.stream.Some? ==> s.q.outstanding.value.stream.value in s.e.streams
    ensures Queues(s.q, Processed(s, a).0.q)
  {
    QueuesNothing(s.q);
    if a.Accept? {
      DiscoverAnswerQueues(s, a.found);
      if s.q.outstanding.value.stream.Some? {
        StreamAcceptedQueues(s, s.q.outstanding.value.signal, s.q.outstanding.value.stream.value);
      }
    }
  }

  lemma AnswerReadQueues(s: Session, transaction: nat, signal: Signal, a: Answer)
    requires Between(s) && s.listening
    ensures Queues(s.q, AnswerRead(s, transaction, signal, a).q)
  {
    QueuesNothing(s.q);
    if Matches(s, transaction, signal) {
      var stopped := StopTimer(s);
      MarkQueues(s.q, false, s.q.outstanding.value.collided);
      ProcessedQueues(stopped, a);
      QueuesOn(s.q, stopped.q, Processed(stopped, a).0.q);
      FinishedQueues(s.q, Processed(stopped, a).0);
    }
  }

  // ---------------------------------------------------------------- events and runs

  /** Each event makes queue operations and nothing else of the requests. */
  lemma StepQueues(s: Session, ev: Event)
    requires Between(s) && Enabled(s, ev)
    ensures Queues(s.q, Step(s, ev).q)
  {
    if IsCall(ev) {
      CalledQueues(s, ev);
    } else {
      QueuesNothing(s.q);
      match ev
      case TransportUp(id) => SetTransportQueues(s, id);
      case TransportDown(id) => TransportLostQueues(s, id);
      case RequestTimesOut => CancelRequestQueues(s);
      case OpenTimesOut(id) => OpenTimeoutQueues(s, id);
      case CloseTimesOut(id) =>
      case StartTimesOut(id) => StartTimeoutQueues(s, id);
      case PeerCommand(c) => CommandReadQueues(s, c);
      case PeerAnswer(transaction, signal, a) => AnswerReadQueues(s, transaction, signal, a);
      case Disconnected => ConnectionLostQueues(s);
    }
  }

  lemma {:induction false} RunQueues(s: Session, events: seq<Event>)
    requires Between(s) && CanRun(s, events)
    ensures Queues(s.q, Run(s, events).q)
    decreases |events|
  {
    if events == [] {
      QueuesNothing(s.q);
    } else {
      var next := Step(s, events[0]);
      StepQueues(s, events[0]);
      RunQueues(next, events[1..]);
      QueuesOn(s.q, next.q, Run(next, events[1..]).q);
    }
  }

  /** Over every run of a session: its requests went through queue operations, and they went out in order exactly if none
      of these sent a request that an earlier one had overtaken. */
  lemma RunInOrderExactlyWhen(s: Session, events: seq<Event>) returns (queued: seq<Order.QueueEvent>)
    requires Fresh(s) && Between(s) && CanRun(s, events)
    ensures Run(s, events).q == Order.QueueRun(s.q, queued)
    ensures Order.SentInOrder(Run(s, events).q.sent) <==> !Order.SendsOvertaken(s.q, {}, queued)
  {
    RunQueues(s, events);
    queued :| Order.QueueRun(s.q, queued) == Run(s, events).q;
    Order.RunInOrderExactlyWhen(s.q.faults, queued);
  }

  // ---------------------------------------------------------------- a request that times out

  lemma GiveUpKeepsOrder(s: Session, id: nat)
    requires Inv(s) && Order.InOrder(s.q)
    ensures Order.InOrder(GiveUp(s, id).q)
  {
    var concerned := s.q.outstanding.Some? && s.q.outstanding.value.stream == Some(id);
    var q := if concerned then HandleUnanswered(s.q) else s.q;
    Order.StepInOrderExactlyWhen(s.q, Order.GivenUp);
    Order.StepInOrderExactlyWhen(q, Order.Cleanup(id));
  }

  lemma ReleaseKeepsOrder(s: Session, k: nat)
    requires Inv(s) && k in s.e.lseps && Order.InOrder(s.q)
    ensures Order.InOrder(SetSepState(s, k, Idle).q)
  {
    if s.e.lseps[k].stream.Some? {
      var entered, id := EnterState(s, k, Idle), s.e.lseps[k].stream.value;
      assert StreamHeld(entered.e, id);
      GiveUpKeepsOrder(entered.(e := ClearPending(entered.e, id)), id);
    }
  }

  lemma {:induction false} ReleaseAllKeepsOrder(s: Session, ids: seq<nat>)
    requires Inv(s) && Distinct(ids) && (forall x <- ids :: x in s.e.streams) && Order.InOrder(s.q)
    ensures Order.InOrder(ReleaseAll(s, ids).q)
    decreases |ids|
  {
    if ids != [] {
      assert StreamHeld(s.e, ids[0]);
      ReleaseKeepsOrder(s, s.e.objects[ids[0]].lsep);
      ReleaseAllKeepsOrder(SetSepState(s, s.e.objects[ids[0]].lsep, Idle), ids[1..]);
    }
  }

  /** The stream that is aborted when the outstanding request times out. */
  function AbortedByTimeout(s: Session): (r: Option<nat>)
    requires Inv(s) && s.q.outstanding.Some?
    ensures r.Some? ==> r.value in s.e.streams
  {
    var req := s.q.outstanding.value;
    if req.signal == DiscoverSeps || req.seid == 0 || Fatal(req.signal) then None
    else FindByRseid(s.e, s.e.streams, req.seid)
  }

  /** A request that times out breaks the order exactly if its stream is aborted, a priority request waits, and the abort
      goes out, before it. */
  lemma TimeoutInOrderExactlyWhen(s: Session)
    requires Inv(s) && s.q.outstanding.Some? && Order.InOrder(s.q)
    ensures Order.InOrder(CancelRequest(s).q) <==> !(AbortedByTimeout(s).Some? && s.q.prio != [] && Sends(s.q))
  {
    var req, freed := s.q.outstanding.value, FreeOutstanding(s);
    Order.StepInOrderExactlyWhen(s.q, Order.Cancelled);
    var stream :=
      if req.signal == DiscoverSeps || req.seid == 0 then None else FindByRseid(s.e, s.e.streams, req.seid);
    if stream.None? {
      ReleaseAllKeepsOrder(freed, freed.e.streams);
    } else {
      assert StreamHeld(s.e, stream.value);
      var marked := Change(freed, stream.value, Cancelled(s.e.objects[stream.value], req.signal));
      if Fatal(req.signal) {
        ReleaseAllKeepsOrder(marked, marked.e.streams);
      } else {
        AbortInOrderExactlyWhen(marked, stream.value);
      }
    }
  }

  lemma AbortInOrderExactlyWhen(s: Session, id: nat)
    requires Inv(s) && s.q.outstanding.None? && Order.InOrder(s.q) && id in s.e.streams && id in s.e.objects
    ensures var (asked, ok) := SendFor(s, true, id, AbortStream);
      && (ok <==> Sends(s.q))
      && (Order.InOrder(if ok then asked.q else ConnectionLost(asked).q) <==> s.q.prio == [] || !Sends(s.q))
  {
    var x, asked := s.e.objects[id], SendFor(s, true, id, AbortStream);
    Order.SubmitInOrderExactlyWhen(s.q, Order.Submit(true, Some(id), x.abortInt, AbortStream, x.rseid));
    if !asked.1 {
      ReleaseAllKeepsOrder(asked.0, asked.0.e.streams);
    }
  }
}
