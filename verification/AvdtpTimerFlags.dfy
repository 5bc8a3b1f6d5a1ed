/** A record says that its stream has a timer exactly if a command armed one: `AvdtpTimers` follows the timers by the
    commands that arm them. */
module AvdtpTimerFlags {
  import opened AvdtpAnswers
  import opened AvdtpCalls
  import opened AvdtpCommands
  import opened AvdtpHandlers
  import opened AvdtpLosses
  import opened AvdtpRequests
  import opened AvdtpRuns
  import opened AvdtpStates
  import opened AvdtpStreamCommands
  import opened AvdtpTimers
  import opened Options

  /** No stream of the list has a timer it did not have before. */
  ghost predicate NoNewTimer(e: Ends, r: Ends) {
    NoNewTimerBut(e, r, None)
  }

  ghost predicate NoNewTimerBut(e: Ends, r: Ends, id: Option<nat>) {
    forall x <- r.streams ::
      Some(x) != id && x in r.objects && r.objects[x].timer ==> x in e.objects && e.objects[x].timer
  }

  lemma CommandsArm(s: Session, c: Command)
    requires Between(s) && s.listening && Arms(s, PeerCommand(c)).Some?
    ensures var t, r := Arms(s, PeerCommand(c)).value, Step(s, PeerCommand(c));
      && t.id in r.e.objects && r.e.objects[t.id].timer && t.opening == c.OpenCmd?
      && NoNewTimerBut(s.e, r.e, Some(t.id))
  {
    match c
    case OpenCmd(seid, refused) => OpenStep(s, seid, refused);
    case CloseCmd(seid, refused) => CloseStep(s, seid, refused);
  }

  lemma CommandsArmNoOther(s: Session, c: Command)
    requires Between(s) && s.listening && Arms(s, PeerCommand(c)).None?
    ensures NoNewTimer(s.e, Step(s, PeerCommand(c)).e)
  {
    match c
    case SetConfigurationCmd(seid, rseid, malformed, delay, verdict) =>
      ConfigureStep(s, seid, rseid, malformed, delay, verdict);
    case OpenCmd(seid, refused) =>
      OpenStep(s, seid, refused);
      if seid in s.e.lseps { assert SepSound(s.e, seid); }
    case StartCmd(seids, refused) => StartArmsNone(s, seids, refused);
    case SuspendCmd(seids, refused) => SuspendArmsNone(s, seids, refused);
    case CloseCmd(seid, refused) => CloseStep(s, seid, refused);
    case AbortCmd(seid) => AbortStep(s, seid);
    case OtherCmd(signal, accepted) => OtherStep(s, signal, accepted);
    case TooShort => TooShortStep(s);
  }

  lemma StartedArmsNone(s: Session, ks: seq<nat>, t: Session)
    requires Starts(s, ks, t)
    ensures NoNewTimer(s.e, t.e)
  {
  }

  lemma RefusedArmsNone(e: Ends, s: Session, k: nat, r: Session)
    requires NoNewTimer(e, s.e) && RefusedAt(s, k, r)
    ensures NoNewTimer(e, r.e)
  {
  }

  lemma StartArmsNone(s: Session, seids: seq<nat>, refused: set<nat>)
    requires Between(s) && s.listening
    ensures NoNewTimer(s.e, Step(s, PeerCommand(StartCmd(seids, refused))).e)
  {
    var c, n := StartCmd(seids, refused), FirstRefused(s.e, Open, refused, seids);
    assert Commanded(s, c) == StartCommand(s, seids, refused);
    var t, u := StartMoves(s, seids, refused, n);
    StartedArmsNone(s, seids[..n], t);
    if n < |seids| {
      RefusedArmsNone(s.e, t, seids[n], u);
    }
    CommandEnds(s, c, u, CrossedBy(s, StartStream, seids[..n]), n == |seids|, StartStream);
  }

  lemma SuspendedArmsNone(s: Session, ks: seq<nat>, t: Session)
    requires Suspends(s, ks, t)
    ensures NoNewTimer(s.e, t.e)
  {
  }

  lemma SuspendArmsNone(s: Session, seids: seq<nat>, refused: set<nat>)
    requires Between(s) && s.listening
    ensures NoNewTimer(s.e, Step(s, PeerCommand(SuspendCmd(seids, refused))).e)
  {
    var c, n := SuspendCmd(seids, refused), FirstRefused(s.e, Streaming, refused, seids);
    assert Commanded(s, c) == SuspendCommand(s, seids, refused);
    var t := SuspendMoves(s, seids, refused, n);
    SuspendedArmsNone(s, seids[..n], t);
    CommandEnds(s, c, t, CrossedBy(s, SuspendStream, seids[..n]), n == |seids|, SuspendStream);
  }

  lemma StartCallArmsNone(s: Session, id: nat)
    requires Between(s)
    ensures NoNewTimer(s.e, Step(s, CallStart(id)).e)
  {
    StartAsks(s, id);
  }

  lemma CloseCallArmsNone(s: Session, id: nat, immediate: bool)
    requires Between(s)
    ensures NoNewTimer(s.e, Step(s, CallClose(id, immediate)).e)
  {
    CloseAsks(s, id, immediate);
    AbortArmsNone(s, id);
  }

  lemma CallsArmNone(s: Session, ev: Event)
    requires Between(s) && Enabled(s, ev) && IsCall(ev)
    ensures NoNewTimer(s.e, Step(s, ev).e)
  {
    match ev
    case CallSetConfiguration(lsep, rsep) => SetConfigurationAsks(s, lsep, rsep);
    case CallGetConfiguration(id) => GetConfigurationAsks(s, id);
    case CallOpen(id) => OpenAsks(s, id);
    case CallStart(id) => StartCallArmsNone(s, id);
    case CallClose(id, immediate) => CloseCallArmsNone(s, id, immediate);
    case CallSuspend(id) => SuspendAsks(s, id);
    case CallAbort(id) => AbortArmsNone(s, id);
    case CallReportDelay(id) => DelayAsks(s, id);
    case CallDiscover(busy) => DiscoverAsks(s, busy);
  }

  lemma CancelArmsNone(s: Session)
    requires Inv(s) && s.q.outstanding.Some?
    ensures NoNewTimer(s.e, CancelRequest(s).e)
  {
    var req := s.q.outstanding.value;
    var j := FoundIsFirst(s.e, s.e.streams, req.seid);
    var found := FindByRseid(s.e, s.e.streams, req.seid);
    if req.signal == DiscoverSeps || req.seid == 0 || found.None? {
      CancelLoses(s);
    } else {
      CancelStep(s, found.value);
    }
  }

  lemma AbortArmsNone(s: Session, id: nat)
    requires Between(s)
    ensures NoNewTimer(s.e, Step(s, CallAbort(id)).e)
  {
    AbortAsks(s, id);
    if s.q.outstanding.Some? && s.q.outstanding.value.timed {
      TimeoutCancels(s, RequestTimesOut);
      CancelArmsNone(s);
    }
  }

  lemma OpenTimeoutArmsNone(s: Session, id: nat)
    requires Between(s) && id in s.e.streams
    ensures NoNewTimer(s.e, Step(s, OpenTimesOut(id)).e)
  {
    var t := OpenTimeoutStep(s, id);
    AbortArmsNone(t, id);
  }

  lemma StartTimeoutArmsNone(s: Session, id: nat)
    requires Between(s) && Enabled(s, StartTimesOut(id))
    ensures NoNewTimer(s.e, Step(s, StartTimesOut(id)).e)
  {
    var t := StartTimeoutStep(s, id);
    StartCallArmsNone(t, id);
  }

  lemma RecordArmsNone(e: Ends, id: nat, x: Stream, r: Ends)
    requires id in e.objects && r.objects == e.objects[id := x] && (x.timer ==> e.objects[id].timer)
    ensures NoNewTimer(e, r)
  {
  }

  lemma TransportUpArmsNone(s: Session, id: nat)
    requires Between(s) && id in s.e.streams
    ensures NoNewTimer(s.e, Step(s, TransportUp(id)).e)
  {
    TransportUpStep(s, id);
    if s.e.pendingOpen == Some(id) {
      var x := s.e.objects[id].(timer := false, starting := false, connected := true);
      RecordArmsNone(s.e, id, x, Step(s, TransportUp(id)).e);
    }
  }

  lemma TransportDownArmsNone(s: Session, id: nat)
    requires Between(s) && Enabled(s, TransportDown(id))
    ensures NoNewTimer(s.e, Step(s, TransportDown(id)).e)
  {
    TransportDownStep(s, id);
  }

  lemma AcceptanceArmsNone(s: Session, transaction: nat, signal: Signal, a: Answer)
    requires Between(s) && s.listening && Matches(s, transaction, signal) && a.Accept?
    requires s.q.outstanding.value.stream.Some? && signal != DiscoverSeps && signal != GetCapabilities
    requires signal != GetAllCapabilities
    ensures NoNewTimer(s.e, Step(s, PeerAnswer(transaction, signal, a)).e)
  {
    var t, u, id := AcceptStep(s, transaction, signal, a);
  }

  lemma RejectionArmsNone(s: Session, transaction: nat, signal: Signal, a: Answer)
    requires Between(s) && s.listening && Matches(s, transaction, signal) && !a.Accept? && !FatalAnswer(signal, a)
    ensures NoNewTimer(s.e, Step(s, PeerAnswer(transaction, signal, a)).e)
  {
    var u := RejectStep(s, transaction, signal, a);
  }

  lemma AnswersArmNone(s: Session, transaction: nat, signal: Signal, a: Answer)
    requires Between(s) && s.listening
    ensures NoNewTimer(s.e, Step(s, PeerAnswer(transaction, signal, a)).e)
  {
    if !Matches(s, transaction, signal) {
      StrayAnswer(s, transaction, signal, a);
    } else if FatalAnswer(signal, a) {
      AnswerBreaks(s, transaction, signal, a);
    } else if !a.Accept? {
      RejectionArmsNone(s, transaction, signal, a);
    } else if signal == DiscoverSeps {
      var t := DiscoverStep(s, transaction, a);
      DiscoveryArmsNone(t, a.found);
    } else if signal == GetCapabilities || signal == GetAllCapabilities {
      var u := CapabilitiesStep(s, transaction, signal, a);
    } else if s.q.outstanding.value.stream.None? {
      var t := ForgottenStep(s, transaction, signal, a);
    } else {
      AcceptanceArmsNone(s, transaction, signal, a);
    }
  }

  lemma {:induction false} DiscoveryArmsNone(s: Session, found: seq<Found>)
    requires Inv(s) && InProcess(s.q)
    ensures DiscoverAnswer(s, found).e.streams == s.e.streams && DiscoverAnswer(s, found).e.objects == s.e.objects
    decreases |found|
  {
    if found != [] {
      DiscoveryArmsNone(DiscoverOne(s, found[0]).0, found[1..]);
    }
  }

  /** Whatever happens, a command that arms a timer sets it for that stream, and no other stream of the list has a timer
      afterwards that it did not have before; without such a command none has. */
  lemma ArmsExactlyWhen(s: Session, ev: Event)
    requires Between(s) && Enabled(s, ev)
    ensures var r := Step(s, ev);
      if Arms(s, ev).None? then NoNewTimer(s.e, r.e)
      else
        var t := Arms(s, ev).value;
        t.id in r.e.objects && r.e.objects[t.id].timer && NoNewTimerBut(s.e, r.e, Some(t.id))
  {
    if IsCall(ev) {
      CallsArmNone(s, ev);
    } else {
      match ev
      case PeerCommand(c) =>
        if Arms(s, ev).Some? {
          CommandsArm(s, c);
        } else {
          CommandsArmNoOther(s, c);
        }
      case PeerAnswer(transaction, signal, a) => AnswersArmNone(s, transaction, signal, a);
      case RequestTimesOut =>
        TimeoutCancels(s, ev);
        CancelArmsNone(s);
      case Disconnected => DisconnectedStep(s, ev);
      case OpenTimesOut(id) => OpenTimeoutArmsNone(s, id);
      case CloseTimesOut(id) => CloseTimeoutStep(s, id);
      case StartTimesOut(id) => StartTimeoutArmsNone(s, id);
      case TransportUp(id) => TransportUpArmsNone(s, id);
      case TransportDown(id) => TransportDownArmsNone(s, id);
    }
  }
}
