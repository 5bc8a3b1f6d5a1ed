/** Runs of an AVDTP session: whatever happens in whatever order, no stream that was freed is referred to, with one
    exception that is stated exactly. */
module AvdtpRuns {
  import opened AvdtpHandlers
  import opened AvdtpRequests
  import opened AvdtpStates
  import opened Options

  datatype Command =
    | SetConfigurationCmd(seid: nat, rseid: nat, malformed: bool, delay: bool, verdict: Verdict)
    | OpenCmd(seid: nat, refused: bool)
    | StartCmd(seids: seq<nat>, refusedSeids: set<nat>)
    | SuspendCmd(seids: seq<nat>, refusedSeids: set<nat>)
    | CloseCmd(seid: nat, refused: bool)
    | AbortCmd(seid: nat)
    | OtherCmd(signal: Signal, accepted: bool)
    | TooShort

  datatype Event =
    | CallSetConfiguration(lsep: nat, rsep: nat)
    | CallGetConfiguration(id: nat)
    | CallOpen(id: nat)
    | CallStart(id: nat)
    | CallClose(id: nat, immediate: bool)
    | CallSuspend(id: nat)
    | CallAbort(id: nat)
    | CallReportDelay(id: nat)
    | CallDiscover(busy: bool)
    | TransportUp(id: nat)
    | TransportDown(id: nat)
    | RequestTimesOut
    | OpenTimesOut(id: nat)
    | CloseTimesOut(id: nat)
    | StartTimesOut(id: nat)
    | PeerCommand(command: Command)
    | PeerAnswer(transaction: nat, signal: Signal, answer: Answer)
    | Disconnected

  /** What can happen next. Callers name a free local end point for a configuration, and streams of the session where
      the callee does not look them up. The timers of a stream may go off as long as it is there; `AvdtpTimers` says when
      they are. */
  predicate Enabled(s: Session, ev: Event) {
    match ev
    case CallSetConfiguration(lsep, rsep) => lsep in s.e.lseps ==> s.e.lseps[lsep].stream.None?
    case CallGetConfiguration(id) => id in s.e.streams
    case TransportUp(id) => id in s.e.streams
    case TransportDown(id) => id in s.e.streams && id in s.e.objects && s.e.objects[id].connected
    case RequestTimesOut => s.q.outstanding.Some? && s.q.outstanding.value.timed
    case OpenTimesOut(id) => id in s.e.streams
    case CloseTimesOut(id) => id in s.e.streams
    case StartTimesOut(id) => id in s.e.streams && id in s.e.objects && s.e.objects[id].startTimer
    case PeerCommand(_) => s.listening
    case PeerAnswer(_, _, _) => s.listening
    case Disconnected => s.listening
    case _ => true
  }

  /** Between events an answer is in process only if the connection broke over it. */
  ghost predicate Between(s: Session) {
    Inv(s) && (InProcess(s.q) ==> !s.listening)
  }

  /** Every reference to a stream but that of the outstanding request is to one in the session's list, and every end
      point that is not idle has a stream. */
  ghost predicate OthersLive(s: Session) {
    && (forall r <- s.q.prio :: r.stream.Some? ==> r.stream.value in s.e.streams)
    && (forall r <- s.q.normal :: r.stream.Some? ==> r.stream.value in s.e.streams)
    && (s.e.pendingOpen.Some? ==> s.e.pendingOpen.value in s.e.streams)
    && (forall k <- s.e.lseps :: s.e.lseps[k].stream.Some? ==> s.e.lseps[k].stream.value in s.e.streams)
    && (forall k <- s.e.seps :: s.e.seps[k].stream.Some? ==> s.e.seps[k].stream.value in s.e.streams)
    && (forall k <- s.e.lseps :: s.e.lseps[k].state != Idle ==> s.e.lseps[k].stream.Some?)
  }

  ghost predicate AllLive(s: Session) {
    && OthersLive(s)
    && (s.q.outstanding.Some? && s.q.outstanding.value.stream.Some? ==>
          s.q.outstanding.value.stream.value in s.e.streams)
  }

  // ---------------------------------------------------------------- one event

  function Failed(s: Session): (r: Session)
    requires Inv(s)
    ensures Inv(r) && KeepsProcess(s.q, r.q) && !r.listening && r.e.streams == [] && Grows(s.e, r.e)
  {
    ConnectionLost(s).(listening := false)
  }

  /** An outstanding request that is over. */
  function Finished(s: Session): (r: Session)
    requires Inv(s) && s.q.outstanding.Some?
    ensures Inv(r) && !InProcess(r.q) && r.listening == s.listening
  {
    var freed := FreeOutstanding(s);
    ProcessQueueRefersTo(freed.q, s.e.streams);
    AnsweredConserves(s.q);
    s.(q := Answered(s.q))
  }

  function Commanded(s: Session, c: Command): (r: (Session, bool))
    requires Inv(s)
    ensures Inv(r.0) && r.0.listening == s.listening && (!InProcess(s.q) ==> !InProcess(r.0.q)) && Grows(s.e, r.0.e)
  {
    match c
    case SetConfigurationCmd(seid, rseid, malformed, delay, verdict) =>
      SetConfigurationCommand(s, seid, rseid, malformed, delay, verdict)
    case OpenCmd(seid, refused) => OpenCommand(s, seid, refused)
    case StartCmd(seids, refused) => StartCommand(s, seids, refused)
    case SuspendCmd(seids, refused) => SuspendCommand(s, seids, refused)
    case CloseCmd(seid, refused) => CloseCommand(s, seid, refused)
    case AbortCmd(seid) => AbortCommand(s, seid)
    case OtherCmd(signal, accepted) => Reply(s, accepted, signal)
    case TooShort => (s, false)
  }

  function CommandRead(s: Session, c: Command): (r: Session)
    requires Between(s) && s.listening
    ensures Between(r) && !InProcess(r.q) && Grows(s.e, r.e)
  {
    var (handled, ok) := Commanded(s, c);
    if !ok then Failed(handled)
    else if handled.q.outstanding.Some? && handled.q.outstanding.value.collided then Finished(handled)
    else handled
  }

  predicate Matches(s: Session, transaction: nat, signal: Signal) {
    && s.q.outstanding.Some?
    && s.q.outstanding.value.transaction == transaction && s.q.outstanding.value.signal == signal
  }

  /** The answers that break the connection. */
  predicate FatalAnswer(signal: Signal, a: Answer) {
    match a
    case Accept(short, _, _) => short && (signal == GetCapabilities || signal == GetAllCapabilities)
    case Reject(short) => signal != SecurityControl && (short || signal == AbortStream)
    case GeneralReject => false
  }

  function StopTimer(s: Session): (r: Session)
    requires Inv(s) && s.q.outstanding.Some?
    ensures Inv(r) && InProcess(r.q) && r == s.(q := r.q)
    ensures r.q.outstanding == Some(s.q.outstanding.value.(timed := false))
  {
    var q := s.q.(outstanding := Some(s.q.outstanding.value.(timed := false)));
    assert Conserved(q) by {
      forall id: nat ensures Places(q, id) == if id < q.accepted then 1 else 0 {
        assert Places(q, id) == Places(s.q, id);
      }
    }
    s.(q := q)
  }

  function Processed(s: Session, a: Answer): (r: (Session, bool))
    requires Inv(s) && InProcess(s.q)
    requires s.q.outstanding.value.stream.Some? ==> s.q.outstanding.value.stream.value in s.e.streams
    ensures Inv(r.0) && r.0.q.outstanding == s.q.outstanding && r.0.listening == s.listening && Grows(s.e, r.0.e)
    ensures !r.1 <==> FatalAnswer(s.q.outstanding.value.signal, a)
  {
    match a
    case Accept(_, _, _) => Accepted(s, a)
    case Reject(short) => Rejected(s, short)
    case GeneralReject => (s, true)
  }

  function AnswerRead(s: Session, transaction: nat, signal: Signal, a: Answer): (r: Session)
    requires Between(s) && s.listening
    ensures Between(r) && Grows(s.e, r.e)
    ensures InProcess(r.q) <==> Matches(s, transaction, signal) && FatalAnswer(signal, a)
    ensures InProcess(r.q) ==>
      r.e.streams == [] && r.q.outstanding == Some(s.q.outstanding.value.(timed := false))
  {
    if !Matches(s, transaction, signal) then s
    else
      var (handled, ok) := Processed(StopTimer(s), a);
      if ok then Finished(handled) else Failed(handled)
  }

  /** The event is an answer that breaks the connection while its request is in process. */
  predicate BreaksOff(s: Session, ev: Event) {
    ev.PeerAnswer? && Matches(s, ev.transaction, ev.signal) && FatalAnswer(ev.signal, ev.answer)
  }

  predicate IsCall(ev: Event) {
    match ev
    case CallSetConfiguration(_, _) => true
    case CallGetConfiguration(_) => true
    case CallOpen(_) => true
    case CallStart(_) => true
    case CallClose(_, _) => true
    case CallSuspend(_) => true
    case CallAbort(_) => true
    case CallReportDelay(_) => true
    case CallDiscover(_) => true
    case _ => false
  }

  /** A call of the upper layer. */
  function Called(s: Session, ev: Event): (r: Session)
    requires Inv(s) && Enabled(s, ev) && IsCall(ev)
    ensures Inv(r) && r.listening == s.listening && KeepsProcess(s.q, r.q) && Grows(s.e, r.e)
  {
    match ev
    case CallSetConfiguration(lsep, rsep) => SetConfigurationCall(s, lsep, rsep)
    case CallGetConfiguration(id) => GetConfigurationCall(s, id)
    case CallOpen(id) => OpenCall(s, id)
    case CallStart(id) => Start(s, id)
    case CallClose(id, immediate) => Close(s, id, immediate)
    case CallSuspend(id) => Suspend(s, id)
    case CallAbort(id) => Abort(s, id)
    case CallReportDelay(id) => ReportDelay(s, id).0
    case CallDiscover(busy) => DiscoverCall(s, busy)
  }

  /** One event. It leaves an answer in process exactly when it is an answer that breaks the connection. */
  function Step(s: Session, ev: Event): (r: Session)
    requires Between(s) && Enabled(s, ev)
    ensures Between(r) && Grows(s.e, r.e)
    ensures !InProcess(s.q) ==> (InProcess(r.q) <==> BreaksOff(s, ev))
    ensures InProcess(s.q) ==> r.q.outstanding == s.q.outstanding
  {
    if IsCall(ev) then Called(s, ev)
    else
      match ev
      case TransportUp(id) => SetTransport(s, id)
      case TransportDown(id) => TransportLost(s, id)
      case RequestTimesOut => CancelRequest(s)
      case OpenTimesOut(id) => OpenTimeout(s, id)
      case CloseTimesOut(id) => CloseTimeout(s, id)
      case StartTimesOut(id) => StartTimeout(s, id)
      case PeerCommand(c) => CommandRead(s, c)
      case PeerAnswer(transaction, signal, a) => AnswerRead(s, transaction, signal, a)
      case Disconnected => Failed(s)
  }

  // ---------------------------------------------------------------- runs

  predicate CanRun(s: Session, events: seq<Event>)
    requires Between(s)
    decreases |events|
  {
    events == [] || (Enabled(s, events[0]) && CanRun(Step(s, events[0]), events[1..]))
  }

  function Run(s: Session, events: seq<Event>): (r: Session)
    requires Between(s) && CanRun(s, events)
    ensures Between(r)
    decreases |events|
  {
    if events == [] then s else Run(Step(s, events[0]), events[1..])
  }

  /** Some answer of the run breaks the connection over a request that names a stream. */
  predicate StrandsReference(s: Session, events: seq<Event>)
    requires Between(s) && CanRun(s, events)
    decreases |events|
  {
    events != [] &&
    ((BreaksOff(s, events[0]) && s.q.outstanding.value.stream.Some?) || StrandsReference(Step(s, events[0]), events[1..]))
  }

  /** A session without streams and requests, whose end points are free. */
  predicate Fresh(s: Session) {
    && s.q == NO_REQUESTS.(faults := s.q.faults)
    && s.e.streams == [] && s.e.objects == map[] && s.e.pendingOpen == None
    && (forall k <- s.e.lseps :: s.e.lseps[k].state == Idle && s.e.lseps[k].stream == None && !s.e.lseps[k].inuse)
    && (forall k <- s.e.seps :: s.e.seps[k].stream == None)
  }

  lemma FreshIsBetween(s: Session)
    requires Fresh(s)
    ensures Between(s) && !InProcess(s.q)
  {
    forall id: nat ensures Places(s.q, id) == if id < s.q.accepted then 1 else 0 {
    }
  }

  lemma InvMeansOthersLive(s: Session)
    requires Inv(s)
    ensures OthersLive(s)
  {
    forall k | k in s.e.lseps
      ensures s.e.lseps[k].stream.Some? ==> s.e.lseps[k].stream.value in s.e.streams
      ensures s.e.lseps[k].state != Idle ==> s.e.lseps[k].stream.Some?
    {
      assert SepSound(s.e, k);
    }
    forall k | k in s.e.seps && s.e.seps[k].stream.Some? ensures s.e.seps[k].stream.value in s.e.streams {
      assert RemoteSound(s.e, k);
    }
  }

  ghost predicate Unreferenced(s: Session, id: nat) {
    && id !in s.e.streams && id !in s.e.objects && s.e.pendingOpen != Some(id)
    && (forall r <- s.q.prio :: r.stream != Some(id))
    && (forall r <- s.q.normal :: r.stream != Some(id))
    && (s.q.outstanding.Some? ==> s.q.outstanding.value.stream != Some(id))
    && (forall k <- s.e.lseps :: s.e.lseps[k].stream != Some(id))
    && (forall k <- s.e.seps :: s.e.seps[k].stream != Some(id))
  }

  /** The idle state frees the stream, and then nothing refers to it, if no answer is in process. */
  lemma IdleForgets(s: Session, k: nat)
    requires Inv(s) && !InProcess(s.q) && k in s.e.lseps && s.e.lseps[k].stream.Some?
    ensures Unreferenced(SetSepState(s, k, Idle), s.e.lseps[k].stream.value)
  {
    var r, id := SetSepState(s, k, Idle), s.e.lseps[k].stream.value;
    InvMeansOthersLive(r);
    assert id !in r.e.streams;
  }

  /** Over every run, of all references only that of the outstanding request may be to a freed stream; a SEP that is not
      idle has a stream; and each request accepted is in one place. */
  lemma RunsKeepOthersLive(s: Session, events: seq<Event>)
    requires Fresh(s) && Between(s) && CanRun(s, events)
    ensures OthersLive(Run(s, events)) && Conserved(Run(s, events).q)
  {
    InvMeansOthersLive(Run(s, events));
  }

  /** The exception: when the answer to a request breaks the connection, all streams are freed and the request stays,
      with its stream. Then, and only then, something refers to a freed stream. */
  lemma BrokenOffRefersToFreed(s: Session, ev: Event)
    requires Between(s) && Enabled(s, ev) && BreaksOff(s, ev)
    ensures var r := Step(s, ev);
      && r.e.streams == [] && RefersTo(r.q, [])
      && (AllLive(r) <==> s.q.outstanding.value.stream.None?)
  {
    var r := Step(s, ev);
    assert Core(r.e);
    forall k | k in r.e.lseps ensures r.e.lseps[k].stream.None? && r.e.lseps[k].state == Idle {
      assert SepSound(r.e, k);
    }
    forall k | k in r.e.seps ensures r.e.seps[k].stream.None? {
      assert RemoteSound(r.e, k);
    }
  }

  /** The outstanding request is in process for good, and names a stream that is gone. */
  ghost predicate Stranded(s: Session) {
    && InProcess(s.q) && s.q.outstanding.value.stream.Some?
    && s.q.outstanding.value.stream.value < s.e.created && s.q.outstanding.value.stream.value !in s.e.streams
  }

  /** A stranded reference stays stranded, whatever happens: no stream gets its identity again. */
  lemma {:induction false} StaysStranded(s: Session, events: seq<Event>)
    requires Between(s) && Stranded(s) && CanRun(s, events)
    ensures Stranded(Run(s, events))
    decreases |events|
  {
    if events != [] {
      StaysStranded(Step(s, events[0]), events[1..]);
    }
  }

  /** With no request in process, only an answer that breaks the connection over a request with a stream strands it. */
  lemma StrandsAtOnce(s: Session, ev: Event)
    requires Between(s) && Enabled(s, ev) && !InProcess(s.q) && BreaksOff(s, ev)
    requires s.q.outstanding.value.stream.Some?
    ensures Stranded(Step(s, ev))
  {
    assert StreamHeld(s.e, s.q.outstanding.value.stream.value);
  }

  /** A request without a stream that is in process for good does no harm: nothing can strand a reference any more. */
  lemma {:induction false} NeverStrands(s: Session, events: seq<Event>)
    requires Between(s) && InProcess(s.q) && s.q.outstanding.value.stream.None? && CanRun(s, events)
    ensures AllLive(Run(s, events)) && !StrandsReference(s, events)
    decreases |events|
  {
    if events == [] {
      InvMeansOthersLive(s);
    } else {
      NeverStrands(Step(s, events[0]), events[1..]);
    }
  }

  lemma {:induction false} LiveExactlyWhen(s: Session, events: seq<Event>)
    requires Between(s) && !InProcess(s.q) && CanRun(s, events)
    ensures AllLive(Run(s, events)) <==> !StrandsReference(s, events)
    decreases |events|
  {
    if events == [] {
      InvMeansOthersLive(s);
    } else {
      var next, rest := Step(s, events[0]), events[1..];
      if !BreaksOff(s, events[0]) {
        LiveExactlyWhen(next, rest);
      } else if s.q.outstanding.value.stream.Some? {
        StrandsAtOnce(s, events[0]);
        StaysStranded(next, rest);
      } else {
        NeverStrands(next, rest);
      }
    }
  }

  /** Over every run: all stream references are to streams in the list exactly if no answer breaks the connection over a
      request that names a stream. */
  lemma RunsLiveExactlyWhen(s: Session, events: seq<Event>)
    requires Fresh(s) && Between(s) && CanRun(s, events)
    ensures AllLive(Run(s, events)) <==> !StrandsReference(s, events)
  {
    FreshIsBetween(s);
    LiveExactlyWhen(s, events);
  }

  /** Two events reach it: a configuration is asked for, and the peer's rejection is too short. */
  lemma DanglingIsReachable(s: Session, lsep: nat, rsep: nat, events: seq<Event>)
    requires Fresh(s) && Between(s) && s.q.faults == [] && s.listening && lsep in s.e.lseps && rsep in s.e.seps
    requires events == [CallSetConfiguration(lsep, rsep), PeerAnswer(0, SetConfiguration, Reject(true))]
    ensures CanRun(s, events) && !AllLive(Run(s, events))
  {
    var asked := SetConfigurationCall(s, lsep, rsep);
    assert asked.q.outstanding == Some(Request(0, SetConfiguration, rsep, Some(s.e.created), 0, true, false));
    RunOfTwo(s, events);
    BrokenOffRefersToFreed(asked, events[1]);
  }

  lemma RunOfTwo(s: Session, events: seq<Event>)
    requires Between(s) && |events| == 2 && Enabled(s, events[0]) && Enabled(Step(s, events[0]), events[1])
    ensures CanRun(s, events) && Run(s, events) == Step(Step(s, events[0]), events[1])
  {
    assert events[1..][0] == events[1] && events[1..][1..] == [];
    var broken := Step(Step(s, events[0]), events[1]);
    assert CanRun(broken, []) && Run(broken, []) == broken;
  }
}
