/** The life of a stream that this side sets up, beside any other streams: configured, opened, started and suspended any
    number of times, and closed, it leaves the session as it was. */
module AvdtpLifeCycle {
  import opened AvdtpHandlers
  import opened AvdtpRequests
  import opened AvdtpRuns
  import opened AvdtpStates
  import opened Options
  import opened Sequences

  const ACCEPTED := Accept(false, [], false)

  // ---------------------------------------------------------------- the events

  function Next(tag: nat): nat {
    (tag + 1) % 16
  }

  function Later(tag: nat, n: nat): nat
    decreases n
  {
    if n == 0 then tag else Later(Next(tag), n - 1)
  }

  /** A sink reports its delay as soon as the stream is configured, if the peer knows of delay reports. */
  predicate ReportsDelay(s: Session, l: nat, r: nat)
    requires l in s.e.lseps && r in s.e.seps
  {
    s.e.lseps[l].sink && s.e.seps[r].delayReporting && s.e.lseps[l].delayReporting && s.version13
  }

  function Configuring(l: nat, r: nat, s: Session): seq<Event>
    requires l in s.e.lseps && r in s.e.seps
  {
    var tag := s.q.transaction;
    [CallSetConfiguration(l, r)] + [PeerAnswer(tag, SetConfiguration, ACCEPTED)]
    + if ReportsDelay(s, l, r) then [PeerAnswer(Next(tag), DelayReport, ACCEPTED)] else []
  }

  function AfterConfiguring(l: nat, r: nat, s: Session): nat
    requires l in s.e.lseps && r in s.e.seps
  {
    if ReportsDelay(s, l, r) then Next(Next(s.q.transaction)) else Next(s.q.transaction)
  }

  function Opening(id: nat, tag: nat): seq<Event> {
    [CallOpen(id)] + [PeerAnswer(tag, OpenStream, ACCEPTED)] + [TransportUp(id)]
  }

  function Starting(id: nat, tag: nat): seq<Event> {
    [CallStart(id)] + [PeerAnswer(tag, StartStream, ACCEPTED)]
  }

  function Suspending(id: nat, tag: nat): seq<Event> {
    [CallSuspend(id)] + [PeerAnswer(tag, SuspendStream, ACCEPTED)]
  }

  function Round(id: nat, tag: nat): seq<Event> {
    Starting(id, tag) + Suspending(id, Next(tag))
  }

  /** Started and suspended `n` times. */
  function Rounds(id: nat, tag: nat, n: nat): seq<Event>
    decreases n
  {
    if n == 0 then []
    else Round(id, tag) + Rounds(id, Next(Next(tag)), n - 1)
  }

  function Ending(id: nat, tag: nat): seq<Event> {
    [CallClose(id, false)] + [PeerAnswer(tag, CloseStream, ACCEPTED)] + [TransportDown(id)]
  }

  // ---------------------------------------------------------------- runs

  ghost predicate Leads(s: Session, ev: Event, t: Session) {
    Between(s) && Enabled(s, ev) && Step(s, ev) == t
  }

  /** A path is a run. */
  lemma {:induction false} PathIsRun(path: seq<Session>, events: seq<Event>)
    requires Path(Leads, path, events) && Between(path[0])
    ensures CanRun(path[0], events) && Run(path[0], events) == path[|events|]
    decreases |events|
  {
    if events != [] {
      PathRest(Leads, path, events);
      PathIsRun(path[1..], events[1..]);
    }
  }

  /** The events lead from one session to another, one after the other. */
  ghost predicate Goes(s: Session, events: seq<Event>, t: Session) {
    Reaches(Leads, s, events, t)
  }

  lemma GoesByStep(s: Session, ev: Event, t: Session)
    requires Leads(s, ev, t)
    ensures Goes(s, [ev], t)
  {
    ReachesNext(Leads, s, ev, t);
  }

  lemma GoesOn(s: Session, before: seq<Event>, t: Session, after: seq<Event>, u: Session)
    requires Goes(s, before, t) && Goes(t, after, u)
    ensures Goes(s, before + after, u)
  {
    ReachesOn(Leads, s, before, t, after, u);
  }

  lemma GoesIsRun(s: Session, events: seq<Event>, t: Session)
    requires Goes(s, events, t) && Between(s)
    ensures CanRun(s, events) && Run(s, events) == t
  {
    var path :| Path(Leads, path, events) && path[0] == s && path[|events|] == t;
    PathIsRun(path, events);
  }

  // ---------------------------------------------------------------- requests

  predicate NothingAsked(q: Requests) {
    q.outstanding.None? && q.prio == [] && q.normal == [] && q.faults == []
  }

  /** A request for the stream waits for its answer, and no other request. */
  predicate Waits(q: Requests, id: nat, signal: Signal, tag: nat) {
    && q.outstanding.Some? && q.outstanding.value.stream == Some(id) && q.outstanding.value.signal == signal
    && q.outstanding.value.transaction == tag && q.outstanding.value.timed && q.transaction == Next(tag)
    && q.prio == [] && q.normal == [] && q.faults == []
  }

  lemma CallAsks(s: Session, id: nat, signal: Signal)
    requires Inv(s) && NothingAsked(s.q) && id in s.e.streams && id in s.e.objects && !s.e.objects[id].abortInt
    ensures var r := SendFor(s, false, id, signal); r.1 && Waits(r.0.q, id, signal, s.q.transaction)
  {
  }

  predicate AboutStream(signal: Signal) {
    signal == SetConfiguration || signal == OpenStream || signal == StartStream || signal == SuspendStream
    || signal == CloseStream || signal == DelayReport
  }

  lemma LastFinished(s: Session)
    requires Inv(s) && s.q.outstanding.Some? && s.q.prio == [] && s.q.normal == [] && s.q.faults == []
    ensures Finished(s) == s.(q := Dropped(s.q)) && NothingAsked(Finished(s).q)
  {
  }

  lemma AnswerMoves(s: Session, id: nat, signal: Signal, tag: nat)
    requires Between(s) && s.listening && Waits(s.q, id, signal, tag) && id in s.e.streams && AboutStream(signal)
    ensures InProcess(StopTimer(s).q)
    ensures var moved := StreamAccepted(StopTimer(s), signal, id);
      AnswerRead(s, tag, signal, ACCEPTED) == Finished(moved)
  {
  }

  /** The peer accepts the only request, which asks for nothing more. */
  lemma Granted(s: Session, id: nat, signal: Signal, tag: nat, e: Ends) returns (t: Session)
    requires Between(s) && s.listening && Waits(s.q, id, signal, tag) && id in s.e.streams && AboutStream(signal)
    requires InProcess(StopTimer(s).q) && StreamAccepted(StopTimer(s), signal, id) == StopTimer(s).(e := e)
    ensures Goes(s, [PeerAnswer(tag, signal, ACCEPTED)], t)
    ensures Between(t) && t.listening && t.e == e && t.version13 == s.version13
    ensures NothingAsked(t.q) && t.q.transaction == s.q.transaction
  {
    AnswerMoves(s, id, signal, tag);
    LastFinished(StopTimer(s).(e := e));
    t := Step(s, PeerAnswer(tag, signal, ACCEPTED));
    GoesByStep(s, PeerAnswer(tag, signal, ACCEPTED), t);
  }

  // ---------------------------------------------------------------- one more stream

  /** The streams and end points `e` with one more stream, held by the end points `l` and `r`. */
  function Held(e: Ends, l: nat, r: nat, state: SepState, x: Stream, pending: Option<nat>): Ends
    requires l in e.lseps && r in e.seps
  {
    Ends(e.streams + [e.created], e.objects[e.created := x], e.seps[r := e.seps[r].(stream := Some(e.created))],
      e.lseps[l := e.lseps[l].(state := state, inuse := true, stream := Some(e.created))], pending, e.created + 1)
  }

  lemma EnterChanges(e: Ends, k: nat, id: nat, to: SepState)
    requires Core(e) && k in e.lseps && e.lseps[k].stream == Some(id)
    ensures id in e.objects
    ensures Enter(e, k, to) ==
      e.(objects := e.objects[id := Entered(e.objects[id], to)], lseps := e.lseps[k := e.lseps[k].(state := to)])
  {
    assert SepSound(e, k);
  }

  lemma HeldChanges(e: Ends, l: nat, r: nat, state: SepState, x: Stream, pending: Option<nat>, to: SepState, y: Stream)
    requires l in e.lseps && r in e.seps
    ensures var h := Held(e, l, r, state, x, pending);
      h.(objects := h.objects[e.created := y], lseps := h.lseps[l := h.lseps[l].(state := to)]) ==
      Held(e, l, r, to, y, pending)
  {
    var h := Held(e, l, r, state, x, pending);
    assert e.objects[e.created := x][e.created := y] == e.objects[e.created := y];
    assert h.lseps[l := h.lseps[l].(state := to)] == Held(e, l, r, to, y, pending).lseps;
  }

  lemma EnterHeld(e: Ends, l: nat, r: nat, state: SepState, x: Stream, pending: Option<nat>, to: SepState)
    requires l in e.lseps && r in e.seps && Core(Held(e, l, r, state, x, pending))
    ensures Enter(Held(e, l, r, state, x, pending), l, to) == Held(e, l, r, to, Entered(x, to), pending)
  {
    EnterChanges(Held(e, l, r, state, x, pending), l, e.created, to);
    HeldChanges(e, l, r, state, x, pending, to, Entered(x, to));
  }

  /** The session `b` with one more stream, for which neither side waits or aborts. */
  ghost predicate Holds(b: Session, s: Session, l: nat, r: nat, state: SepState, x: Stream, pending: Option<nat>) {
    && l in b.e.lseps && r in b.e.seps && x.lsep == l && x.rseid == r
    && Inv(s) && s.version13 == b.version13 && s.e == Held(b.e, l, r, state, x, pending)
    && !x.abortInt && !x.openAcp
  }

  /** The same between two events. */
  ghost predicate Has(b: Session, s: Session, l: nat, r: nat, state: SepState, x: Stream, pending: Option<nat>) {
    Holds(b, s, l, r, state, x, pending) && Between(s) && s.listening
  }

  lemma HoldsStream(b: Session, s: Session, l: nat, r: nat, state: SepState, x: Stream, pending: Option<nat>)
    requires Holds(b, s, l, r, state, x, pending)
    ensures b.e.created in s.e.streams && StreamHeld(s.e, b.e.created)
    ensures s.e.objects[b.e.created] == x && StateOf(s.e, b.e.created) == state
    ensures s.e.lseps[l].stream == Some(b.e.created)
  {
    assert b.e.created in s.e.streams;
  }

  // ---------------------------------------------------------------- calls

  /** A call that sends a request and notes it in the stream. */
  lemma AsksAndNotes(b: Session, s: Session, l: nat, r: nat, state: SepState, x: Stream, pending: Option<nat>,
      signal: Signal, y: Stream) returns (t: Session)
    requires Has(b, s, l, r, state, x, pending) && NothingAsked(s.q)
    requires y.lsep == l && y.rseid == r && !y.abortInt && !y.openAcp
    ensures b.e.created in s.e.objects && b.e.created in s.e.streams
    ensures t == Ask(s, false, b.e.created, signal, y)
    ensures Has(b, t, l, r, state, y, pending) && Waits(t.q, b.e.created, signal, s.q.transaction)
  {
    HoldsStream(b, s, l, r, state, x, pending);
    CallAsks(s, b.e.created, signal);
    t := Ask(s, false, b.e.created, signal, y);
    assert b.e.objects[b.e.created := x][b.e.created := y] == b.e.objects[b.e.created := y];
  }

  /** A call that only sends a request. */
  lemma Asks(b: Session, s: Session, l: nat, r: nat, state: SepState, x: Stream, pending: Option<nat>, signal: Signal)
    returns (t: Session)
    requires Has(b, s, l, r, state, x, pending) && NothingAsked(s.q)
    ensures b.e.created in s.e.objects && b.e.created in s.e.streams
    ensures t == SendFor(s, false, b.e.created, signal).0
    ensures Has(b, t, l, r, state, x, pending) && Waits(t.q, b.e.created, signal, s.q.transaction)
  {
    HoldsStream(b, s, l, r, state, x, pending);
    CallAsks(s, b.e.created, signal);
    t := SendFor(s, false, b.e.created, signal).0;
  }

  lemma OpenAsked(b: Session, s: Session, l: nat, r: nat, x: Stream, pending: Option<nat>) returns (t: Session)
    requires Has(b, s, l, r, SepState.Configured, x, pending) && NothingAsked(s.q)
    ensures Goes(s, [CallOpen(b.e.created)], t)
    ensures Has(b, t, l, r, SepState.Configured, x, pending) && Waits(t.q, b.e.created, OpenStream, s.q.transaction)
  {
    HoldsStream(b, s, l, r, SepState.Configured, x, pending);
    t := Asks(b, s, l, r, SepState.Configured, x, pending, OpenStream);
    GoesByStep(s, CallOpen(b.e.created), t);
  }

  lemma StartAsked(b: Session, s: Session, l: nat, r: nat, x: Stream, pending: Option<nat>) returns (t: Session)
    requires Has(b, s, l, r, Open, x, pending) && NothingAsked(s.q) && !x.closeInt && !x.starting
    ensures Goes(s, [CallStart(b.e.created)], t)
    ensures Has(b, t, l, r, Open, x.(starting := true), pending)
    ensures Waits(t.q, b.e.created, StartStream, s.q.transaction)
  {
    HoldsStream(b, s, l, r, Open, x, pending);
    t := AsksAndNotes(b, s, l, r, Open, x, pending, StartStream, x.(starting := true));
    GoesByStep(s, CallStart(b.e.created), t);
  }

  lemma SuspendAsked(b: Session, s: Session, l: nat, r: nat, x: Stream, pending: Option<nat>) returns (t: Session)
    requires Has(b, s, l, r, Streaming, x, pending) && NothingAsked(s.q) && !x.closeInt
    ensures Goes(s, [CallSuspend(b.e.created)], t)
    ensures Has(b, t, l, r, Streaming, x, pending) && Waits(t.q, b.e.created, SuspendStream, s.q.transaction)
  {
    HoldsStream(b, s, l, r, Streaming, x, pending);
    t := Asks(b, s, l, r, Streaming, x, pending, SuspendStream);
    GoesByStep(s, CallSuspend(b.e.created), t);
  }

  lemma CloseAsked(b: Session, s: Session, l: nat, r: nat, state: SepState, x: Stream, pending: Option<nat>)
    returns (t: Session)
    requires Has(b, s, l, r, state, x, pending) && NothingAsked(s.q) && !x.closeInt
    requires state == Open || state == Streaming
    ensures Goes(s, [CallClose(b.e.created, false)], t)
    ensures Has(b, t, l, r, state, x.(closeInt := true), pending)
    ensures Waits(t.q, b.e.created, CloseStream, s.q.transaction)
  {
    HoldsStream(b, s, l, r, state, x, pending);
    t := AsksAndNotes(b, s, l, r, state, x, pending, CloseStream, x.(closeInt := true));
    GoesByStep(s, CallClose(b.e.created, false), t);
  }

  // ---------------------------------------------------------------- accepted requests

  /** The request that moves a stream to a state. */
  function SignalTo(to: SepState): Signal
    requires to == Open || to == Streaming || to == Closing
  {
    if to == Open then SuspendStream else if to == Streaming then StartStream else CloseStream
  }

  lemma MoveAccepted(b: Session, s: Session, l: nat, r: nat, state: SepState, x: Stream, pending: Option<nat>,
      to: SepState)
    requires Has(b, s, l, r, state, x, pending) && (to == Open || to == Streaming || to == Closing) && state != to
    requires s.q.outstanding.Some?
    ensures b.e.created in s.e.streams && InProcess(StopTimer(s).q)
    ensures StreamAccepted(StopTimer(s), SignalTo(to), b.e.created) ==
      StopTimer(s).(e := Held(b.e, l, r, to, Entered(x, to), pending))
  {
    HoldsStream(b, s, l, r, state, x, pending);
    EnterHeld(b.e, l, r, state, x, pending, to);
  }

  lemma Moves(b: Session, s: Session, l: nat, r: nat, state: SepState, x: Stream, pending: Option<nat>, to: SepState,
      tag: nat) returns (t: Session)
    requires Has(b, s, l, r, state, x, pending) && (to == Open || to == Streaming || to == Closing) && state != to
    requires Waits(s.q, b.e.created, SignalTo(to), tag)
    ensures Goes(s, [PeerAnswer(tag, SignalTo(to), ACCEPTED)], t)
    ensures Has(b, t, l, r, to, Entered(x, to), pending) && NothingAsked(t.q) && t.q.transaction == Next(tag)
  {
    MoveAccepted(b, s, l, r, state, x, pending, to);
    t := Granted(s, b.e.created, SignalTo(to), tag, Held(b.e, l, r, to, Entered(x, to), pending));
  }

  // ---------------------------------------------------------------- configuration

  /** The request for a configuration names the new stream, which its end points hold already. */
  lemma ConfigurationAsked(b: Session, l: nat, r: nat) returns (s: Session, x: Stream)
    requires Between(b) && b.listening && NothingAsked(b.q)
    requires l in b.e.lseps && b.e.lseps[l].stream.None? && r in b.e.seps
    ensures Goes(b, [CallSetConfiguration(l, r)], s) && Has(b, s, l, r, Idle, x, b.e.pendingOpen)
    ensures Waits(s.q, b.e.created, SetConfiguration, b.q.transaction)
    ensures x == NewStream(l, r, b.e.seps[r].delayReporting && b.e.lseps[l].delayReporting)
  {
    assert SepSound(b.e, l);
    s := SetConfigurationCall(b, l, r);
    x := NewStream(l, r, b.e.seps[r].delayReporting && b.e.lseps[l].delayReporting);
    GoesByStep(b, CallSetConfiguration(l, r), s);
  }

  /** The configured end point of a stream that has no delay to report. */
  lemma ConfigurationAccepted(b: Session, s: Session, l: nat, r: nat, x: Stream, pending: Option<nat>, tag: nat)
    returns (t: Session)
    requires Has(b, s, l, r, Idle, x, pending) && Waits(s.q, b.e.created, SetConfiguration, tag)
    requires !(b.e.lseps[l].sink && x.delayReporting && b.version13)
    ensures Goes(s, [PeerAnswer(tag, SetConfiguration, ACCEPTED)], t)
    ensures Has(b, t, l, r, SepState.Configured, x, pending) && NothingAsked(t.q) && t.q.transaction == Next(tag)
  {
    HoldsStream(b, s, l, r, Idle, x, pending);
    EnterHeld(b.e, l, r, Idle, x, pending, SepState.Configured);
    t := Granted(s, b.e.created, SetConfiguration, tag, Held(b.e, l, r, SepState.Configured, x, pending));
  }

  /** A report that waits behind the answered request goes out when that is freed. */
  lemma NextSent(s: Session, id: nat, signal: Signal)
    requires Inv(s) && InProcess(s.q) && |s.q.prio| == 1 && s.q.normal == [] && s.q.faults == []
    requires s.q.prio[0].stream == Some(id) && s.q.prio[0].signal == signal
    ensures var t := Finished(s); t == s.(q := t.q) && Waits(t.q, id, signal, s.q.transaction)
  {
  }

  /** A configured sink asks to report its delay while the acceptance is still in process. */
  lemma ReportQueued(b: Session, s: Session, l: nat, r: nat, x: Stream, pending: Option<nat>)
    requires Holds(b, s, l, r, Idle, x, pending) && InProcess(s.q)
    requires s.q.prio == [] && s.q.normal == [] && s.q.faults == []
    requires b.e.lseps[l].sink && x.delayReporting && b.version13
    ensures var id, moved := b.e.created, SetSepState(s, l, SepState.Configured);
      && |moved.q.prio| == 1 && moved.q.prio[0].stream == Some(id) && moved.q.prio[0].signal == DelayReport
      && moved.q == s.q.(prio := moved.q.prio, accepted := moved.q.accepted)
      && moved == s.(q := moved.q, e := Held(b.e, l, r, SepState.Configured, x, pending))
  {
    HoldsStream(b, s, l, r, Idle, x, pending);
    EnterHeld(b.e, l, r, Idle, x, pending, SepState.Configured);
    var entered := s.(e := Held(b.e, l, r, SepState.Configured, x, pending));
    assert SetSepState(s, l, SepState.Configured) == ReportDelay(entered, b.e.created).0;
  }

  lemma ConfigurationReported(b: Session, s: Session, l: nat, r: nat, x: Stream, pending: Option<nat>, tag: nat)
    returns (t: Session)
    requires Has(b, s, l, r, Idle, x, pending) && Waits(s.q, b.e.created, SetConfiguration, tag)
    requires b.e.lseps[l].sink && x.delayReporting && b.version13
    ensures Goes(s, [PeerAnswer(tag, SetConfiguration, ACCEPTED)], t)
    ensures Has(b, t, l, r, SepState.Configured, x, pending) && Waits(t.q, b.e.created, DelayReport, Next(tag))
  {
    HoldsStream(b, s, l, r, Idle, x, pending);
    var id := b.e.created;
    AnswerMoves(s, id, SetConfiguration, tag);
    var stopped := StopTimer(s);
    ReportQueued(b, stopped, l, r, x, pending);
    NextSent(StreamAccepted(stopped, SetConfiguration, id), id, DelayReport);
    t := Step(s, PeerAnswer(tag, SetConfiguration, ACCEPTED));
    GoesByStep(s, PeerAnswer(tag, SetConfiguration, ACCEPTED), t);
  }

  lemma ReportGranted(b: Session, s: Session, l: nat, r: nat, x: Stream, pending: Option<nat>, tag: nat)
    returns (t: Session)
    requires Has(b, s, l, r, SepState.Configured, x, pending) && Waits(s.q, b.e.created, DelayReport, tag)
    ensures Goes(s, [PeerAnswer(tag, DelayReport, ACCEPTED)], t)
    ensures Has(b, t, l, r, SepState.Configured, x, pending) && NothingAsked(t.q) && t.q.transaction == Next(tag)
  {
    HoldsStream(b, s, l, r, SepState.Configured, x, pending);
    t := Granted(s, b.e.created, DelayReport, tag, s.e);
  }

  // ---------------------------------------------------------------- the transport

  lemma OpeningGranted(b: Session, s: Session, l: nat, r: nat, x: Stream, pending: Option<nat>, tag: nat)
    returns (t: Session)
    requires Has(b, s, l, r, SepState.Configured, x, pending) && Waits(s.q, b.e.created, OpenStream, tag)
    ensures Goes(s, [PeerAnswer(tag, OpenStream, ACCEPTED)], t)
    ensures Has(b, t, l, r, SepState.Configured, x, Some(b.e.created)) && NothingAsked(t.q)
    ensures t.q.transaction == Next(tag)
  {
    HoldsStream(b, s, l, r, SepState.Configured, x, pending);
    t := Granted(s, b.e.created, OpenStream, tag, Held(b.e, l, r, SepState.Configured, x, Some(b.e.created)));
  }

  function Connected(x: Stream): Stream {
    x.(timer := false, starting := false, connected := true)
  }

  lemma Connects(b: Session, s: Session, l: nat, r: nat, x: Stream)
    requires Has(b, s, l, r, SepState.Configured, x, Some(b.e.created))
    ensures b.e.created in s.e.streams
    ensures SetTransport(s, b.e.created) == s.(e := Held(b.e, l, r, Open, Connected(x), None))
  {
    HoldsStream(b, s, l, r, SepState.Configured, x, Some(b.e.created));
    var y := x.(timer := false);
    assert ClearPending(s.e, b.e.created) == Held(b.e, l, r, SepState.Configured, y, None) by {
      HeldChanges(b.e, l, r, SepState.Configured, x, None, SepState.Configured, y);
    }
    EnterHeld(b.e, l, r, SepState.Configured, y, None, Open);
    HeldChanges(b.e, l, r, Open, y.(starting := false), None, Open, Connected(x));
  }

  lemma TransportOpens(b: Session, s: Session, l: nat, r: nat, x: Stream) returns (t: Session)
    requires Has(b, s, l, r, SepState.Configured, x, Some(b.e.created)) && NothingAsked(s.q)
    ensures Goes(s, [TransportUp(b.e.created)], t) && t.q == s.q
    ensures Has(b, t, l, r, Open, Connected(x), None)
  {
    Connects(b, s, l, r, x);
    t := SetTransport(s, b.e.created);
    GoesByStep(s, TransportUp(b.e.created), t);
  }

  // ---------------------------------------------------------------- the end

  /** The streams and end points after a stream of the remote end point came and went. */
  function Released(e: Ends, r: nat): Ends
    requires r in e.seps
  {
    e.(seps := e.seps[r := e.seps[r].(stream := None)], pendingOpen := None, created := e.created + 1)
  }

  lemma {:induction false} DropLast(ids: seq<nat>, id: nat)
    requires id !in ids
    ensures Drop(ids + [id], id) == ids
  {
    if ids == [] {
      assert [] + [id] == [id];
    } else {
      DropLast(ids[1..], id);
      assert (ids + [id])[1..] == ids[1..] + [id];
    }
  }

  lemma FreeHeld(e: Ends, l: nat, r: nat, x: Stream)
    requires l in e.lseps && r in e.seps && x.lsep == l && x.rseid == r && e.created !in e.objects
    requires e.lseps[l].stream.None? && e.lseps[l].state == Idle && !e.lseps[l].inuse
    ensures StreamFree(Held(e, l, r, Idle, x, None).(streams := e.streams), e.created) == Released(e, r)
  {
    var id, h := e.created, Held(e, l, r, Idle, x, None);
    assert e.objects[id := x] - {id} == e.objects;
    assert h.lseps[l := h.lseps[l].(inuse := false, stream := None)] == e.lseps;
    assert h.seps[r := h.seps[r].(stream := None)] == e.seps[r := e.seps[r].(stream := None)];
  }

  /** Removing the one more stream leaves what was there. */
  lemma RemoveHeld(e: Ends, l: nat, r: nat, x: Stream)
    requires Core(e) && l in e.lseps && e.lseps[l].stream.None? && r in e.seps && x.lsep == l && x.rseid == r
    ensures var h := Held(e, l, r, Idle, x, None);
      StreamFree(h.(streams := Drop(h.streams, e.created)), e.created) == Released(e, r)
  {
    assert SepSound(e, l);
    assert forall k <- e.streams :: StreamHeld(e, k) && k < e.created;
    DropLast(e.streams, e.created);
    FreeHeld(e, l, r, x);
  }

  /** With nothing waiting, giving up the stream's requests changes nothing. */
  lemma NothingToGiveUp(s: Session, id: nat)
    requires Inv(s) && NothingAsked(s.q)
    ensures GiveUp(s, id) == s
  {
  }

  lemma DiscardHeld(b: Session, s: Session, l: nat, r: nat, x: Stream)
    requires Between(b) && Holds(b, s, l, r, Idle, x, None) && NothingAsked(s.q) && b.e.lseps[l].stream.None?
    ensures b.e.created in s.e.streams && StateOf(s.e, b.e.created) == Idle
    ensures Discard(s, b.e.created) == s.(e := Released(b.e, r))
  {
    HoldsStream(b, s, l, r, Idle, x, None);
    NothingToGiveUp(s, b.e.created);
    RemoveHeld(b.e, l, r, x);
  }

  lemma IdleHeld(b: Session, s: Session, l: nat, r: nat, state: SepState, x: Stream)
    requires Between(b) && Holds(b, s, l, r, state, x, None) && NothingAsked(s.q) && b.e.lseps[l].stream.None?
    ensures l in s.e.lseps && SetSepState(s, l, Idle) == s.(e := Released(b.e, r))
  {
    HoldsStream(b, s, l, r, state, x, None);
    EnterHeld(b.e, l, r, state, x, None, Idle);
    DiscardHeld(b, s.(e := Held(b.e, l, r, Idle, Entered(x, Idle), None)), l, r, Entered(x, Idle));
  }

  lemma Lost(b: Session, s: Session, l: nat, r: nat, state: SepState, x: Stream)
    requires Between(b) && Has(b, s, l, r, state, x, None) && NothingAsked(s.q) && b.e.lseps[l].stream.None?
    ensures b.e.created in s.e.streams && TransportLost(s, b.e.created) == s.(e := Released(b.e, r))
  {
    HoldsStream(b, s, l, r, state, x, None);
    var closed := Change(s, b.e.created, x.(connected := false));
    HeldChanges(b.e, l, r, state, x, None, state, x.(connected := false));
    IdleHeld(b, closed, l, r, state, x.(connected := false));
  }

  lemma GoesDown(s: Session, id: nat)
    requires Between(s) && Enabled(s, TransportDown(id))
    ensures Goes(s, [TransportDown(id)], TransportLost(s, id))
  {
    GoesByStep(s, TransportDown(id), TransportLost(s, id));
  }

  /** The transport is lost: the stream goes, and what is left is as it was. */
  lemma TransportCloses(b: Session, s: Session, l: nat, r: nat, state: SepState, x: Stream) returns (t: Session)
    requires Between(b) && Has(b, s, l, r, state, x, None) && NothingAsked(s.q) && b.e.lseps[l].stream.None?
    requires x.connected
    ensures Goes(s, [TransportDown(b.e.created)], t) && t == s.(e := Released(b.e, r))
  {
    HoldsStream(b, s, l, r, state, x, None);
    Lost(b, s, l, r, state, x);
    t := s.(e := Released(b.e, r));
    GoesDown(s, b.e.created);
  }

  // ---------------------------------------------------------------- the phases

  /** The stream rests in a state: nothing is asked, and the next call can be made. */
  ghost predicate Rests(b: Session, s: Session, l: nat, r: nat, state: SepState, x: Stream) {
    && Has(b, s, l, r, state, x, None) && NothingAsked(s.q)
    && !x.closeInt && x.connected && (state != Streaming ==> !x.starting)
  }

  lemma Configures(b: Session, l: nat, r: nat) returns (t: Session, x: Stream)
    requires Between(b) && b.listening && NothingAsked(b.q)
    requires l in b.e.lseps && b.e.lseps[l].stream.None? && r in b.e.seps
    ensures Goes(b, Configuring(l, r, b), t)
    ensures Has(b, t, l, r, SepState.Configured, x, b.e.pendingOpen) && NothingAsked(t.q) && !x.closeInt
    ensures t.q.transaction == AfterConfiguring(l, r, b)
  {
    var tag := b.q.transaction;
    var asked;
    asked, x := ConfigurationAsked(b, l, r);
    if ReportsDelay(b, l, r) {
      var configured := ConfigurationReported(b, asked, l, r, x, b.e.pendingOpen, tag);
      t := ReportGranted(b, configured, l, r, x, b.e.pendingOpen, Next(tag));
      GoesOn(b, [CallSetConfiguration(l, r)], asked, [PeerAnswer(tag, SetConfiguration, ACCEPTED)], configured);
      GoesOn(b, [CallSetConfiguration(l, r)] + [PeerAnswer(tag, SetConfiguration, ACCEPTED)], configured,
        [PeerAnswer(Next(tag), DelayReport, ACCEPTED)], t);
    } else {
      t := ConfigurationAccepted(b, asked, l, r, x, b.e.pendingOpen, tag);
      GoesOn(b, [CallSetConfiguration(l, r)], asked, [PeerAnswer(tag, SetConfiguration, ACCEPTED)], t);
      assert Configuring(l, r, b) == [CallSetConfiguration(l, r)] + [PeerAnswer(tag, SetConfiguration, ACCEPTED)];
    }
  }

  lemma Opens(b: Session, s: Session, l: nat, r: nat, x: Stream, pending: Option<nat>) returns (t: Session)
    requires Has(b, s, l, r, SepState.Configured, x, pending) && NothingAsked(s.q) && !x.closeInt
    ensures Goes(s, Opening(b.e.created, s.q.transaction), t)
    ensures Rests(b, t, l, r, Open, Connected(x)) && t.q.transaction == Next(s.q.transaction)
  {
    var id, tag := b.e.created, s.q.transaction;
    var asked := OpenAsked(b, s, l, r, x, pending);
    var opening := OpeningGranted(b, asked, l, r, x, pending, tag);
    t := TransportOpens(b, opening, l, r, x);
    GoesOn(s, [CallOpen(id)], asked, [PeerAnswer(tag, OpenStream, ACCEPTED)], opening);
    GoesOn(s, [CallOpen(id)] + [PeerAnswer(tag, OpenStream, ACCEPTED)], opening, [TransportUp(id)], t);
  }

  lemma Starts(b: Session, s: Session, l: nat, r: nat, x: Stream) returns (t: Session, y: Stream)
    requires Rests(b, s, l, r, Open, x)
    ensures Goes(s, Starting(b.e.created, s.q.transaction), t)
    ensures Rests(b, t, l, r, Streaming, y) && t.q.transaction == Next(s.q.transaction)
  {
    var id, tag := b.e.created, s.q.transaction;
    var asked := StartAsked(b, s, l, r, x, None);
    t := Moves(b, asked, l, r, Open, x.(starting := true), None, Streaming, tag);
    y := Entered(x.(starting := true), Streaming);
    GoesOn(s, [CallStart(id)], asked, [PeerAnswer(tag, StartStream, ACCEPTED)], t);
  }

  lemma Suspends(b: Session, s: Session, l: nat, r: nat, x: Stream) returns (t: Session, y: Stream)
    requires Rests(b, s, l, r, Streaming, x)
    ensures Goes(s, Suspending(b.e.created, s.q.transaction), t)
    ensures Rests(b, t, l, r, Open, y) && t.q.transaction == Next(s.q.transaction)
  {
    var id, tag := b.e.created, s.q.transaction;
    var asked := SuspendAsked(b, s, l, r, x, None);
    t := Moves(b, asked, l, r, Streaming, x, None, Open, tag);
    y := Entered(x, Open);
    GoesOn(s, [CallSuspend(id)], asked, [PeerAnswer(tag, SuspendStream, ACCEPTED)], t);
  }

  lemma PlaysOnce(b: Session, s: Session, l: nat, r: nat, x: Stream) returns (t: Session, y: Stream)
    requires Rests(b, s, l, r, Open, x)
    ensures Goes(s, Round(b.e.created, s.q.transaction), t)
    ensures Rests(b, t, l, r, Open, y) && t.q.transaction == Next(Next(s.q.transaction))
  {
    var id, tag := b.e.created, s.q.transaction;
    var started, u := Starts(b, s, l, r, x);
    t, y := Suspends(b, started, l, r, u);
    GoesOn(s, Starting(id, tag), started, Suspending(id, Next(tag)), t);
  }

  lemma {:induction false} Plays(b: Session, s: Session, l: nat, r: nat, x: Stream, n: nat)
    returns (t: Session, y: Stream)
    requires Rests(b, s, l, r, Open, x)
    ensures Goes(s, Rounds(b.e.created, s.q.transaction, n), t)
    ensures Rests(b, t, l, r, Open, y) && t.q.transaction == Later(s.q.transaction, 2 * n)
    decreases n
  {
    if n == 0 {
      t, y := s, x;
      ReachesNow(Leads, s);
    } else {
      var id, tag := b.e.created, s.q.transaction;
      var played, u := PlaysOnce(b, s, l, r, x);
      t, y := Plays(b, played, l, r, u, n - 1);
      OneMoreRound(s, id, tag, n, played, t);
    }
  }

  lemma OneMoreRound(s: Session, id: nat, tag: nat, n: nat, played: Session, t: Session)
    requires n > 0 && Goes(s, Round(id, tag), played) && Goes(played, Rounds(id, Next(Next(tag)), n - 1), t)
    ensures Goes(s, Rounds(id, tag, n), t)
    ensures Later(tag, 2 * n) == Later(Next(Next(tag)), 2 * (n - 1))
  {
    GoesOn(s, Round(id, tag), played, Rounds(id, Next(Next(tag)), n - 1), t);
    assert Later(tag, 2 * n) == Later(Next(tag), 2 * n - 1);
  }

  lemma Closes(b: Session, s: Session, l: nat, r: nat, state: SepState, x: Stream) returns (t: Session)
    requires Between(b) && Rests(b, s, l, r, state, x) && (state == Open || state == Streaming)
    requires b.e.lseps[l].stream.None?
    ensures Goes(s, Ending(b.e.created, s.q.transaction), t)
    ensures t.e == Released(b.e, r) && NothingAsked(t.q)
  {
    var id, tag, y := b.e.created, s.q.transaction, x.(closeInt := true);
    var asked := CloseAsked(b, s, l, r, state, x, None);
    var closing := Moves(b, asked, l, r, state, y, None, Closing, tag);
    t := TransportCloses(b, closing, l, r, Closing, Entered(y, Closing));
    GoesOn(s, [CallClose(id, false)], asked, [PeerAnswer(tag, CloseStream, ACCEPTED)], closing);
    GoesOn(s, [CallClose(id, false)] + [PeerAnswer(tag, CloseStream, ACCEPTED)], closing, [TransportDown(id)], t);
  }

  // ---------------------------------------------------------------- a whole life

  /** Configured, opened, started and suspended `n` times, perhaps started once more, and closed. */
  function Life(l: nat, r: nat, s: Session, n: nat, playing: bool): seq<Event>
    requires l in s.e.lseps && r in s.e.seps
  {
    var id, first := s.e.created, AfterConfiguring(l, r, s);
    var last := Later(Next(first), 2 * n);
    Configuring(l, r, s) + Opening(id, first) + Rounds(id, Next(first), n)
    + (if playing then Starting(id, last) + Ending(id, Next(last)) else Ending(id, last))
  }

  lemma LastPart(b: Session, s: Session, l: nat, r: nat, x: Stream, playing: bool) returns (t: Session)
    requires Between(b) && Rests(b, s, l, r, Open, x) && b.e.lseps[l].stream.None?
    ensures var id, tag := b.e.created, s.q.transaction;
      Goes(s, if playing then Starting(id, tag) + Ending(id, Next(tag)) else Ending(id, tag), t)
    ensures t.e == Released(b.e, r) && NothingAsked(t.q)
  {
    var id, tag := b.e.created, s.q.transaction;
    if playing {
      var started, y := Starts(b, s, l, r, x);
      t := Closes(b, started, l, r, Streaming, y);
      GoesOn(s, Starting(id, tag), started, Ending(id, Next(tag)), t);
    } else {
      t := Closes(b, s, l, r, Open, x);
    }
  }

  /** Whatever other streams there are: if the peer accepts every request, the whole life can happen, and at its end
      streams, end points and records are as they were, but that the remote end point has no stream, no transport is
      awaited, and the identity of the stream is used up. */
  lemma LeavesNothing(s: Session, l: nat, r: nat, n: nat, playing: bool)
    requires Between(s) && s.listening && NothingAsked(s.q)
    requires l in s.e.lseps && s.e.lseps[l].stream.None? && r in s.e.seps
    ensures var events := Life(l, r, s, n, playing);
      CanRun(s, events) && NothingAsked(Run(s, events).q) && Run(s, events).e == Released(s.e, r)
  {
    var id, first := s.e.created, AfterConfiguring(l, r, s);
    var configured, x := Configures(s, l, r);
    var opened' := Opens(s, configured, l, r, x, s.e.pendingOpen);
    var played, y := Plays(s, opened', l, r, Connected(x), n);
    var t := LastPart(s, played, l, r, y, playing);
    GoesOn(s, Configuring(l, r, s), configured, Opening(id, first), opened');
    GoesOn(s, Configuring(l, r, s) + Opening(id, first), opened', Rounds(id, Next(first), n), played);
    var last := Later(Next(first), 2 * n);
    GoesOn(s, Configuring(l, r, s) + Opening(id, first) + Rounds(id, Next(first), n), played,
      if playing then Starting(id, last) + Ending(id, Next(last)) else Ending(id, last), t);
    GoesIsRun(s, Life(l, r, s, n, playing), t);
  }
}
