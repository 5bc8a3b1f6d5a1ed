/** When each call of the upper layer asks the peer for something, what it asks, and what it notes in the session. */
module AvdtpCalls {
  import opened AvdtpHandlers
  import opened AvdtpRequests
  import opened AvdtpRequestSteps
  import opened AvdtpRuns
  import opened AvdtpStates
  import opened AvdtpStreamCommands
  import opened Options

  /** A request is accepted if it waits or can be sent. */
  predicate TakesRequest(q: Requests) {
    q.outstanding.Some? || q.faults == [] || !q.faults[0]
  }

  /** A request about a stream that is not being aborted; nothing else changes. */
  ghost predicate AsksFor(s: Session, priority: bool, id: nat, signal: Signal, r: Session)
    requires id in s.e.objects
  {
    && r == s.(q := r.q)
    && if s.e.objects[id].abortInt then r.q == s.q
       else Asked(s.q, priority, Some(id), signal, s.e.objects[id].rseid, r.q)
  }

  lemma SendForAsks(s: Session, priority: bool, id: nat, signal: Signal)
    requires Inv(s) && id in s.e.streams && id in s.e.objects && signal != AbortStream
    ensures var (r, ok) := SendFor(s, priority, id, signal);
      AsksFor(s, priority, id, signal, r) && (ok <==> !s.e.objects[id].abortInt && TakesRequest(s.q))
  {
    AskedExactlyWhen(s.q, priority, Some(id), s.e.objects[id].abortInt, signal, s.e.objects[id].rseid);
  }

  lemma OpenAsks(s: Session, id: nat)
    requires Between(s)
    ensures var r := Step(s, CallOpen(id));
      if id in s.e.streams && (StateOf(s.e, id) == Idle || StateOf(s.e, id) == SepState.Configured) then
        id in s.e.objects && AsksFor(s, false, id, OpenStream, r)
      else r == s
  {
    if id in s.e.streams {
      assert StreamHeld(s.e, id);
      SendForAsks(s, false, id, OpenStream);
    }
  }

  lemma SuspendIsCalled(s: Session, id: nat)
    requires Between(s)
    ensures Step(s, CallSuspend(id)) == Suspend(s, id)
  {
  }

  /** A stream that is past open and not closing is asked to be suspended. */
  lemma SuspendAsks(s: Session, id: nat)
    requires Between(s)
    ensures id in s.e.streams ==> id in s.e.objects
    ensures var r := Step(s, CallSuspend(id));
      if id in s.e.streams && !s.e.objects[id].closeInt
        && (StateOf(s.e, id) == Streaming || StateOf(s.e, id) == Closing || StateOf(s.e, id) == Aborting) then
        AsksFor(s, false, id, SuspendStream, r)
      else r == s
  {
    SuspendIsCalled(s, id);
    if id in s.e.streams {
      assert StreamHeld(s.e, id);
      SendForAsks(s, false, id, SuspendStream);
    }
  }

  lemma DelayIsCalled(s: Session, id: nat)
    requires Between(s)
    ensures Step(s, CallReportDelay(id)) == ReportDelay(s, id).0
  {
  }

  lemma DelayAsks(s: Session, id: nat)
    requires Between(s)
    ensures id in s.e.streams ==> id in s.e.objects
    ensures var r := Step(s, CallReportDelay(id));
      if id in s.e.streams && s.e.objects[id].delayReporting && s.version13
        && (StateOf(s.e, id) == SepState.Configured || StateOf(s.e, id) == Streaming) then
        AsksFor(s, true, id, DelayReport, r)
      else r == s
  {
    DelayIsCalled(s, id);
    if id in s.e.streams {
      assert StreamHeld(s.e, id);
      SendForAsks(s, true, id, DelayReport);
    }
  }

  lemma GetConfigurationAsks(s: Session, id: nat)
    requires Between(s) && id in s.e.streams
    ensures id in s.e.objects && AsksFor(s, false, id, GetConfiguration, Step(s, CallGetConfiguration(id)))
  {
    assert StreamHeld(s.e, id);
    SendForAsks(s, false, id, GetConfiguration);
  }

  lemma DiscoverAsks(s: Session, busy: bool)
    requires Between(s)
    ensures var r := Step(s, CallDiscover(busy));
      && r == s.(q := r.q)
      && if busy || s.e.seps != map[] then r.q == s.q else Asked(s.q, false, None, DiscoverSeps, 0, r.q)
  {
    AskedExactlyWhen(s.q, false, None, false, DiscoverSeps, 0);
  }

  /** A request about a stream that, if it is accepted, leaves the record `x`. */
  ghost predicate AsksAndNotes(s: Session, priority: bool, id: nat, signal: Signal, x: Stream, r: Session)
    requires id in s.e.objects
  {
    && r == s.(q := r.q, e := r.e)
    && Asked(s.q, priority, Some(id), signal, s.e.objects[id].rseid, r.q)
    && r.e == if TakesRequest(s.q) then s.e.(objects := s.e.objects[id := x]) else s.e
  }

  /** An open stream: if the peer opened it, the start is put off; if it is closing, starting or being aborted, nothing
      happens; else the peer is asked to start it. */
  lemma StartAsks(s: Session, id: nat)
    requires Between(s)
    ensures id in s.e.streams ==> id in s.e.objects
    ensures var r := Step(s, CallStart(id));
      if id !in s.e.streams || StateOf(s.e, id) != Open then r == s
      else
        var x := s.e.objects[id];
        if x.openAcp then r == s.(e := s.e.(objects := s.e.objects[id := x.(startTimer := true)]))
        else if x.closeInt || x.starting || x.abortInt then r == s
        else AsksAndNotes(s, false, id, StartStream, x.(starting := true), r)
  {
    if id in s.e.streams {
      assert StreamHeld(s.e, id);
      SendForAsks(s, false, id, StartStream);
    }
  }

  lemma AbortSent(s: Session, id: nat)
    requires Inv(s) && id in s.e.streams && StateOf(s.e, id) != Aborting
    requires !(Concerns(s.q, id) && s.q.outstanding.value.timed)
    ensures id in s.e.objects
    ensures AsksAndNotes(s, true, id, AbortStream, s.e.objects[id].(abortInt := true), Abort(s, id))
  {
    assert StreamHeld(s.e, id);
    AskedExactlyWhen(s.q, true, Some(id), s.e.objects[id].abortInt, AbortStream, s.e.objects[id].rseid);
  }

  lemma AbortIsCalled(s: Session, id: nat)
    requires Between(s)
    ensures Step(s, CallAbort(id)) == Abort(s, id)
  {
  }

  lemma TimeoutCancels(s: Session, ev: Event)
    requires Between(s) && Enabled(s, ev) && ev.RequestTimesOut?
    ensures Step(s, ev) == CancelRequest(s)
  {
  }

  /** A stream that is being aborted is not asked for again; a request of its own that is outstanding is cancelled as if
      it had timed out; else the peer is asked to abort it. */
  lemma AbortAsks(s: Session, id: nat)
    requires Between(s)
    ensures id in s.e.streams ==> id in s.e.objects
    ensures var r := Step(s, CallAbort(id));
      if id !in s.e.streams || StateOf(s.e, id) == Aborting then r == s
      else if s.q.outstanding.Some? && s.q.outstanding.value.stream == Some(id) && s.q.outstanding.value.timed then
        r == Step(s, RequestTimesOut)
      else AsksAndNotes(s, true, id, AbortStream, s.e.objects[id].(abortInt := true), r)
  {
    AbortIsCalled(s, id);
    if id in s.e.streams {
      assert StreamHeld(s.e, id);
      if Concerns(s.q, id) && s.q.outstanding.value.timed {
        TimeoutCancels(s, RequestTimesOut);
      } else if StateOf(s.e, id) != Aborting {
        AbortSent(s, id);
      }
    }
  }

  lemma CloseSent(s: Session, id: nat, immediate: bool)
    requires Inv(s) && id in s.e.streams && id in s.e.objects && !s.e.objects[id].closeInt
    requires StateOf(s.e, id) != Idle && StateOf(s.e, id) != SepState.Configured && !(immediate && Concerns(s.q, id))
    ensures if s.e.objects[id].abortInt then Close(s, id, immediate) == s
      else AsksAndNotes(s, false, id, CloseStream, s.e.objects[id].(closeInt := true), Close(s, id, immediate))
  {
    assert StreamHeld(s.e, id);
    SendForAsks(s, false, id, CloseStream);
  }

  lemma CloseIsCalled(s: Session, id: nat, immediate: bool)
    requires Between(s)
    ensures Step(s, CallClose(id, immediate)) == Close(s, id, immediate)
  {
  }

  /** A stream that is not open yet, or at once one whose own request is outstanding, is aborted; any other is asked to be
      closed, once. */
  lemma CloseAsks(s: Session, id: nat, immediate: bool)
    requires Between(s)
    ensures id in s.e.streams ==> id in s.e.objects
    ensures var r := Step(s, CallClose(id, immediate));
      if id !in s.e.streams || s.e.objects[id].closeInt then r == s
      else if StateOf(s.e, id) == Idle || StateOf(s.e, id) == SepState.Configured
        || (immediate && s.q.outstanding.Some? && s.q.outstanding.value.stream == Some(id)) then
        r == Step(s, CallAbort(id))
      else if s.e.objects[id].abortInt then r == s
      else AsksAndNotes(s, false, id, CloseStream, s.e.objects[id].(closeInt := true), r)
  {
    CloseIsCalled(s, id, immediate);
    AbortIsCalled(s, id);
    if id in s.e.streams {
      assert StreamHeld(s.e, id);
      if !s.e.objects[id].closeInt && StateOf(s.e, id) != Idle && StateOf(s.e, id) != SepState.Configured
        && !(immediate && Concerns(s.q, id))
      {
        CloseSent(s, id, immediate);
      }
    }
  }

  /** The stream that comes with a configuration request: last in the list, held by both end points. */
  ghost predicate Chooses(e: Ends, lsep: nat, rsep: nat, r: Ends) {
    && lsep in e.lseps && rsep in e.seps
    && r.streams == e.streams + [e.created] && r.created == e.created + 1 && r.pendingOpen == e.pendingOpen
    && r.objects == e.objects[e.created := Stream(lsep, rsep, false, false, false, false, false,
          e.seps[rsep].delayReporting && e.lseps[lsep].delayReporting, false, false)]
    && r.lseps == e.lseps[lsep := LocalSep(e.lseps[lsep].state, Some(e.created), true, e.lseps[lsep].sink,
          e.lseps[lsep].delayReporting)]
    && r.seps == e.seps[rsep := RemoteSep(Some(e.created), e.seps[rsep].delayReporting)]
  }

  /** A configuration for a local and a remote end point that are both there: the new stream stays exactly if its request
      is accepted. */
  lemma SetConfigurationAsks(s: Session, lsep: nat, rsep: nat)
    requires Between(s) && (lsep in s.e.lseps ==> s.e.lseps[lsep].stream.None?)
    ensures var r := Step(s, CallSetConfiguration(lsep, rsep));
      if lsep in s.e.lseps && rsep in s.e.seps then
        && r == s.(q := r.q, e := r.e)
        && Asked(s.q, false, Some(s.e.created), SetConfiguration, rsep, r.q)
        && if TakesRequest(s.q) then Chooses(s.e, lsep, rsep, r.e) else Abandons(s.e, rsep, r.e)
      else r == s
  {
    if lsep in s.e.lseps && rsep in s.e.seps {
      AskedExactlyWhen(s.q, false, Some(s.e.created), false, SetConfiguration, rsep);
      AbandonAbandons(s.e, lsep, rsep, s.e.seps[rsep].delayReporting && s.e.lseps[lsep].delayReporting);
    }
  }
}
