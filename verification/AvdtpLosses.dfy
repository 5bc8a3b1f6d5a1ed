/** What transports, timers and the loss of the connection do to a session. */
module AvdtpLosses {
  import opened AvdtpCalls
  import opened AvdtpEffects
  import opened AvdtpHandlers
  import opened AvdtpRequests
  import opened AvdtpRequestSteps
  import opened AvdtpRuns
  import opened AvdtpStates
  import opened Options
  import opened Sequences

  // ---------------------------------------------------------------- transports

  /** The transport of the stream that is being opened puts its end point into the open state, stops the timer and ends
      the wait; any other transport is turned away. */
  lemma TransportUpStep(s: Session, id: nat)
    requires Between(s) && id in s.e.streams
    ensures id in s.e.objects && s.e.objects[id].lsep in s.e.lseps
    ensures var r, k := Step(s, TransportUp(id)), s.e.objects[id].lsep;
      if s.e.pendingOpen != Some(id) then r == s
      else
        r == s.(e := s.e.(pendingOpen := None,
          lseps := s.e.lseps[k := s.e.lseps[k].(state := Open)],
          objects := s.e.objects[id := s.e.objects[id].(timer := false, starting := false, connected := true)]))
  {
    assert StreamHeld(s.e, id);
    TransportIsUp(s, id, TransportUp(id));
    if s.e.pendingOpen == Some(id) {
      var k := s.e.objects[id].lsep;
      var cleared := s.(e := ClearPending(s.e, id));
      StateEntered(cleared, k, Open);
      OpensInAll(s, id, k, cleared, SetSepState(cleared, k, Open), SetTransport(s, id));
    }
  }

  lemma TransportIsUp(s: Session, id: nat, ev: Event)
    requires Between(s) && id in s.e.streams && ev == TransportUp(id)
    ensures Step(s, ev) == SetTransport(s, id)
  {
  }

  lemma OpensInAll(s: Session, id: nat, k: nat, cleared: Session, t: Session, r: Session)
    requires id in s.e.objects && k in s.e.lseps && s.e.lseps[k].stream == Some(id)
    requires cleared == s.(e := s.e.(pendingOpen := None, objects := s.e.objects[id := s.e.objects[id].(timer := false)]))
    requires Enters(cleared, k, Open, t)
    requires r == t.(e := t.e.(objects := t.e.objects[id := t.e.objects[id].(connected := true)]))
    ensures r == s.(e := s.e.(pendingOpen := None,
      lseps := s.e.lseps[k := s.e.lseps[k].(state := Open)],
      objects := s.e.objects[id := s.e.objects[id].(timer := false, starting := false, connected := true)]))
  {
    assert r.e.objects[id] == s.e.objects[id].(timer := false, starting := false, connected := true);
  }

  /** The end of its transport gives a stream up, unless it is being aborted by this side. */
  lemma TransportDownStep(s: Session, id: nat)
    requires Between(s) && Enabled(s, TransportDown(id))
    ensures s.e.objects[id].lsep in s.e.lseps
    ensures var r, k := Step(s, TransportDown(id)), s.e.objects[id].lsep;
      && s.e.lseps[k].stream == Some(id)
      && if s.e.objects[id].abortInt then
          r == s.(e := s.e.(objects := s.e.objects[id := s.e.objects[id].(connected := false)]))
        else GivenUp(s, k, r)
  {
    assert StreamHeld(s.e, id);
    TransportIsDown(s, id, TransportDown(id));
    var k := s.e.objects[id].lsep;
    if !s.e.objects[id].abortInt {
      var closed := Change(s, id, s.e.objects[id].(connected := false));
      IdleEntered(closed, k);
      FlagIsFreed(s, k, id, closed, SetSepState(closed, k, Idle));
    }
  }

  lemma TransportIsDown(s: Session, id: nat, ev: Event)
    requires Between(s) && ev == TransportDown(id) && Enabled(s, ev)
    ensures Step(s, ev) == TransportLost(s, id)
  {
  }

  /** A flag of a stream that is given up does not matter. */
  lemma FlagIsFreed(s: Session, k: nat, id: nat, t: Session, r: Session)
    requires k in s.e.lseps && s.e.lseps[k].stream == Some(id) && id in s.e.objects
    requires id in t.e.objects && t == s.(e := s.e.(objects := s.e.objects[id := t.e.objects[id]]))
    requires t.e.objects[id].rseid == s.e.objects[id].rseid
    requires GivenUp(t, k, r)
    ensures GivenUp(s, k, r)
  {
    assert t.e.objects - {id} == s.e.objects - {id};
  }

  // ---------------------------------------------------------------- timers

  lemma CloseTimeoutStep(s: Session, id: nat)
    requires Between(s) && id in s.e.streams
    ensures id in s.e.objects
    ensures Step(s, CloseTimesOut(id)) == s.(e := s.e.(objects := s.e.objects[id := s.e.objects[id].(timer := false)]))
  {
    assert StreamHeld(s.e, id);
    CloseIsOver(s, id, CloseTimesOut(id));
  }

  lemma CloseIsOver(s: Session, id: nat, ev: Event)
    requires Between(s) && id in s.e.streams && ev == CloseTimesOut(id)
    ensures Step(s, ev) == CloseTimeout(s, id)
  {
  }

  /** When the peer did not open the transport in time nobody waits for one any more, and the stream is aborted. */
  lemma OpenTimeoutStep(s: Session, id: nat) returns (t: Session)
    requires Between(s) && id in s.e.streams
    ensures id in s.e.objects
    ensures t == s.(e := s.e.(pendingOpen := None, objects := s.e.objects[id := s.e.objects[id].(timer := false)]))
    ensures Between(t) && Step(s, OpenTimesOut(id)) == Step(t, CallAbort(id))
  {
    assert StreamHeld(s.e, id);
    OpenIsOver(s, id, OpenTimesOut(id));
    var stopped := Change(s, id, s.e.objects[id].(timer := false));
    t := stopped.(e := stopped.e.(pendingOpen := None));
    AbortIsCalled(t, id);
  }

  lemma OpenIsOver(s: Session, id: nat, ev: Event)
    requires Between(s) && id in s.e.streams && ev == OpenTimesOut(id)
    ensures Step(s, ev) == OpenTimeout(s, id)
  {
  }

  /** A start that was put off is made up for, without regard to who opened the stream. */
  lemma StartTimeoutStep(s: Session, id: nat) returns (t: Session)
    requires Between(s) && Enabled(s, StartTimesOut(id))
    ensures t == s.(e := s.e.(objects := s.e.objects[id := s.e.objects[id].(openAcp := false)])) && Between(t)
    ensures var u := Step(t, CallStart(id));
      && id in u.e.objects
      && Step(s, StartTimesOut(id)) == u.(e := u.e.(objects := u.e.objects[id := u.e.objects[id].(startTimer := false)]))
  {
    assert StreamHeld(s.e, id);
    StartIsDue(s, id, StartTimesOut(id));
    t := Change(s, id, s.e.objects[id].(openAcp := false));
    StartIsCalled(t, id);
    assert StreamHeld(Start(t, id).e, id);
  }

  lemma StartIsDue(s: Session, id: nat, ev: Event)
    requires Between(s) && ev == StartTimesOut(id) && Enabled(s, ev)
    ensures Step(s, ev) == StartTimeout(s, id)
  {
  }

  lemma StartIsCalled(s: Session, id: nat)
    requires Between(s)
    ensures Step(s, CallStart(id)) == Start(s, id)
  {
  }

  // ---------------------------------------------------------------- the loss of the connection

  /** What is left of the requests when the streams `ids` are gone: in the queues those that name none of them; and of the
      outstanding one, if it names one of them and its answer is not being processed, only an abort, without its stream. */
  ghost predicate Forgotten(q: Requests, ids: seq<nat>, r: Requests) {
    && r == q.(outstanding := r.outstanding, prio := r.prio, normal := r.normal, freed := r.freed)
    && (forall x :: x in r.prio <==> x in q.prio && (x.stream.Some? ==> x.stream.value !in ids))
    && (forall x :: x in r.normal <==> x in q.normal && (x.stream.Some? ==> x.stream.value !in ids))
    && r.outstanding ==
      if q.outstanding.None? || !q.outstanding.value.timed || q.outstanding.value.stream.None?
        || q.outstanding.value.stream.value !in ids then q.outstanding
      else if q.outstanding.value.signal == AbortStream then Some(q.outstanding.value.(stream := None))
      else None
  }

  /** What is left of the end points: local ones that held one of the streams are free and idle, the others as they were;
      no remote one has one of them any more, or a new one; the records of all other streams are as they were. */
  ghost predicate EndsReleased(e: Ends, ids: seq<nat>, r: Ends) {
    && r.lseps.Keys == e.lseps.Keys && r.seps.Keys == e.seps.Keys && r.created == e.created
    && (forall x :: x in r.objects <==> x in e.objects && x !in ids)
    && (forall x <- r.objects :: x in e.objects && r.objects[x] == e.objects[x])
    && (forall k <- e.lseps :: r.lseps[k] ==
          if e.lseps[k].stream.Some? && e.lseps[k].stream.value in ids then
            LocalSep(Idle, None, false, e.lseps[k].sink, e.lseps[k].delayReporting)
          else e.lseps[k])
    && (forall k <- e.seps ::
          && r.seps[k].delayReporting == e.seps[k].delayReporting
          && (r.seps[k].stream == None || (r.seps[k].stream == e.seps[k].stream && e.seps[k].stream.value !in ids)))
    && r.pendingOpen == if e.pendingOpen.Some? && e.pendingOpen.value in ids then None else e.pendingOpen
  }

  lemma GivingUpForgets(q: Requests, id: nat)
    ensures Forgotten(q, [id],
      CleanupQueue(if q.outstanding.Some? && q.outstanding.value.stream == Some(id) then HandleUnanswered(q) else q, id))
  {
    var p := if q.outstanding.Some? && q.outstanding.value.stream == Some(id) then HandleUnanswered(q) else q;
    CleanupTouches(p, id);
    if q.outstanding.Some? {
      UnansweredExactlyWhen(q);
    }
  }

  lemma FirstOrLater(ids: seq<nat>)
    requires ids != []
    ensures forall x :: x in ids <==> x == ids[0] || x in ids[1..]
  {
    assert ids == [ids[0]] + ids[1..];
  }

  lemma ForgottenOn(q: Requests, ids: seq<nat>, p: Requests, r: Requests)
    requires ids != [] && Forgotten(q, [ids[0]], p) && Forgotten(p, ids[1..], r)
    ensures Forgotten(q, ids, r)
  {
    FirstOrLater(ids);
  }

  lemma GivenUpReleases(s: Session, k: nat, r: Session)
    requires Inv(s) && k in s.e.lseps && s.e.lseps[k].stream.Some? && s.e.lseps[k].stream.value in s.e.objects
    requires GivenUp(s, k, r)
    ensures EndsReleased(s.e, [s.e.lseps[k].stream.value], r.e)
  {
    var id := s.e.lseps[k].stream.value;
    assert SepSound(s.e, k);
    forall j | j in s.e.lseps && s.e.lseps[j].stream == Some(id) ensures j == k {
      assert SepSound(s.e, j);
    }
    forall j | j in s.e.seps && s.e.seps[j].stream == Some(id) ensures j == s.e.objects[id].rseid {
      assert RemoteSound(s.e, j);
    }
  }

  lemma ReleasedOn(e: Ends, ids: seq<nat>, d: Ends, r: Ends)
    requires ids != [] && EndsReleased(e, [ids[0]], d) && EndsReleased(d, ids[1..], r)
    ensures EndsReleased(e, ids, r)
  {
    FirstOrLater(ids);
  }

  lemma ReleaseOne(s: Session, id: nat) returns (k: nat, next: Session)
    requires Inv(s) && id in s.e.streams
    ensures id in s.e.objects && s.e.objects[id].lsep == k && k in s.e.lseps && s.e.lseps[k].stream == Some(id)
    ensures Inv(next) && next == SetSepState(s, k, Idle) && GivenUp(s, k, next)
    ensures forall x :: x in next.e.streams <==> x in s.e.streams && x != id
  {
    assert StreamHeld(s.e, id);
    k := s.e.objects[id].lsep;
    next := SetSepState(s, k, Idle);
    IdleEntered(s, k);
  }

  lemma ReleaseAllNext(s: Session, ids: seq<nat>, k: nat, next: Session)
    requires Inv(s) && ids != [] && Distinct(ids) && forall x <- ids :: x in s.e.streams
    requires k in s.e.lseps && ids[0] in s.e.objects && s.e.objects[ids[0]].lsep == k && next == SetSepState(s, k, Idle)
    requires Inv(next) && forall x :: x in next.e.streams <==> x in s.e.streams && x != ids[0]
    ensures (forall x <- ids[1..] :: x in next.e.streams) && ReleaseAll(s, ids) == ReleaseAll(next, ids[1..])
  {
  }

  lemma ReleaseRest(s: Session, ids: seq<nat>, r: Session) returns (k: nat, next: Session)
    requires Inv(s) && ids != [] && Distinct(ids) && (forall x <- ids :: x in s.e.streams) && r == ReleaseAll(s, ids)
    ensures k in s.e.lseps && s.e.lseps[k].stream == Some(ids[0]) && ids[0] in s.e.objects
    ensures Inv(next) && (forall x <- ids[1..] :: x in next.e.streams) && r == ReleaseAll(next, ids[1..])
    ensures GivenUp(s, k, next)
  {
    k, next := ReleaseOne(s, ids[0]);
    ReleaseAllNext(s, ids, k, next);
  }

  lemma {:induction false} ReleaseAllReleases(s: Session, ids: seq<nat>, r: Session)
    requires Inv(s) && Distinct(ids) && (forall x <- ids :: x in s.e.streams) && r == ReleaseAll(s, ids)
    ensures EndsReleased(s.e, ids, r.e)
    decreases |ids|
  {
    if ids == [] {
      NothingReleased(s);
    } else {
      var k, next := ReleaseRest(s, ids, r);
      GivenUpReleases(s, k, next);
      ReleaseAllReleases(next, ids[1..], r);
      ReleasedOn(s.e, ids, next.e, r.e);
    }
  }

  lemma {:induction false} ReleaseAllForgets(s: Session, ids: seq<nat>, r: Session)
    requires Inv(s) && Distinct(ids) && (forall x <- ids :: x in s.e.streams) && r == ReleaseAll(s, ids)
    ensures Forgotten(s.q, ids, r.q)
    decreases |ids|
  {
    if ids == [] {
      NothingReleased(s);
    } else {
      var k, next := ReleaseRest(s, ids, r);
      GivingUpForgets(s.q, ids[0]);
      ReleaseAllForgets(next, ids[1..], r);
      ForgottenOn(s.q, ids, next.q, r.q);
    }
  }

  lemma NothingReleased(s: Session)
    ensures EndsReleased(s.e, [], s.e) && Forgotten(s.q, [], s.q)
  {
  }

  /** The loss of the connection: every end point is free, and what the local ones are stays; nobody waits for a transport;
      requests are given up exactly if they name a stream, but one whose answer is being processed stays as it is and an
      outstanding abort without its stream. Nothing is sent. */
  lemma LostLeaves(s: Session)
    requires Inv(s)
    ensures var r := ConnectionLost(s);
      && r.e.streams == [] && r.e.pendingOpen == None && r.e.created == s.e.created
      && r.version13 == s.version13 && r.listening == s.listening
      && r.e.lseps.Keys == s.e.lseps.Keys && r.e.seps.Keys == s.e.seps.Keys
      && (forall k <- s.e.lseps ::
            r.e.lseps[k] == LocalSep(Idle, None, false, s.e.lseps[k].sink, s.e.lseps[k].delayReporting))
      && (forall k <- s.e.seps :: r.e.seps[k] == RemoteSep(None, s.e.seps[k].delayReporting))
      && (forall x :: x in r.e.objects <==> x in s.e.objects && x !in s.e.streams)
      && Forgotten(s.q, s.e.streams, r.q)
  {
    var r := ConnectionLost(s);
    ReleaseAllReleases(s, s.e.streams, r);
    ReleaseAllForgets(s, s.e.streams, r);
    forall k | k in s.e.lseps
      ensures r.e.lseps[k] == LocalSep(Idle, None, false, s.e.lseps[k].sink, s.e.lseps[k].delayReporting)
    {
      assert SepSound(s.e, k);
    }
    forall k | k in s.e.seps ensures r.e.seps[k] == RemoteSep(None, s.e.seps[k].delayReporting) {
      assert RemoteSound(s.e, k);
    }
  }

  lemma DisconnectedStep(s: Session, ev: Event)
    requires Between(s) && s.listening && ev == Disconnected
    ensures Step(s, ev) == ConnectionLost(s).(listening := false)
  {
  }

  // ---------------------------------------------------------------- a request that times out

  /** The first stream of a list with that remote end point. */
  predicate FirstWith(e: Ends, ids: seq<nat>, seid: nat, j: nat)
    requires forall x <- ids :: x in e.objects
  {
    j < |ids| && e.objects[ids[j]].rseid == seid && forall i :: 0 <= i < j ==> e.objects[ids[i]].rseid != seid
  }

  lemma {:induction false} FoundIsFirst(e: Ends, ids: seq<nat>, seid: nat) returns (j: nat)
    requires Core(e) && forall x <- ids :: x in e.streams
    ensures forall x <- ids :: x in e.objects
    ensures var found := FindByRseid(e, ids, seid);
      if found.None? then forall x <- ids :: e.objects[x].rseid != seid
      else FirstWith(e, ids, seid, j) && found == Some(ids[j])
  {
    j := 0;
    if ids != [] {
      assert StreamHeld(e, ids[0]);
      var k := FoundIsFirst(e, ids[1..], seid);
      if e.objects[ids[0]].rseid != seid {
        j := k + 1;
        if FindByRseid(e, ids[1..], seid).Some? {
          assert forall i :: 0 < i < j ==> ids[i] == ids[1..][i - 1];
        }
      }
    }
  }

  /** A request that is cancelled is given up. Its stream is marked as being aborted, and not any more as starting or
      closing if that is what was asked, and the peer is asked to abort it; but the connection is lost without a stream,
      for the requests that configure, discover and abort, and if the abort cannot be sent. */
  lemma CancelStep(s: Session, id: nat)
    requires Inv(s) && s.q.outstanding.Some? && id in s.e.streams
    requires s.q.outstanding.value.signal != DiscoverSeps && s.q.outstanding.value.seid != 0
    requires FindByRseid(s.e, s.e.streams, s.q.outstanding.value.seid) == Some(id)
    ensures id in s.e.objects
    ensures var r, req, x := CancelRequest(s), s.q.outstanding.value, s.e.objects[id];
      var q := s.q.(outstanding := None, freed := s.q.freed + [req.id]);
      if req.signal in {SetConfiguration, GetCapabilities, AbortStream} || !Sends(s.q) then r.e.streams == []
      else
        && r == s.(q := r.q, e := r.e)
        && r.e == s.e.(objects := s.e.objects[id := x.(abortInt := true,
              starting := x.starting && req.signal != StartStream, closeInt := x.closeInt && req.signal != CloseStream)])
        && Asked(q, true, Some(id), AbortStream, x.rseid, r.q)
  {
    assert StreamHeld(s.e, id);
    if !(s.q.outstanding.value.signal in {SetConfiguration, GetCapabilities, AbortStream}) {
      CancelAborts(s, id);
    }
  }

  lemma CancelAborts(s: Session, id: nat)
    requires Inv(s) && s.q.outstanding.Some? && id in s.e.streams && id in s.e.objects
    requires !(s.q.outstanding.value.signal in {DiscoverSeps, SetConfiguration, GetCapabilities, AbortStream})
    requires s.q.outstanding.value.seid != 0
    requires FindByRseid(s.e, s.e.streams, s.q.outstanding.value.seid) == Some(id)
    ensures var r, req, x := CancelRequest(s), s.q.outstanding.value, s.e.objects[id];
      if Sends(s.q) then
        && r == s.(q := r.q, e := r.e) && r.e == s.e.(objects := s.e.objects[id := Cancelled(x, req.signal)])
        && Asked(s.q.(outstanding := None, freed := s.q.freed + [req.id]), true, Some(id), AbortStream, x.rseid, r.q)
      else r.e.streams == []
  {
    var freed := FreeOutstanding(s);
    AskedExactlyWhen(freed.q, true, Some(id), true, AbortStream, s.e.objects[id].rseid);
  }

  /** Without a stream to abort the connection is lost. */
  lemma CancelLoses(s: Session)
    requires Inv(s) && s.q.outstanding.Some?
    requires s.q.outstanding.value.signal == DiscoverSeps || s.q.outstanding.value.seid == 0
      || forall x <- s.e.streams :: x in s.e.objects && s.e.objects[x].rseid != s.q.outstanding.value.seid
    ensures CancelRequest(s).e.streams == []
  {
    var first := FoundIsFirst(s.e, s.e.streams, s.q.outstanding.value.seid);
  }
}
