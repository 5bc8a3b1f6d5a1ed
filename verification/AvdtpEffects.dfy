/** What the operations every handler is made of change in a session, field by field, and that they change nothing
    else. */
module AvdtpEffects {
  import opened AvdtpHandlers
  import opened AvdtpRequests
  import opened AvdtpRequestSteps
  import opened AvdtpStates
  import opened Options
  import opened Sequences

  // ---------------------------------------------------------------- states

  /** The flags of a stream whose end point enters a state: the start timer is stopped on streaming, closing and aborting,
      streaming also ends the wait for the peer's start, and the open state ends the starting of the stream. */
  predicate FlagsEntering(x: Stream, state: SepState, y: Stream) {
    && y.lsep == x.lsep && y.rseid == x.rseid && y.timer == x.timer && y.closeInt == x.closeInt
    && y.abortInt == x.abortInt && y.delayReporting == x.delayReporting && y.connected == x.connected
    && y.startTimer == (x.startTimer && (state == Open || state == SepState.Configured))
    && y.openAcp == (x.openAcp && state != Streaming)
    && y.starting == (x.starting && state != Open)
  }

  /** The end point `k` is in a new state and the flags of its stream follow; nothing else has changed. */
  ghost predicate Enters(s: Session, k: nat, state: SepState, r: Session)
    requires k in s.e.lseps && s.e.lseps[k].stream.Some? && s.e.lseps[k].stream.value in s.e.objects
  {
    var sep, id := s.e.lseps[k], s.e.lseps[k].stream.value;
    && r == s.(e := r.e) && id in r.e.objects
    && r.e == s.e.(objects := r.e.objects, lseps := r.e.lseps)
    && r.e.lseps == s.e.lseps[k := LocalSep(state, sep.stream, sep.inuse, sep.sink, sep.delayReporting)]
    && r.e.objects == s.e.objects[id := r.e.objects[id]] && FlagsEntering(s.e.objects[id], state, r.e.objects[id])
  }

  lemma EnterEnters(s: Session, k: nat, state: SepState, r: Session)
    requires Inv(s) && k in s.e.lseps && s.e.lseps[k].stream.Some? && s.e.lseps[k].stream.value in s.e.objects
    requires r == EnterState(s, k, state)
    ensures Enters(s, k, state, r)
  {
  }

  lemma StateEntered(s: Session, k: nat, state: SepState)
    requires Inv(s) && k in s.e.lseps && s.e.lseps[k].stream.Some? && state != Idle && state != SepState.Configured
    ensures s.e.lseps[k].stream.value in s.e.objects
    ensures Enters(s, k, state, SetSepState(s, k, state))
  {
    assert SepSound(s.e, k);
    EnterEnters(s, k, state, EnterState(s, k, state));
  }

  /** A configured end point, if it is a sink, also reports its delay, if the stream has delay reporting and the session
      is of version 1.3. */
  lemma ConfiguredEntered(s: Session, k: nat)
    requires Inv(s) && k in s.e.lseps && s.e.lseps[k].stream.Some?
    ensures s.e.lseps[k].stream.value in s.e.objects
    ensures var r, id := SetSepState(s, k, SepState.Configured), s.e.lseps[k].stream.value;
      var x := s.e.objects[id];
      && Enters(s, k, SepState.Configured, r.(q := s.q))
      && if s.e.lseps[k].sink && x.delayReporting && s.version13 && !x.abortInt then
          Asked(s.q, true, Some(id), DelayReport, x.rseid, r.q)
        else r.q == s.q
  {
    assert SepSound(s.e, k);
    var id := s.e.lseps[k].stream.value;
    AskedExactlyWhen(s.q, true, Some(id), s.e.objects[id].abortInt, DelayReport, s.e.objects[id].rseid);
  }

  /** What is left when a stream is given up: its end points are free and the local one idle, its record is gone, no
      transport is awaited for it; its requests are cleaned up, and other streams and end points are as before. */
  ghost predicate GivenUp(s: Session, k: nat, r: Session)
    requires k in s.e.lseps && s.e.lseps[k].stream.Some? && s.e.lseps[k].stream.value in s.e.objects
  {
    var sep, id := s.e.lseps[k], s.e.lseps[k].stream.value;
    var rseid := s.e.objects[id].rseid;
    && r.version13 == s.version13 && r.listening == s.listening && r.e.created == s.e.created
    && r.e.streams == Drop(s.e.streams, id)
    && r.e.objects == s.e.objects - {id}
    && r.e.lseps == s.e.lseps[k := LocalSep(Idle, None, false, sep.sink, sep.delayReporting)]
    && r.e.seps == (if rseid in s.e.seps then s.e.seps[rseid := RemoteSep(None, s.e.seps[rseid].delayReporting)] else s.e.seps)
    && r.e.pendingOpen == (if s.e.pendingOpen == Some(id) then None else s.e.pendingOpen)
    && r.q == CleanupQueue(
        if s.q.outstanding.Some? && s.q.outstanding.value.stream == Some(id) then HandleUnanswered(s.q) else s.q, id)
  }

  lemma IdleEntered(s: Session, k: nat)
    requires Inv(s) && k in s.e.lseps && s.e.lseps[k].stream.Some?
    ensures s.e.lseps[k].stream.value in s.e.objects
    ensures GivenUp(s, k, SetSepState(s, k, Idle))
  {
    assert SepSound(s.e, k);
    var id := s.e.lseps[k].stream.value;
    var entered := EnterState(s, k, Idle);
    EnterEnters(s, k, Idle, entered);
    DiscardGivesUp(entered, id);
    IdleThenFree(s, k, id, entered, Discard(entered, id));
  }

  ghost predicate Discards(s: Session, id: nat, r: Session)
    requires id in s.e.objects && s.e.objects[id].lsep in s.e.lseps
  {
    var x := s.e.objects[id];
    && r.version13 == s.version13 && r.listening == s.listening && r.e.created == s.e.created
    && r.e.streams == Drop(s.e.streams, id)
    && r.e.objects == s.e.objects - {id}
    && r.e.lseps == s.e.lseps[x.lsep := s.e.lseps[x.lsep].(inuse := false, stream := None)]
    && r.e.seps == (if x.rseid in s.e.seps then s.e.seps[x.rseid := s.e.seps[x.rseid].(stream := None)] else s.e.seps)
    && r.e.pendingOpen == (if s.e.pendingOpen == Some(id) then None else s.e.pendingOpen)
    && r.q == CleanupQueue(
        if s.q.outstanding.Some? && s.q.outstanding.value.stream == Some(id) then HandleUnanswered(s.q) else s.q, id)
  }

  lemma DiscardGivesUp(s: Session, id: nat)
    requires Inv(s) && id in s.e.streams && StateOf(s.e, id) == Idle
    ensures id in s.e.objects && s.e.objects[id].lsep in s.e.lseps
    ensures Discards(s, id, Discard(s, id))
  {
    assert StreamHeld(s.e, id);
    var cleared := ClearPending(s.e, id);
    assert cleared.objects - {id} == s.e.objects - {id};
  }

  lemma IdleThenFree(s: Session, k: nat, id: nat, entered: Session, r: Session)
    requires k in s.e.lseps && s.e.lseps[k].stream == Some(id) && id in s.e.objects && s.e.objects[id].lsep == k
    requires Enters(s, k, Idle, entered) && Discards(entered, id, r)
    ensures GivenUp(s, k, r)
  {
    assert entered.e.objects - {id} == s.e.objects - {id};
  }

  // ---------------------------------------------------------------- collisions and answers

  /** The peer's command crosses an outstanding request of this side: the same one about the same end point, or an abort of
      it, of those that open, close, start or suspend a stream. */
  predicate Crosses(q: Requests, signal: Signal, rseid: nat) {
    && q.outstanding.Some?
    && q.outstanding.value.seid == rseid
    && q.outstanding.value.signal in {OpenStream, CloseStream, StartStream, SuspendStream}
    && (signal == q.outstanding.value.signal || signal == AbortStream)
  }

  /** The outstanding request is marked as collided if `crossed`; nothing else changes. */
  ghost predicate Marks(q: Requests, crossed: bool, r: Requests) {
    r == if crossed && q.outstanding.Some? then q.(outstanding := Some(q.outstanding.value.(collided := true))) else q
  }

  lemma CollideMarks(s: Session, signal: Signal, rseid: nat)
    requires Inv(s)
    ensures var r := Collide(s, signal, rseid); r == s.(q := r.q) && Marks(s.q, Crosses(s.q, signal, rseid), r.q)
  {
  }

  /** An answer to the peer goes out, or the send fails; either way only the channel has changed. */
  ghost predicate Answers(q: Requests, accepted: bool, signal: Signal, r: Requests, ok: bool) {
    && r == q.(sent := r.sent, faults := r.faults)
    && (ok <==> q.faults == [] || !q.faults[0])
    && r.sent == (if ok then q.sent + [Response(accepted, signal)] else q.sent)
    && r.faults == (if q.faults == [] then [] else q.faults[1..])
  }

  lemma ReplyAnswers(s: Session, accepted: bool, signal: Signal)
    requires Inv(s)
    ensures var (r, ok) := Reply(s, accepted, signal);
      r == s.(q := r.q) && Answers(s.q, accepted, signal, r.q, ok)
  {
  }
}
