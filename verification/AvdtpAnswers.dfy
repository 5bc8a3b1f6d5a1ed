/** What the answers of the peer do to a session. */
module AvdtpAnswers {
  import opened AvdtpEffects
  import opened AvdtpHandlers
  import opened AvdtpLosses
  import opened AvdtpRequests
  import opened AvdtpRequestSteps
  import opened AvdtpRuns
  import opened AvdtpStates
  import opened Options

  /** An answer to the outstanding request carries its transaction and signal. */
  predicate AnswersIt(s: Session, transaction: nat, signal: Signal) {
    s.q.outstanding.Some? && s.q.outstanding.value.transaction == transaction && s.q.outstanding.value.signal == signal
  }

  /** The session while the answer to its outstanding request is processed: the timer of the request is stopped. */
  lemma AnswerMatches(s: Session, transaction: nat, signal: Signal) returns (t: Session)
    requires Inv(s) && AnswersIt(s, transaction, signal)
    ensures t == StopTimer(s) && Inv(t) && InProcess(t.q)
    ensures t == s.(q := s.q.(outstanding := Some(s.q.outstanding.value.(timed := false))))
  {
    t := StopTimer(s);
  }

  /** An answer under another transaction, of another signal, or when nothing is outstanding changes nothing. */
  lemma StrayAnswer(s: Session, transaction: nat, signal: Signal, a: Answer)
    requires Between(s) && s.listening && !AnswersIt(s, transaction, signal)
    ensures Step(s, PeerAnswer(transaction, signal, a)) == s
  {
  }

  /** An answer that is processed ends its request, and the next one is handed over; what it did to streams and end points
      stays. */
  ghost predicate Settles(s: Session, u: Session, r: Session) {
    && s.q.outstanding.Some? && r == u.(q := r.q)
    && NextHandedOver(u.q.(outstanding := None, freed := u.q.freed + [s.q.outstanding.value.id]), r.q)
  }

  lemma AnswerEnds(s: Session, transaction: nat, signal: Signal, a: Answer, t: Session, u: Session)
    requires Between(s) && s.listening && AnswersIt(s, transaction, signal) && t == StopTimer(s)
    requires Processed(t, a) == (u, true)
    ensures Settles(s, u, Step(s, PeerAnswer(transaction, signal, a)))
  {
    AnsweredHandsOver(u.q);
  }

  /** Three kinds of answers break the connection instead: a rejected abort, a rejection that is too short, but for that of
      a security control, and a list of capabilities that is too short. The request then stays for good. */
  lemma AnswerBreaks(s: Session, transaction: nat, signal: Signal, a: Answer)
    requires Between(s) && s.listening && AnswersIt(s, transaction, signal)
    requires (a.Reject? && signal != SecurityControl && (a.short || signal == AbortStream))
      || (a.Accept? && a.short && (signal == GetCapabilities || signal == GetAllCapabilities))
    ensures var r := Step(s, PeerAnswer(transaction, signal, a));
      && r.e.streams == [] && !r.listening
      && r.q.outstanding == Some(s.q.outstanding.value.(timed := false))
  {
  }

  // ---------------------------------------------------------------- accepted requests

  /** What the acceptance of a request about a stream does: a configured end point is configured, and if it is a sink
      reports its delay; an opened one waits for the transport; a started one streams, unless it does already; a suspended
      one is open and a closed one closing; an aborted stream is given up. Nothing else changes a stream. */
  ghost predicate AcceptedBy(s: Session, signal: Signal, id: nat, r: Session)
    requires id in s.e.objects && s.e.objects[id].lsep in s.e.lseps && s.e.lseps[s.e.objects[id].lsep].stream == Some(id)
  {
    var x, k := s.e.objects[id], s.e.objects[id].lsep;
    match signal
    case SetConfiguration =>
      && Enters(s, k, SepState.Configured, r.(q := s.q))
      && (if s.e.lseps[k].sink && x.delayReporting && s.version13 && !x.abortInt then
            Asked(s.q, true, Some(id), DelayReport, x.rseid, r.q)
          else r.q == s.q)
    case OpenStream => r == s.(e := s.e.(pendingOpen := Some(id)))
    case StartStream => if s.e.lseps[k].state == Streaming then r == s else Enters(s, k, Streaming, r)
    case SuspendStream => Enters(s, k, Open, r)
    case CloseStream => Enters(s, k, Closing, r)
    case AbortStream => GivenUp(s, k, r)
    case _ => r == s
  }

  lemma AbortGivesUp(s: Session, id: nat, k: nat)
    requires Inv(s) && InProcess(s.q) && id in s.e.streams && id in s.e.objects && s.e.objects[id].lsep == k
    requires k in s.e.lseps && s.e.lseps[k].stream == Some(id)
    ensures GivenUp(s, k, AbortAccepted(s, k))
  {
    StateEntered(s, k, Aborting);
    var aborting := SetSepState(s, k, Aborting);
    IdleEntered(aborting, k);
    AbortedAndFreed(s, k, id, aborting, AbortAccepted(s, k));
  }

  lemma AbortedAndFreed(s: Session, k: nat, id: nat, t: Session, r: Session)
    requires k in s.e.lseps && s.e.lseps[k].stream == Some(id) && id in s.e.objects
    requires Enters(s, k, Aborting, t) && GivenUp(t, k, r)
    ensures GivenUp(s, k, r)
  {
    assert t.e.objects - {id} == s.e.objects - {id};
  }

  lemma AcceptanceDoes(s: Session, signal: Signal, id: nat)
    requires Inv(s) && InProcess(s.q) && id in s.e.streams
    ensures id in s.e.objects && s.e.objects[id].lsep in s.e.lseps && s.e.lseps[s.e.objects[id].lsep].stream == Some(id)
    ensures AcceptedBy(s, signal, id, StreamAccepted(s, signal, id))
  {
    assert StreamHeld(s.e, id);
    var k := s.e.objects[id].lsep;
    match signal
    case SetConfiguration => ConfiguredEntered(s, k);
    case SuspendStream => StateEntered(s, k, Open);
    case StartStream => StateEntered(s, k, Streaming);
    case CloseStream => StateEntered(s, k, Closing);
    case AbortStream => AbortGivesUp(s, id, k);
    case _ =>
  }

  /** An accepted request about a stream. */
  lemma AcceptStep(s: Session, transaction: nat, signal: Signal, a: Answer) returns (t: Session, u: Session, id: nat)
    requires Between(s) && s.listening && AnswersIt(s, transaction, signal) && a.Accept?
    requires s.q.outstanding.value.stream.Some? && signal != DiscoverSeps && signal != GetCapabilities
    requires signal != GetAllCapabilities
    ensures s.q.outstanding.value.stream == Some(id)
    ensures t == s.(q := s.q.(outstanding := Some(s.q.outstanding.value.(timed := false))))
    ensures id in t.e.objects && t.e.objects[id].lsep in t.e.lseps && t.e.lseps[t.e.objects[id].lsep].stream == Some(id)
    ensures AcceptedBy(t, signal, id, u) && Settles(s, u, Step(s, PeerAnswer(transaction, signal, a)))
  {
    t := AnswerMatches(s, transaction, signal);
    id := s.q.outstanding.value.stream.value;
    AcceptanceDoes(t, signal, id);
    u := StreamAccepted(t, signal, id);
    AnswerEnds(s, transaction, signal, a, t, u);
  }

  /** An accepted request that names no stream, or none any more, changes none. */
  lemma ForgottenStep(s: Session, transaction: nat, signal: Signal, a: Answer) returns (t: Session)
    requires Between(s) && s.listening && AnswersIt(s, transaction, signal) && a.Accept?
    requires s.q.outstanding.value.stream.None? && signal != DiscoverSeps && signal != GetCapabilities
    requires signal != GetAllCapabilities
    ensures t == s.(q := s.q.(outstanding := Some(s.q.outstanding.value.(timed := false))))
    ensures Settles(s, t, Step(s, PeerAnswer(transaction, signal, a)))
  {
    t := AnswerMatches(s, transaction, signal);
    AnswerEnds(s, transaction, signal, a, t, t);
  }

  /** A list of capabilities says whether the remote end point, if it is known, has delay reporting. */
  lemma CapabilitiesStep(s: Session, transaction: nat, signal: Signal, a: Answer) returns (u: Session)
    requires Between(s) && s.listening && AnswersIt(s, transaction, signal) && a.Accept? && !a.short
    requires signal == GetCapabilities || signal == GetAllCapabilities
    ensures var k := s.q.outstanding.value.seid;
      u == s.(q := s.q.(outstanding := Some(s.q.outstanding.value.(timed := false))),
        e := if k in s.e.seps then s.e.(seps := s.e.seps[k := RemoteSep(s.e.seps[k].stream, a.delay)]) else s.e)
    ensures Settles(s, u, Step(s, PeerAnswer(transaction, signal, a)))
  {
    var t := AnswerMatches(s, transaction, signal);
    u := Processed(t, a).0;
    AnswerEnds(s, transaction, signal, a, t, u);
  }

  // ---------------------------------------------------------------- rejected requests

  /** A rejected start or close is not under way any more; other rejections change nothing. */
  lemma RejectStep(s: Session, transaction: nat, signal: Signal, a: Answer) returns (u: Session)
    requires Between(s) && s.listening && AnswersIt(s, transaction, signal)
    requires a.GeneralReject? || (a.Reject? && (signal == SecurityControl || (!a.short && signal != AbortStream)))
    ensures var stream := s.q.outstanding.value.stream;
      u == s.(q := s.q.(outstanding := Some(s.q.outstanding.value.(timed := false))), e := u.e)
      && if a.Reject? && stream.Some? && (signal == StartStream || signal == CloseStream) then
          && stream.value in s.e.objects
          && var x := s.e.objects[stream.value];
            u.e == s.e.(objects := s.e.objects[stream.value :=
              if signal == StartStream then x.(starting := false) else x.(closeInt := false)])
        else u.e == s.e
    ensures Settles(s, u, Step(s, PeerAnswer(transaction, signal, a)))
  {
    var t := AnswerMatches(s, transaction, signal);
    if s.q.outstanding.value.stream.Some? {
      assert StreamHeld(t.e, s.q.outstanding.value.stream.value);
    }
    u := Processed(t, a).0;
    AnswerEnds(s, transaction, signal, a, t, u);
  }

  // ---------------------------------------------------------------- discovery

  /** The stream is the first of the session's list with that remote end point, if there is one. */
  ghost predicate StandsFor(e: Ends, seid: nat, stream: Option<nat>) {
    && (forall x <- e.streams :: x in e.objects)
    && if stream.None? then forall x <- e.streams :: e.objects[x].rseid != seid
       else exists j :: 0 <= j < |e.streams| && FirstWith(e, e.streams, seid, j) && stream.value == e.streams[j]
  }

  /** An end point that was found: one that is not known yet, in use, and without a stream of this session is passed over.
      Any other is recorded, with its stream if there is one, and its capabilities are asked for, all of them from version
      1.3 on. */
  ghost predicate FindsOne(s: Session, f: Found, stream: Option<nat>, r: Session) {
    if f.seid !in s.e.seps && f.inuse && stream.None? then r == s
    else
      && r == s.(q := r.q, e := r.e)
      && r.e == s.e.(seps := s.e.seps[f.seid := RemoteSep(stream, f.seid in s.e.seps && s.e.seps[f.seid].delayReporting)])
      && Asked(s.q, true, None, if s.version13 then GetAllCapabilities else GetCapabilities, f.seid, r.q)
  }

  lemma FoundOne(s: Session, f: Found) returns (stream: Option<nat>)
    requires Inv(s) && InProcess(s.q)
    ensures StandsFor(s.e, f.seid, stream) && FindsOne(s, f, stream, DiscoverAnswer(s, [f]))
  {
    stream := FindByRseid(s.e, s.e.streams, f.seid);
    var j := FoundIsFirst(s.e, s.e.streams, f.seid);
    AskedExactlyWhen(s.q, true, None, false, if s.version13 then GetAllCapabilities else GetCapabilities, f.seid);
    assert [f][1..] == [];
    var asked := DiscoverOne(s, f).0;
    assert DiscoverAnswer(asked, []) == asked;
  }

  /** The end points found are taken one after the other, whatever comes before and behind. */
  lemma {:induction false} FoundInOrder(s: Session, before: seq<Found>, after: seq<Found>)
    requires Inv(s) && InProcess(s.q)
    ensures DiscoverAnswer(s, before + after) == DiscoverAnswer(DiscoverAnswer(s, before), after)
    decreases |before|
  {
    if before == [] {
      assert before + after == after;
    } else {
      assert (before + after)[0] == before[0] && (before + after)[1..] == before[1..] + after;
      FoundInOrder(DiscoverOne(s, before[0]).0, before[1..], after);
    }
  }

  lemma DiscoverStep(s: Session, transaction: nat, a: Answer) returns (t: Session)
    requires Between(s) && s.listening && AnswersIt(s, transaction, DiscoverSeps) && a.Accept?
    ensures t == s.(q := s.q.(outstanding := Some(s.q.outstanding.value.(timed := false))))
    ensures Inv(t) && InProcess(t.q)
    ensures Settles(s, DiscoverAnswer(t, a.found), Step(s, PeerAnswer(transaction, DiscoverSeps, a)))
  {
    t := AnswerMatches(s, transaction, DiscoverSeps);
    AnswerEnds(s, transaction, DiscoverSeps, a, t, DiscoverAnswer(t, a.found));
  }
}
