/** What the peer's open, abort and configuration commands do to a session. */
module AvdtpStreamCommands {
  import opened AvdtpCommands
  import opened AvdtpEffects
  import opened AvdtpHandlers
  import opened AvdtpRequests
  import opened AvdtpRuns
  import opened AvdtpStates
  import opened Options

  // ---------------------------------------------------------------- open

  /** The stream of the end point waits for the peer's transport, with a timer. */
  ghost predicate AwaitsTransport(e: Ends, k: nat, r: Ends) {
    && k in e.lseps && e.lseps[k].stream.Some? && e.lseps[k].stream.value in e.objects
    && var id := e.lseps[k].stream.value;
      r == e.(objects := e.objects[id := e.objects[id].(openAcp := true, timer := true)], pendingOpen := Some(id))
  }

  lemma OpenAnswered(s: Session, k: nat) returns (u: Session, h: Session)
    requires Inv(s) && k in s.e.lseps && s.e.lseps[k].state == SepState.Configured
    ensures Commanded(s, OpenCmd(k, false)) == (h, Sends(s.q))
    ensures Sends(s.q) ==>
      && h == s.(q := h.q, e := h.e) && AwaitsTransport(s.e, k, h.e)
      && Answers(u.q, true, OpenStream, h.q, true)
    ensures Marks(s.q, Meets(s, OpenStream, k), u.q)
  {
    assert SepSound(s.e, k);
    var rseid := s.e.objects[s.e.lseps[k].stream.value].rseid;
    CollideMarks(s, OpenStream, rseid);
    u := Collide(s, OpenStream, rseid);
    ReplyAnswers(u, true, OpenStream);
    h := OpenCommand(s, k, false).0;
  }

  /** An open command is taken in the configured state, which it does not leave until the transport is there. */
  lemma OpenStep(s: Session, seid: nat, refused: bool)
    requires Between(s) && s.listening
    ensures var r := Step(s, PeerCommand(OpenCmd(seid, refused)));
      var takes := seid in s.e.lseps && s.e.lseps[seid].state == SepState.Configured && !refused;
      if !Sends(s.q) then r.e.streams == [] && !r.listening
      else
        && r.listening && (if takes then AwaitsTransport(s.e, seid, r.e) else r.e == s.e)
        && AfterCommand(s.q, takes && Meets(s, OpenStream, seid), Response(takes, OpenStream), r.q)
  {
    var c := OpenCmd(seid, refused);
    if seid in s.e.lseps && s.e.lseps[seid].state == SepState.Configured && !refused {
      var u, h := OpenAnswered(s, seid);
      if Sends(s.q) {
        CommandGoesOn(s, c, h);
        AnsweredCrossed(s.q, Meets(s, OpenStream, seid), u.q, true, OpenStream, h.q, Step(s, PeerCommand(c)).q);
      } else {
        CommandFails(s, c, h);
      }
    } else {
      CommandEnds(s, c, s, false, false, OpenStream);
    }
  }

  // ---------------------------------------------------------------- abort

  ghost predicate Aborts(e: Ends, k: nat, r: Ends) {
    && k in e.lseps && e.lseps[k].stream.Some? && e.lseps[k].stream.value in e.objects
    && var id := e.lseps[k].stream.value;
      && r == e.(lseps := r.lseps, objects := r.objects) && StatesMoved(e, [k], Aborting, r)
      && r.objects == e.objects[id := e.objects[id].(startTimer := false)]
  }

  lemma AbortAnswered(s: Session, k: nat) returns (u: Session, h: Session)
    requires Inv(s) && k in s.e.lseps && s.e.lseps[k].stream.Some?
    ensures s.e.lseps[k].stream.value in s.e.objects
    ensures Commanded(s, AbortCmd(k)) == (h, Sends(s.q))
    ensures Sends(s.q) ==>
      && h.listening == s.listening && Aborts(s.e, k, h.e) && Answers(u.q, true, AbortStream, h.q, true)
    ensures Marks(s.q, Meets(s, AbortStream, k), u.q)
  {
    assert SepSound(s.e, k);
    var rseid := s.e.objects[s.e.lseps[k].stream.value].rseid;
    u := Collide(s, AbortStream, rseid);
    CollideMarks(s, AbortStream, rseid);
    ReplyAnswers(u, true, AbortStream);
    var replied := Reply(u, true, AbortStream).0;
    StateEntered(replied, k, Aborting);
    EntersAborting(s.e, replied, k, SetSepState(replied, k, Aborting));
    h := AbortCommand(s, k).0;
  }

  lemma EntersAborting(e: Ends, s: Session, k: nat, r: Session)
    requires s.e == e && k in e.lseps && e.lseps[k].stream.Some? && e.lseps[k].stream.value in e.objects
    requires Enters(s, k, Aborting, r)
    ensures Aborts(e, k, r.e) && r == s.(e := r.e)
  {
  }

  /** An abort of a stream is answered first, and its end point is aborting if the answer went out; an abort of anything
      else is not answered. */
  lemma AbortStep(s: Session, seid: nat)
    requires Between(s) && s.listening
    ensures var r := Step(s, PeerCommand(AbortCmd(seid)));
      if seid !in s.e.lseps || s.e.lseps[seid].stream.None? then r == s.(q := r.q) && EndsCrossed(s.q, r.q)
      else if !Sends(s.q) then r.e.streams == [] && !r.listening
      else
        && r.listening && Aborts(s.e, seid, r.e)
        && AfterCommand(s.q, Meets(s, AbortStream, seid), Response(true, AbortStream), r.q)
  {
    var c := AbortCmd(seid);
    if seid !in s.e.lseps || s.e.lseps[seid].stream.None? {
      CommandGoesOn(s, c, s);
    } else {
      var u, h := AbortAnswered(s, seid);
      if Sends(s.q) {
        CommandGoesOn(s, c, h);
        AnsweredCrossed(s.q, Meets(s, AbortStream, seid), u.q, true, AbortStream, h.q, Step(s, PeerCommand(c)).q);
      } else {
        CommandFails(s, c, h);
      }
    }
  }

  // ---------------------------------------------------------------- configuration

  /** A new stream that did not come about has used up an identity, and the remote end point it named has no stream any
      more. */
  ghost predicate Abandons(e: Ends, rseid: nat, r: Ends) {
    r == e.(created := e.created + 1,
      seps := if rseid in e.seps then e.seps[rseid := RemoteSep(None, e.seps[rseid].delayReporting)] else e.seps)
  }

  /** The end point has a new stream, last in the list and with no flag set, and is configured. */
  ghost predicate Configures(e: Ends, k: nat, rseid: nat, delay: bool, r: Ends) {
    && k in e.lseps
    && r.streams == e.streams + [e.created] && r.created == e.created + 1
    && r.objects == e.objects[e.created := Stream(k, rseid, false, false, false, false, false, delay, false, false)]
    && r.lseps == e.lseps[k := LocalSep(SepState.Configured, Some(e.created), true, e.lseps[k].sink,
          e.lseps[k].delayReporting)]
    && r.seps == e.seps && r.pendingOpen == e.pendingOpen
  }

  lemma AbandonAbandons(e: Ends, k: nat, rseid: nat, delay: bool)
    requires Core(e) && k in e.lseps && e.lseps[k].stream.None?
    ensures Abandons(e, rseid, Abandon(e, NewStream(k, rseid, delay)))
  {
    assert SepSound(e, k);
    assert e.created !in e.objects;
    assert e.objects[e.created := NewStream(k, rseid, delay)] - {e.created} == e.objects;
    assert e.lseps[k := e.lseps[k].(inuse := false, stream := None)] == e.lseps;
  }

  lemma AdoptedThenConfigured(s: Session, k: nat, x: Stream, adopted: Session, r: Session)
    requires k in s.e.lseps && x.lsep == k && adopted == s.(e := Adopted(s.e, x, false))
    requires x == Stream(k, x.rseid, false, false, false, false, false, x.delayReporting, false, false)
    requires Enters(adopted, k, SepState.Configured, r.(q := adopted.q))
    ensures Configures(s.e, k, x.rseid, x.delayReporting, r.e) && r == s.(q := r.q, e := r.e)
  {
    assert r.e.objects[s.e.created] == x;
  }

  lemma ConfigureConfigures(s: Session, k: nat, rseid: nat, delay: bool)
    requires Inv(s) && k in s.e.lseps && s.e.lseps[k].stream.None?
    ensures var r := Configure(s, k, NewStream(k, rseid, delay));
      && r.1 && Configures(s.e, k, rseid, delay, r.0.e) && r.0 == s.(q := r.0.q, e := r.0.e)
      && s.q.sent <= r.0.q.sent
  {
    var x := NewStream(k, rseid, delay);
    var adopted := s.(e := Adopt(s.e, x, false));
    MoreLive(s.q, s.e.streams, adopted.e.streams);
    ConfiguredEntered(adopted, k);
    AdoptedThenConfigured(s, k, x, adopted, SetSepState(adopted, k, SepState.Configured));
  }

  lemma ConfigurationSent(s: Session, seid: nat, rseid: nat, delay: bool, verdict: Verdict) returns (h: Session)
    requires Inv(s) && seid in s.e.lseps && s.e.lseps[seid].stream.None? && verdict != Refuses && Sends(s.q)
    ensures Commanded(s, SetConfigurationCmd(seid, rseid, false, delay, verdict)) == (h, true)
    ensures h.listening == s.listening && h.version13 == (s.version13 || delay)
    ensures Configures(s.e, seid, rseid, delay, h.e) && NextIs(s.q, Response(true, SetConfiguration), h.q)
  {
    var raised := s.(version13 := s.version13 || delay);
    ReplyAnswers(raised, true, SetConfiguration);
    var replied := Reply(raised, true, SetConfiguration).0;
    ConfigureConfigures(replied, seid, rseid, delay);
    h := Configure(replied, seid, NewStream(seid, rseid, delay)).0;
  }

  lemma ConfigurationUnsent(s: Session, seid: nat, rseid: nat, delay: bool, verdict: Verdict) returns (h: Session)
    requires Inv(s) && seid in s.e.lseps && s.e.lseps[seid].stream.None? && verdict != Refuses && !Sends(s.q)
    ensures Commanded(s, SetConfigurationCmd(seid, rseid, false, delay, verdict)) == (h, verdict == Accepts)
    ensures h.listening == s.listening && h.version13 == (s.version13 || delay)
    ensures Abandons(s.e, rseid, h.e) && h.q.sent == s.q.sent
  {
    var raised := s.(version13 := s.version13 || delay);
    ReplyAnswers(raised, true, SetConfiguration);
    AbandonAbandons(s.e, seid, rseid, delay);
    var replied := Reply(raised, true, SetConfiguration).0;
    h := replied.(e := Abandon(s.e, NewStream(seid, rseid, delay)));
  }

  /** A configuration that is refused: only a malformed one leaves the version as it was. */
  lemma ConfigurationRefused(s: Session, seid: nat, rseid: nat, malformed: bool, delay: bool, verdict: Verdict)
    returns (u: Session)
    requires Inv(s) && (malformed || verdict == Refuses)
    requires seid in s.e.lseps && s.e.lseps[seid].stream.None?
    ensures Inv(u) && Commanded(s, SetConfigurationCmd(seid, rseid, malformed, delay, verdict)) == Reply(u, false, SetConfiguration)
    ensures u == s.(e := u.e, version13 := s.version13 || (delay && !malformed)) && Abandons(s.e, rseid, u.e)
  {
    AbandonAbandons(s.e, seid, rseid, delay);
    u := s.(e := Abandon(s.e, NewStream(seid, rseid, delay)), version13 := s.version13 || (delay && !malformed));
  }

  /** A configuration is taken for an end point that is there and has no stream, if it is well formed and the upper layer
      does not refuse. If the peer cannot be told so, nothing is configured; the connection is then lost unless the
      upper layer answered by itself. */
  lemma ConfigureStep(s: Session, seid: nat, rseid: nat, malformed: bool, delay: bool, verdict: Verdict)
    requires Between(s) && s.listening
    ensures var r := Step(s, PeerCommand(SetConfigurationCmd(seid, rseid, malformed, delay, verdict)));
      var free := seid in s.e.lseps && s.e.lseps[seid].stream.None?;
      var takes := free && !malformed && verdict != Refuses;
      if Sends(s.q) then
        && r.listening && NextIs(s.q, Response(takes, SetConfiguration), r.q)
        && (if takes then Configures(s.e, seid, rseid, delay, r.e)
            else if free then Abandons(s.e, rseid, r.e) else r.e == s.e)
        && r.version13 == (s.version13 || (delay && free && !malformed))
      else if takes && verdict == Accepts then r.listening && Abandons(s.e, rseid, r.e)
      else r.e.streams == [] && !r.listening
  {
    var c := SetConfigurationCmd(seid, rseid, malformed, delay, verdict);
    if seid !in s.e.lseps || s.e.lseps[seid].stream.Some? {
      RefusedStep(s, c, s);
    } else if malformed || verdict == Refuses {
      var u := ConfigurationRefused(s, seid, rseid, malformed, delay, verdict);
      RefusedStep(s, c, u);
    } else if Sends(s.q) {
      var h := ConfigurationSent(s, seid, rseid, delay, verdict);
      CommandGoesOn(s, c, h);
    } else {
      var h := ConfigurationUnsent(s, seid, rseid, delay, verdict);
      if verdict == Accepts {
        CommandGoesOn(s, c, h);
      } else {
        CommandFails(s, c, h);
      }
    }
  }

  lemma RefusedStep(s: Session, c: Command, u: Session)
    requires Between(s) && s.listening && Inv(u) && Commanded(s, c) == Reply(u, false, SetConfiguration)
    requires u == s.(e := u.e, version13 := u.version13)
    ensures var r := Step(s, PeerCommand(c));
      if Sends(s.q) then
        r == u.(q := r.q) && NextIs(s.q, Response(false, SetConfiguration), r.q)
      else r.e.streams == [] && !r.listening
  {
    CommandEnds(s, c, u, false, false, SetConfiguration);
  }

  // ---------------------------------------------------------------- commands without a state

  /** Any other command is answered once and changes no stream; one that is too short costs the connection. */
  lemma OtherStep(s: Session, signal: Signal, accepted: bool)
    requires Between(s) && s.listening
    ensures var r := Step(s, PeerCommand(OtherCmd(signal, accepted)));
      if Sends(s.q) then r == s.(q := r.q) && AfterCommand(s.q, false, Response(accepted, signal), r.q)
      else r.e.streams == [] && !r.listening
  {
    CommandEnds(s, OtherCmd(signal, accepted), s, false, accepted, signal);
  }

  lemma TooShortStep(s: Session)
    requires Between(s) && s.listening
    ensures Step(s, PeerCommand(TooShort)).e.streams == [] && !Step(s, PeerCommand(TooShort)).listening
  {
    CommandFails(s, TooShort, s);
  }
}
