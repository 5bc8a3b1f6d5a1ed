/** The timers of a session's streams. A record names the timer it has armed last. Freeing the record stops that one
    only, so a second open command of the peer can leave a timer behind. */
module AvdtpTimers {
  import opened AvdtpHandlers
  import opened AvdtpRequests
  import opened AvdtpRuns
  import opened AvdtpStates
  import opened Options
  import opened Sequences

  /** An armed timer of a stream, for its transport to open or to close. `known`: the stream's record names it. */
  datatype Timer = Timer(id: nat, opening: bool, known: bool)

  datatype Clocked = Clocked(s: Session, armed: seq<Timer>)

  /** A timer goes off, or something else happens. */
  datatype Turn = GoesOff(k: nat) | Happens(ev: Event)

  // ---------------------------------------------------------------- one turn

  predicate CanTurn(c: Clocked, turn: Turn)
    requires Between(c.s)
  {
    && (turn.GoesOff? ==> turn.k < |c.armed|)
    && (turn.Happens? ==> !turn.ev.OpenTimesOut? && !turn.ev.CloseTimesOut?)
    && Enabled(c.s, EventOf(c, turn))
  }

  function EventOf(c: Clocked, turn: Turn): Event
    requires turn.GoesOff? ==> turn.k < |c.armed|
  {
    match turn
    case Happens(ev) => ev
    case GoesOff(k) => if c.armed[k].opening then OpenTimesOut(c.armed[k].id) else CloseTimesOut(c.armed[k].id)
  }

  /** The timer a command of the peer arms, if it is accepted and the answer goes out. */
  function Arms(s: Session, ev: Event): Option<Timer> {
    match ev
    case PeerCommand(OpenCmd(seid, refused)) =>
      if seid in s.e.lseps && s.e.lseps[seid].stream.Some? && s.e.lseps[seid].state == Configured && !refused
         && Sends(s.q)
      then Some(Timer(s.e.lseps[seid].stream.value, true, true)) else None
    case PeerCommand(CloseCmd(seid, refused)) =>
      if seid in s.e.lseps && s.e.lseps[seid].stream.Some? && !refused && Sends(s.q)
         && (s.e.lseps[seid].state == Open || s.e.lseps[seid].state == Streaming)
      then Some(Timer(s.e.lseps[seid].stream.value, false, true)) else None
    case _ => None
  }

  /** The record of the stream does not name its timers any more. */
  function Forget(armed: seq<Timer>, id: nat): seq<Timer> {
    if armed == [] then []
    else [if armed[0].id == id then armed[0].(known := false) else armed[0]] + Forget(armed[1..], id)
  }

  predicate Stopped(t: Timer, e: Ends) {
    t.known && (t.id !in e.streams || t.id !in e.objects || !e.objects[t.id].timer)
  }

  /** Without the timers that records named and that were stopped. */
  function Running(armed: seq<Timer>, e: Ends): seq<Timer> {
    if armed == [] then [] else (if Stopped(armed[0], e) then [] else [armed[0]]) + Running(armed[1..], e)
  }

  /** The timers besides the one that goes off and the one that is armed, as their records know them then. */
  function Others(c: Clocked, turn: Turn): seq<Timer>
    requires Between(c.s) && CanTurn(c, turn)
  {
    var armed := Arms(c.s, EventOf(c, turn));
    if turn.GoesOff? then Forget(c.armed[..turn.k] + c.armed[turn.k + 1..], c.armed[turn.k].id)
    else if armed.Some? then Forget(c.armed, armed.value.id) else c.armed
  }

  function Turned(c: Clocked, turn: Turn): (r: Clocked)
    requires Between(c.s) && CanTurn(c, turn)
    ensures Between(r.s)
  {
    var ev := EventOf(c, turn);
    var s, armed := Step(c.s, ev), Arms(c.s, ev);
    Clocked(s, Running(Others(c, turn), s.e) + if armed.Some? then [armed.value] else [])
  }

  // ---------------------------------------------------------------- live timers

  /** The streams of all armed timers are in the session's list. */
  predicate TimersLive(c: Clocked) {
    forall t <- c.armed :: t.id in c.s.e.streams
  }

  /** The turn frees a stream that has a timer its record does not name. */
  predicate LosesTimer(c: Clocked, turn: Turn)
    requires Between(c.s) && CanTurn(c, turn)
  {
    exists t <- Others(c, turn) :: !t.known && t.id !in Step(c.s, EventOf(c, turn)).e.streams
  }

  lemma {:induction false} RunningMembers(armed: seq<Timer>, e: Ends)
    ensures forall t :: t in Running(armed, e) <==> t in armed && !Stopped(t, e)
  {
    if armed != [] {
      RunningMembers(armed[1..], e);
    }
  }

  lemma {:induction false} ForgetMembers(armed: seq<Timer>, id: nat)
    ensures forall t :: t in Forget(armed, id) ==>
      exists x <- armed :: t.id == x.id && t.opening == x.opening && (t.known ==> x.known)
    ensures forall t <- armed :: t.id != id ==> t in Forget(armed, id)
    ensures forall t <- armed :: t.id == id ==> t.(known := false) in Forget(armed, id)
  {
    if armed != [] {
      ForgetMembers(armed[1..], id);
    }
  }

  /** The stream whose timer is armed stays. */
  lemma OpeningStays(s: Session, seid: nat)
    requires Between(s) && s.listening && Arms(s, PeerCommand(OpenCmd(seid, false))).Some?
    ensures s.e.lseps[seid].stream.value in CommandRead(s, OpenCmd(seid, false)).e.streams
  {
    assert SepSound(s.e, seid);
  }

  lemma ClosingStays(s: Session, seid: nat)
    requires Between(s) && s.listening && Arms(s, PeerCommand(CloseCmd(seid, false))).Some?
    ensures s.e.lseps[seid].stream.value in CommandRead(s, CloseCmd(seid, false)).e.streams
  {
    assert SepSound(s.e, seid);
  }

  lemma ArmedStays(s: Session, ev: Event)
    requires Between(s) && Enabled(s, ev) && Arms(s, ev).Some?
    ensures Arms(s, ev).value.id in Step(s, ev).e.streams
  {
    match ev
    case PeerCommand(OpenCmd(seid, refused)) => OpeningStays(s, seid);
    case PeerCommand(CloseCmd(seid, refused)) => ClosingStays(s, seid);
  }

  /** A turn leaves every armed timer with a stream exactly if it frees none with a timer its record does not name. */
  lemma TurnLiveExactlyWhen(c: Clocked, turn: Turn)
    requires Between(c.s) && CanTurn(c, turn)
    ensures TimersLive(Turned(c, turn)) <==> !LosesTimer(c, turn)
  {
    var ev := EventOf(c, turn);
    RunningMembers(Others(c, turn), Step(c.s, ev).e);
    if Arms(c.s, ev).Some? {
      ArmedStays(c.s, ev);
    }
  }

  // ---------------------------------------------------------------- runs

  predicate CanTurnAll(c: Clocked, turns: seq<Turn>)
    requires Between(c.s)
    decreases |turns|
  {
    turns == [] || (CanTurn(c, turns[0]) && CanTurnAll(Turned(c, turns[0]), turns[1..]))
  }

  function TurnedAll(c: Clocked, turns: seq<Turn>): (r: Clocked)
    requires Between(c.s) && CanTurnAll(c, turns)
    ensures Between(r.s)
    decreases |turns|
  {
    if turns == [] then c else TurnedAll(Turned(c, turns[0]), turns[1..])
  }

  /** A timer is armed whose stream was freed; going off it refers to that. */
  predicate Orphaned(c: Clocked) {
    exists t <- c.armed :: !t.known && t.id !in c.s.e.streams && t.id < c.s.e.created
  }

  lemma OrphanStays(c: Clocked, turn: Turn)
    requires Between(c.s) && CanTurn(c, turn) && Orphaned(c)
    ensures Orphaned(Turned(c, turn))
  {
    var t :| t in c.armed && !t.known && t.id !in c.s.e.streams && t.id < c.s.e.created;
    var r := Turned(c, turn);
    OtherStays(c, turn, t);
    RunningMembers(Others(c, turn), r.s.e);
    assert t in r.armed;
  }

  /** A timer whose stream is gone cannot go off, and is not the one that is armed. */
  lemma OtherStays(c: Clocked, turn: Turn, t: Timer)
    requires Between(c.s) && CanTurn(c, turn) && t in c.armed && !t.known && t.id !in c.s.e.streams
    ensures t in Others(c, turn)
  {
    var armed := Arms(c.s, EventOf(c, turn));
    if turn.GoesOff? {
      var rest := c.armed[..turn.k] + c.armed[turn.k + 1..];
      assert c.armed == c.armed[..turn.k] + [c.armed[turn.k]] + c.armed[turn.k + 1..];
      assert t in rest;
      ForgetMembers(rest, c.armed[turn.k].id);
    } else if armed.Some? {
      ForgetMembers(c.armed, armed.value.id);
      assert t.(known := false) == t;
    }
  }

  lemma {:induction false} StaysOrphaned(c: Clocked, turns: seq<Turn>)
    requires Between(c.s) && CanTurnAll(c, turns) && Orphaned(c)
    ensures Orphaned(TurnedAll(c, turns))
    decreases |turns|
  {
    if turns != [] {
      OrphanStays(c, turns[0]);
      StaysOrphaned(Turned(c, turns[0]), turns[1..]);
    }
  }

  lemma LosesAtOnce(c: Clocked, turn: Turn)
    requires Between(c.s) && CanTurn(c, turn) && TimersLive(c) && LosesTimer(c, turn)
    ensures Orphaned(Turned(c, turn))
  {
    var ev, r := EventOf(c, turn), Turned(c, turn);
    var t :| t in Others(c, turn) && !t.known && t.id !in r.s.e.streams;
    OthersHaveStreams(c, turn, t);
    assert StreamHeld(c.s.e, t.id);
    RunningMembers(Others(c, turn), r.s.e);
  }

  lemma OthersHaveStreams(c: Clocked, turn: Turn, t: Timer)
    requires Between(c.s) && CanTurn(c, turn) && TimersLive(c) && t in Others(c, turn)
    ensures t.id in c.s.e.streams
  {
    var armed := Arms(c.s, EventOf(c, turn));
    if turn.GoesOff? {
      ForgetMembers(c.armed[..turn.k] + c.armed[turn.k + 1..], c.armed[turn.k].id);
    } else if armed.Some? {
      ForgetMembers(c.armed, armed.value.id);
    }
  }

  /** A timer that is left behind is left behind for good. */
  lemma LostForGood(c: Clocked, turns: seq<Turn>)
    requires Between(c.s) && CanTurnAll(c, turns) && TimersLive(c) && turns != [] && LosesTimer(c, turns[0])
    ensures !TimersLive(TurnedAll(c, turns))
  {
    LosesAtOnce(c, turns[0]);
    StaysOrphaned(Turned(c, turns[0]), turns[1..]);
  }

  // ---------------------------------------------------------------- timers that records name

  predicate NoneFor(armed: seq<Timer>, id: nat) {
    forall t <- armed :: t.id != id
  }

  predicate Unnamed(armed: seq<Timer>, id: nat) {
    forall t <- armed :: t.known ==> t.id != id
  }

  /** A record names one timer at most. */
  predicate KnownOnce(armed: seq<Timer>) {
    armed != [] ==> (armed[0].known ==> Unnamed(armed[1..], armed[0].id)) && KnownOnce(armed[1..])
  }

  predicate AllKnown(armed: seq<Timer>) {
    forall t <- armed :: t.known
  }

  lemma {:induction false} ForgetNamesLess(armed: seq<Timer>, id: nat)
    requires KnownOnce(armed)
    ensures KnownOnce(Forget(armed, id)) && Unnamed(Forget(armed, id), id)
    ensures NoneFor(armed, id) ==> Forget(armed, id) == armed
  {
    if armed != [] {
      ForgetNamesLess(armed[1..], id);
      ForgetMembers(armed[1..], id);
      assert Forget(armed, id)[1..] == Forget(armed[1..], id);
      assert [armed[0]] + armed[1..] == armed;
    }
  }

  lemma {:induction false} ForgottenOnly(armed: seq<Timer>, id: nat)
    requires AllKnown(armed)
    ensures forall t <- Forget(armed, id) :: !t.known ==> t.id == id
  {
    if armed != [] {
      ForgottenOnly(armed[1..], id);
    }
  }

  lemma {:induction false} RunningNamesLess(armed: seq<Timer>, e: Ends)
    requires KnownOnce(armed)
    ensures KnownOnce(Running(armed, e))
  {
    if armed != [] {
      RunningNamesLess(armed[1..], e);
      RunningMembers(armed[1..], e);
      if Stopped(armed[0], e) {
        assert Running(armed, e) == Running(armed[1..], e);
      } else {
        assert Running(armed, e)[1..] == Running(armed[1..], e);
      }
    }
  }

  lemma {:induction false} OneMoreNamed(armed: seq<Timer>, t: Timer)
    requires KnownOnce(armed) && Unnamed(armed, t.id)
    ensures KnownOnce(armed + [t])
  {
    if armed == [] {
      assert (armed + [t])[1..] == [];
    } else {
      OneMoreNamed(armed[1..], t);
      assert (armed + [t])[1..] == armed[1..] + [t];
    }
  }

  /** Without the timer that goes off. */
  lemma {:induction false} OneLessNamed(armed: seq<Timer>, k: nat)
    requires KnownOnce(armed) && k < |armed|
    ensures KnownOnce(armed[..k] + armed[k + 1..])
    ensures armed[k].known ==> Unnamed(armed[..k] + armed[k + 1..], armed[k].id)
  {
    var rest := armed[..k] + armed[k + 1..];
    if k == 0 {
      assert rest == armed[1..];
    } else {
      OneLessNamed(armed[1..], k - 1);
      assert rest[1..] == armed[1..][..k - 1] + armed[1..][k..] && rest[0] == armed[0];
      assert armed[1..][k - 1] == armed[k];
    }
  }

  /** A command arms a timer for a stream that has one already. */
  predicate ArmsTwice(c: Clocked, turn: Turn)
    requires Between(c.s) && CanTurn(c, turn)
  {
    Arms(c.s, EventOf(c, turn)).Some? && !NoneFor(c.armed, Arms(c.s, EventOf(c, turn)).value.id)
  }

  lemma OthersNamed(c: Clocked, turn: Turn)
    requires Between(c.s) && CanTurn(c, turn) && KnownOnce(c.armed)
    ensures KnownOnce(Others(c, turn))
    ensures var armed := Arms(c.s, EventOf(c, turn)); armed.Some? ==> Unnamed(Others(c, turn), armed.value.id)
    ensures AllKnown(c.armed) && !ArmsTwice(c, turn) ==> AllKnown(Others(c, turn))
  {
    var armed := Arms(c.s, EventOf(c, turn));
    if turn.GoesOff? {
      var rest := c.armed[..turn.k] + c.armed[turn.k + 1..];
      OneLessNamed(c.armed, turn.k);
      ForgetNamesLess(rest, c.armed[turn.k].id);
      assert AllKnown(c.armed) ==> AllKnown(rest) && NoneFor(rest, c.armed[turn.k].id);
    } else if armed.Some? {
      ForgetNamesLess(c.armed, armed.value.id);
    }
  }

  lemma StillRunning(others: seq<Timer>, e: Ends, armed: Option<Timer>)
    requires KnownOnce(others) && (armed.Some? ==> Unnamed(others, armed.value.id))
    ensures KnownOnce(Running(others, e) + if armed.Some? then [armed.value] else [])
  {
    RunningNamesLess(others, e);
    RunningMembers(others, e);
    if armed.Some? {
      OneMoreNamed(Running(others, e), armed.value);
    } else {
      assert Running(others, e) + [] == Running(others, e);
    }
  }

  lemma TurnNamesOnce(c: Clocked, turn: Turn)
    requires Between(c.s) && CanTurn(c, turn) && KnownOnce(c.armed)
    ensures KnownOnce(Turned(c, turn).armed)
  {
    var e, armed := Step(c.s, EventOf(c, turn)).e, Arms(c.s, EventOf(c, turn));
    OthersNamed(c, turn);
    StillRunning(Others(c, turn), e, armed);
  }

  /** A turn makes a record lose its timer exactly if it arms a second one. */
  lemma TurnKnownExactlyWhen(c: Clocked, turn: Turn)
    requires Between(c.s) && CanTurn(c, turn) && KnownOnce(c.armed) && AllKnown(c.armed)
    ensures AllKnown(Turned(c, turn).armed) <==> !ArmsTwice(c, turn)
  {
    OthersNamed(c, turn);
    RunningMembers(Others(c, turn), Step(c.s, EventOf(c, turn)).e);
    if ArmsTwice(c, turn) {
      var id := Arms(c.s, EventOf(c, turn)).value.id;
      var t :| t in c.armed && t.id == id;
      ForgetMembers(c.armed, id);
      assert t.(known := false) in Turned(c, turn).armed;
    }
  }

  // ---------------------------------------------------------------- danger

  /** Whatever comes next, every armed timer keeps its stream. */
  ghost predicate Safe(c: Clocked)
    requires Between(c.s)
  {
    forall turn: Turn :: CanTurn(c, turn) ==> TimersLive(Turned(c, turn))
  }

  lemma KnownIsLive(c: Clocked, turn: Turn)
    requires Between(c.s) && CanTurn(c, turn) && KnownOnce(c.armed) && AllKnown(c.armed)
    ensures TimersLive(Turned(c, turn))
  {
    TurnLiveExactlyWhen(c, turn);
    OthersNamed(c, turn);
    if ArmsTwice(c, turn) {
      ArmedStays(c.s, EventOf(c, turn));
      ForgottenOnly(c.armed, Arms(c.s, EventOf(c, turn)).value.id);
    }
  }

  /** While the peer can still be lost, the next turn can leave a timer behind exactly if a record does not name one. */
  lemma SafeExactlyWhen(c: Clocked)
    requires Between(c.s) && c.s.listening && KnownOnce(c.armed)
    ensures Safe(c) <==> AllKnown(c.armed)
  {
    if AllKnown(c.armed) {
      forall turn: Turn | CanTurn(c, turn) ensures TimersLive(Turned(c, turn)) {
        KnownIsLive(c, turn);
      }
    } else {
      var t :| t in c.armed && !t.known;
      assert t in Others(c, Happens(Disconnected));
      RunningMembers(c.armed, Step(c.s, Disconnected).e);
      assert t in Turned(c, Happens(Disconnected)).armed;
    }
  }

  /** At every moment of the run, whatever comes next, every armed timer keeps its stream. */
  ghost predicate AlwaysSafe(c: Clocked, turns: seq<Turn>)
    requires Between(c.s) && CanTurnAll(c, turns)
    decreases |turns|
  {
    Safe(c) && (turns == [] || AlwaysSafe(Turned(c, turns[0]), turns[1..]))
  }

  predicate NeverArmsTwice(c: Clocked, turns: seq<Turn>)
    requires Between(c.s) && CanTurnAll(c, turns)
    decreases |turns|
  {
    turns == [] || (!ArmsTwice(c, turns[0]) && NeverArmsTwice(Turned(c, turns[0]), turns[1..]))
  }

  lemma ArmingListens(c: Clocked, turn: Turn)
    requires Between(c.s) && CanTurn(c, turn) && Arms(c.s, EventOf(c, turn)).Some?
    ensures Turned(c, turn).s.listening
  {
    ArmedStays(c.s, EventOf(c, turn));
  }

  lemma {:induction false} SafeRuns(c: Clocked, turns: seq<Turn>)
    requires Between(c.s) && CanTurnAll(c, turns) && KnownOnce(c.armed) && AllKnown(c.armed)
    ensures AlwaysSafe(c, turns) <==> NeverArmsTwice(c, turns)
    decreases |turns|
  {
    forall turn: Turn | CanTurn(c, turn) ensures TimersLive(Turned(c, turn)) {
      KnownIsLive(c, turn);
    }
    if turns != [] {
      var next := Turned(c, turns[0]);
      TurnNamesOnce(c, turns[0]);
      TurnKnownExactlyWhen(c, turns[0]);
      if ArmsTwice(c, turns[0]) {
        ArmingListens(c, turns[0]);
        SafeExactlyWhen(next);
        assert !Safe(next);
      } else {
        SafeRuns(next, turns[1..]);
      }
    }
  }

  /** From a fresh session, with no timer armed: no moment of the run is one at which the next turn could free a stream
      under an armed timer, exactly if no command armed a timer for a stream that had one. */
  lemma SafeExactlyWhenNeverArmedTwice(s: Session, turns: seq<Turn>)
    requires Fresh(s) && Between(s) && CanTurnAll(Clocked(s, []), turns)
    ensures AlwaysSafe(Clocked(s, []), turns) <==> NeverArmsTwice(Clocked(s, []), turns)
  {
    SafeRuns(Clocked(s, []), turns);
  }

  // ---------------------------------------------------------------- a timer left behind

  ghost predicate Turns(c: Clocked, turn: Turn, r: Clocked) {
    Between(c.s) && CanTurn(c, turn) && Turned(c, turn) == r
  }

  lemma {:induction false} PathOfTurns(path: seq<Clocked>, turns: seq<Turn>)
    requires Path(Turns, path, turns) && Between(path[0].s)
    ensures CanTurnAll(path[0], turns) && TurnedAll(path[0], turns) == path[|turns|]
    decreases |turns|
  {
    if turns != [] {
      PathRest(Turns, path, turns);
      PathOfTurns(path[1..], turns[1..]);
    }
  }

  /** The peer has configured the end point, and no request is outstanding. */
  ghost predicate Waiting(s: Session, l: nat, id: nat) {
    && Between(s) && s.listening && s.q.outstanding.None? && s.q.faults == []
    && l in s.e.lseps && s.e.lseps[l].stream == Some(id) && s.e.lseps[l].state == Configured
  }

  lemma PeerConfigures(s: Session, l: nat, rseid: nat)
    requires Fresh(s) && Between(s) && s.listening && s.q.faults == [] && l in s.e.lseps
    ensures Waiting(CommandRead(s, SetConfigurationCmd(l, rseid, false, false, NoCallback)), l, s.e.created)
  {
    var x, replied := NewStream(l, rseid, false), Reply(s, true, SetConfiguration).0;
    var configured := Configure(replied, l, x).0;
    var e := Adopt(s.e, x, false);
    assert e.objects[s.e.created] == x;
    assert CommandRead(s, SetConfigurationCmd(l, rseid, false, false, NoCallback)) == configured;
  }

  lemma PeerOpens(s: Session, l: nat, id: nat)
    requires Waiting(s, l, id)
    ensures Waiting(CommandRead(s, OpenCmd(l, false)), l, id) && id in CommandRead(s, OpenCmd(l, false)).e.objects
    ensures CommandRead(s, OpenCmd(l, false)).e.objects[id].timer
    ensures Arms(s, PeerCommand(OpenCmd(l, false))) == Some(Timer(id, true, true))
  {
    assert SepSound(s.e, l);
  }

  lemma OneLeft(armed: seq<Timer>, id: nat, e: Ends)
    requires armed == [] || armed == [Timer(id, true, true)]
    ensures Running(Forget(armed, id), e) == if armed == [] then [] else [Timer(id, true, false)]
  {
    if armed != [] {
      var t := Timer(id, true, false);
      assert armed[1..] == [] && Forget(armed, id) == [t] + [] == [t];
      assert [t][1..] == [] && Running([t], e) == [t] + [] == [t];
    }
  }

  lemma OpenedAgain(c: Clocked, l: nat, id: nat) returns (r: Clocked)
    requires Waiting(c.s, l, id) && (c.armed == [] || c.armed == [Timer(id, true, true)])
    ensures Reaches(Turns, c, [Happens(PeerCommand(OpenCmd(l, false)))], r) && Waiting(r.s, l, id)
    ensures r.armed == (if c.armed == [] then [] else [Timer(id, true, false)]) + [Timer(id, true, true)]
  {
    PeerOpens(c.s, l, id);
    r := Turned(c, Happens(PeerCommand(OpenCmd(l, false))));
    OneLeft(c.armed, id, r.s.e);
    ReachesNext(Turns, c, Happens(PeerCommand(OpenCmd(l, false))), r);
  }

  lemma BreaksWithOrphan(c: Clocked, id: nat) returns (r: Clocked)
    requires Between(c.s) && c.s.listening && Timer(id, true, false) in c.armed
    ensures Reaches(Turns, c, [Happens(Disconnected)], r) && !TimersLive(r)
  {
    r := Turned(c, Happens(Disconnected));
    assert LosesTimer(c, Happens(Disconnected)) by {
      assert Timer(id, true, false) in Others(c, Happens(Disconnected));
    }
    TurnLiveExactlyWhen(c, Happens(Disconnected));
    ReachesNext(Turns, c, Happens(Disconnected), r);
  }

  lemma CommandTurns(s: Session, c: Command) returns (r: Clocked)
    requires Between(s) && s.listening && Arms(s, PeerCommand(c)).None?
    ensures Reaches(Turns, Clocked(s, []), [Happens(PeerCommand(c))], r)
    ensures r.s == CommandRead(s, c) && r.armed == []
  {
    r := Turned(Clocked(s, []), Happens(PeerCommand(c)));
    ReachesNext(Turns, Clocked(s, []), Happens(PeerCommand(c)), r);
  }

  lemma TurnsConfigured(s: Session, l: nat, rseid: nat) returns (r: Clocked)
    requires Fresh(s) && Between(s) && s.listening && s.q.faults == [] && l in s.e.lseps
    ensures Reaches(Turns, Clocked(s, []),
      [Happens(PeerCommand(SetConfigurationCmd(l, rseid, false, false, NoCallback)))], r)
    ensures Waiting(r.s, l, s.e.created) && r.armed == []
  {
    PeerConfigures(s, l, rseid);
    r := CommandTurns(s, SetConfigurationCmd(l, rseid, false, false, NoCallback));
  }

  lemma ReachesByTurning(c: Clocked, turns: seq<Turn>, r: Clocked)
    requires Reaches(Turns, c, turns, r) && Between(c.s)
    ensures CanTurnAll(c, turns) && TurnedAll(c, turns) == r
  {
    var path :| Path(Turns, path, turns) && path[0] == c && path[|turns|] == r;
    PathOfTurns(path, turns);
  }

  /** Four events lose a timer: the peer configures a stream, asks twice to open it, and the connection breaks. */
  lemma DoubleOpenLosesTimer(s: Session, l: nat, rseid: nat)
    requires Fresh(s) && Between(s) && s.listening && s.q.faults == [] && l in s.e.lseps
    ensures var turns := [Happens(PeerCommand(SetConfigurationCmd(l, rseid, false, false, NoCallback)))]
        + [Happens(PeerCommand(OpenCmd(l, false)))] + [Happens(PeerCommand(OpenCmd(l, false)))] + [Happens(Disconnected)];
      CanTurnAll(Clocked(s, []), turns) && !TimersLive(TurnedAll(Clocked(s, []), turns))
  {
    var configure := [Happens(PeerCommand(SetConfigurationCmd(l, rseid, false, false, NoCallback)))];
    var open, start := [Happens(PeerCommand(OpenCmd(l, false)))], Clocked(s, []);
    var configured := TurnsConfigured(s, l, rseid);
    var once := OpenedAgain(configured, l, s.e.created);
    var twice := OpenedAgain(once, l, s.e.created);
    var broken := BreaksWithOrphan(twice, s.e.created);
    ReachesOn(Turns, start, configure, configured, open, once);
    ReachesOn(Turns, start, configure + open, once, open, twice);
    ReachesOn(Turns, start, configure + open + open, twice, [Happens(Disconnected)], broken);
    ReachesByTurning(start, configure + open + open + [Happens(Disconnected)], broken);
  }
}
