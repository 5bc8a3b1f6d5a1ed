/** What the commands of the peer do to the end points of a session: which of them change state, to which state, and how
    the peer is answered. */
module AvdtpCommands {
  import opened AvdtpEffects
  import opened AvdtpHandlers
  import opened AvdtpRequests
  import opened AvdtpRequestSteps
  import opened AvdtpRuns
  import opened AvdtpStates
  import opened Options

  // ---------------------------------------------------------------- start and suspend

  /** The end point has a stream, is in the state the command calls for, and the upper layer does not refuse. */
  predicate Takes(e: Ends, need: SepState, refused: set<nat>, k: nat) {
    k in e.lseps && e.lseps[k].stream.Some? && e.lseps[k].state == need && k !in refused
  }

  /** A command goes through its first `n` end points: each takes it and is named for the first time, and the next is
      not so. */
  predicate StopsAt(e: Ends, need: SepState, refused: set<nat>, seids: seq<nat>, n: nat) {
    && n <= |seids|
    && (forall j :: 0 <= j < n ==> Takes(e, need, refused, seids[j]) && seids[j] !in seids[..j])
    && (n < |seids| ==> !Takes(e, need, refused, seids[n]) || seids[n] in seids[..n])
  }

  function FirstRefused(e: Ends, need: SepState, refused: set<nat>, seids: seq<nat>): (n: nat)
    ensures StopsAt(e, need, refused, seids, n)
  {
    if seids == [] then 0
    else
      var last := |seids| - 1;
      var n := FirstRefused(e, need, refused, seids[..last]);
      if n == last && Takes(e, need, refused, seids[last]) && seids[last] !in seids[..last] then n + 1 else n
  }

  /** The stream is held by one of the end points `ks`. */
  predicate HeldBy(e: Ends, id: nat, ks: seq<nat>) {
    && id in e.objects && e.objects[id].lsep in ks && e.objects[id].lsep in e.lseps
    && e.lseps[e.objects[id].lsep].stream == Some(id)
  }

  /** A command about the end points `ks` crosses the outstanding request. */
  ghost predicate CrossedBy(s: Session, signal: Signal, ks: seq<nat>) {
    exists id <- s.e.objects :: HeldBy(s.e, id, ks) && Crosses(s.q, signal, s.e.objects[id].rseid)
  }

  /** The end points `ks` are in the state `target`, and all others as they were. */
  ghost predicate StatesMoved(e: Ends, ks: seq<nat>, target: SepState, r: Ends) {
    && r.lseps.Keys == e.lseps.Keys
    && forall k <- e.lseps :: r.lseps[k] == if k in ks then e.lseps[k].(state := target) else e.lseps[k]
  }

  /** That, and the same end points hold the same streams; the peer has not been answered yet. */
  ghost predicate Moves(s: Session, ks: seq<nat>, signal: Signal, target: SepState, r: Session) {
    && r == s.(q := r.q, e := r.e) && r.e == s.e.(objects := r.e.objects, lseps := r.e.lseps)
    && r.e.objects.Keys == s.e.objects.Keys && StatesMoved(s.e, ks, target, r.e)
    && Marks(s.q, CrossedBy(s, signal, ks), r.q)
  }

  /** The streams of the end points `ks` are streaming, and their flags follow. */
  ghost predicate Starts(s: Session, ks: seq<nat>, r: Session) {
    && Moves(s, ks, StartStream, Streaming, r)
    && forall id <- s.e.objects ::
      r.e.objects[id] ==
        if HeldBy(s.e, id, ks) then s.e.objects[id].(starting := true, startTimer := false, openAcp := false)
        else s.e.objects[id]
  }

  /** The streams of the end points `ks` are open again. */
  ghost predicate Suspends(s: Session, ks: seq<nat>, r: Session) {
    && Moves(s, ks, SuspendStream, Open, r)
    && forall id <- s.e.objects ::
      r.e.objects[id] == if HeldBy(s.e, id, ks) then s.e.objects[id].(starting := false) else s.e.objects[id]
  }

  ghost predicate SameHolders(s: Session, r: Session)
    requires r.e.objects.Keys == s.e.objects.Keys
  {
    && (forall id <- s.e.objects :: r.e.objects[id].lsep == s.e.objects[id].lsep)
    && (forall id <- s.e.objects :: r.e.objects[id].rseid == s.e.objects[id].rseid)
  }

  lemma MovesOn(s: Session, k: nat, t: Session, ks: seq<nat>, signal: Signal, target: SepState, r: Session)
    requires Moves(s, [k], signal, target, t) && Moves(t, ks, signal, target, r)
    requires SameHolders(s, t)
    ensures Moves(s, [k] + ks, signal, target, r)
    ensures forall id <- s.e.objects :: HeldBy(s.e, id, [k] + ks) <==> HeldBy(s.e, id, [k]) || HeldBy(t.e, id, ks)
  {
    forall id | id in s.e.objects
      ensures HeldBy(s.e, id, [k] + ks) <==> HeldBy(s.e, id, [k]) || HeldBy(t.e, id, ks)
    {
    }
    assert CrossedBy(s, signal, [k] + ks) <==> CrossedBy(s, signal, [k]) || CrossedBy(t, signal, ks);
  }

  /** A flag that marks the stream of an end point as starting. */
  lemma MarkedStarting(s: Session, k: nat) returns (id: nat, u: Session)
    requires Inv(s) && k in s.e.lseps && s.e.lseps[k].stream.Some?
    ensures s.e.lseps[k].stream == Some(id) && id in s.e.streams && id in s.e.objects && s.e.objects[id].lsep == k
    ensures Inv(u) && u == Change(s, id, s.e.objects[id].(starting := true))
    ensures u == s.(e := s.e.(objects := s.e.objects[id := s.e.objects[id].(starting := true)]))
  {
    assert SepSound(s.e, k);
    id := s.e.lseps[k].stream.value;
    u := Change(s, id, s.e.objects[id].(starting := true));
  }

  /** A command about one end point: the outstanding request is marked, and the end point enters a state. */
  lemma OneMoves(s: Session, k: nat, id: nat, signal: Signal, u: Session, state: SepState, r: Session)
    requires k in s.e.lseps && s.e.lseps[k].stream == Some(id) && id in s.e.objects && s.e.objects[id].lsep == k
    requires u == s.(q := u.q) && Marks(s.q, Crosses(s.q, signal, s.e.objects[id].rseid), u.q)
    requires Enters(u, k, state, r)
    ensures Moves(s, [k], signal, state, r)
    ensures forall x <- s.e.objects :: HeldBy(s.e, x, [k]) <==> x == id
  {
    assert HeldBy(s.e, id, [k]);
    assert forall x <- s.e.objects :: HeldBy(s.e, x, [k]) ==> x == id;
    assert CrossedBy(s, signal, [k]) <==> Crosses(s.q, signal, s.e.objects[id].rseid);
  }

  lemma FlagHolders(s: Session, id: nat, x: Stream, t: Session, ks: seq<nat>)
    requires id in s.e.objects && x.lsep == s.e.objects[id].lsep && x.rseid == s.e.objects[id].rseid
    requires t == s.(e := s.e.(objects := s.e.objects[id := x]))
    ensures forall y <- s.e.objects :: HeldBy(s.e, y, ks) <==> HeldBy(t.e, y, ks)
  {
    forall y | y in s.e.objects ensures HeldBy(s.e, y, ks) <==> HeldBy(t.e, y, ks) {
    }
  }

  /** The same behind a flag in the record of a stream. */
  lemma FlagMoves(s: Session, id: nat, x: Stream, t: Session, ks: seq<nat>, signal: Signal, target: SepState, r: Session)
    requires id in s.e.objects && x.lsep == s.e.objects[id].lsep && x.rseid == s.e.objects[id].rseid
    requires t == s.(e := s.e.(objects := s.e.objects[id := x]))
    requires Moves(t, ks, signal, target, r)
    ensures Moves(s, ks, signal, target, r)
    ensures forall y <- s.e.objects :: HeldBy(s.e, y, ks) <==> HeldBy(t.e, y, ks)
  {
    FlagHolders(s, id, x, t, ks);
    FlagCrosses(s, id, x, t, ks, signal);
  }

  lemma FlagCrosses(s: Session, id: nat, x: Stream, t: Session, ks: seq<nat>, signal: Signal)
    requires id in s.e.objects && x.lsep == s.e.objects[id].lsep && x.rseid == s.e.objects[id].rseid
    requires t == s.(e := s.e.(objects := s.e.objects[id := x]))
    requires forall y <- s.e.objects :: HeldBy(s.e, y, ks) <==> HeldBy(t.e, y, ks)
    ensures CrossedBy(s, signal, ks) <==> CrossedBy(t, signal, ks)
  {
    if CrossedBy(s, signal, ks) {
      var y :| y in s.e.objects && HeldBy(s.e, y, ks) && Crosses(s.q, signal, s.e.objects[y].rseid);
      assert HeldBy(t.e, y, ks);
    }
    if CrossedBy(t, signal, ks) {
      var y :| y in t.e.objects && HeldBy(t.e, y, ks) && Crosses(t.q, signal, t.e.objects[y].rseid);
      assert HeldBy(s.e, y, ks);
    }
  }

  /** The first end point of a start command, if it takes it. */
  lemma StartOne(s: Session, seids: seq<nat>, refused: set<nat>) returns (r: Session)
    requires Inv(s) && seids != [] && Takes(s.e, Open, refused, seids[0])
    ensures Inv(r) && Starts(s, [seids[0]], r)
    ensures StartCommand(s, seids, refused) == StartCommand(r, seids[1..], refused)
  {
    var k := seids[0];
    var id, t := MarkedStarting(s, k);
    var u := Collide(t, StartStream, s.e.objects[id].rseid);
    CollideMarks(t, StartStream, s.e.objects[id].rseid);
    StateEntered(u, k, Streaming);
    r := SetSepState(u, k, Streaming);
    OneMoves(t, k, id, StartStream, u, Streaming, r);
    FlagMoves(s, id, s.e.objects[id].(starting := true), t, [k], StartStream, Streaming, r);
  }

  lemma StartedOn(s: Session, k: nat, t: Session, ks: seq<nat>, r: Session)
    requires Starts(s, [k], t) && Starts(t, ks, r)
    ensures Starts(s, [k] + ks, r)
  {
    assert SameHolders(s, t);
    MovesOn(s, k, t, ks, StartStream, Streaming, r);
  }

  lemma SuspendedOn(s: Session, k: nat, t: Session, ks: seq<nat>, r: Session)
    requires Suspends(s, [k], t) && Suspends(t, ks, r)
    ensures Suspends(s, [k] + ks, r)
  {
    assert SameHolders(s, t);
    MovesOn(s, k, t, ks, SuspendStream, Open, r);
  }

  lemma NothingMoves(s: Session)
    ensures Starts(s, [], s) && Suspends(s, [], s)
  {
    assert !CrossedBy(s, StartStream, []) && !CrossedBy(s, SuspendStream, []);
  }

  /** What the rest of a command is about, once its first end point has been moved. */
  lemma RestOfSeids(e: Ends, need: SepState, refused: set<nat>, seids: seq<nat>, n: nat, t: Ends)
    requires n > 0 && StopsAt(e, need, refused, seids, n)
    requires seids[0] in e.lseps && t.lseps.Keys == e.lseps.Keys && t.lseps[seids[0]].state != need
    requires forall k <- e.lseps :: k != seids[0] ==> t.lseps[k] == e.lseps[k]
    ensures StopsAt(t, need, refused, seids[1..], n - 1)
    ensures seids[..n] == [seids[0]] + seids[1..][..n - 1]
    ensures n < |seids| ==> seids[1..][n - 1] == seids[n]
  {
    var rest := seids[1..];
    forall j | 0 <= j < n - 1 ensures Takes(t, need, refused, rest[j]) && rest[j] !in rest[..j] {
      assert Takes(e, need, refused, seids[j + 1]) && seids[j + 1] !in seids[..j + 1];
      assert seids[0] in seids[..j + 1];
      assert seids[..j + 1][1..] == rest[..j];
    }
    assert seids[..n] == [seids[0]] + rest[..n - 1];
  }

  /** The stream of an end point that is refused by the upper layer is marked as starting all the same. */
  ghost predicate RefusedAt(s: Session, k: nat, r: Session) {
    if k in s.e.lseps && s.e.lseps[k].state == Open && s.e.lseps[k].stream.Some? && s.e.lseps[k].stream.value in s.e.objects
    then
      var id := s.e.lseps[k].stream.value;
      r == s.(e := s.e.(objects := s.e.objects[id := s.e.objects[id].(starting := true)]))
    else r == s
  }

  lemma StartRefused(s: Session, seids: seq<nat>, refused: set<nat>) returns (u: Session)
    requires Inv(s) && (seids != [] ==> !Takes(s.e, Open, refused, seids[0]))
    ensures Inv(u) && if seids == [] then u == s else RefusedAt(s, seids[0], u)
    ensures StartCommand(s, seids, refused) == Reply(u, seids == [], StartStream)
  {
    u := s;
    if seids != [] && seids[0] in s.e.lseps && s.e.lseps[seids[0]].stream.Some? && s.e.lseps[seids[0]].state == Open {
      var id;
      id, u := MarkedStarting(s, seids[0]);
    }
  }

  /** A start command moves the end points before the first refused one into the streaming state, and answers once. */
  lemma {:induction false} StartMoves(s: Session, seids: seq<nat>, refused: set<nat>, n: nat) returns (t: Session, u: Session)
    requires Inv(s) && StopsAt(s.e, Open, refused, seids, n)
    ensures Inv(t) && Starts(s, seids[..n], t)
    ensures Inv(u) && if n == |seids| then u == t else RefusedAt(t, seids[n], u)
    ensures StartCommand(s, seids, refused) == Reply(u, n == |seids|, StartStream)
    decreases n
  {
    if n == 0 {
      NothingMoves(s);
      t := s;
      u := StartRefused(s, seids, refused);
    } else {
      assert Takes(s.e, Open, refused, seids[0]);
      var next := StartOne(s, seids, refused);
      RestOfSeids(s.e, Open, refused, seids, n, next.e);
      t, u := StartMoves(next, seids[1..], refused, n - 1);
      StartedOn(s, seids[0], next, seids[1..][..n - 1], t);
    }
  }

  lemma SuspendOne(s: Session, seids: seq<nat>, refused: set<nat>) returns (r: Session)
    requires Inv(s) && seids != [] && Takes(s.e, Streaming, refused, seids[0])
    ensures Inv(r) && Suspends(s, [seids[0]], r)
    ensures SuspendCommand(s, seids, refused) == SuspendCommand(r, seids[1..], refused)
  {
    var k := seids[0];
    assert SepSound(s.e, k);
    var id := s.e.lseps[k].stream.value;
    var u := Collide(s, SuspendStream, s.e.objects[id].rseid);
    CollideMarks(s, SuspendStream, s.e.objects[id].rseid);
    StateEntered(u, k, Open);
    r := SetSepState(u, k, Open);
    OneMoves(s, k, id, SuspendStream, u, Open, r);
  }

  /** A suspend command moves the end points before the first refused one back into the open state, and answers once. */
  lemma {:induction false} SuspendMoves(s: Session, seids: seq<nat>, refused: set<nat>, n: nat) returns (t: Session)
    requires Inv(s) && StopsAt(s.e, Streaming, refused, seids, n)
    ensures Inv(t) && Suspends(s, seids[..n], t)
    ensures SuspendCommand(s, seids, refused) == Reply(t, n == |seids|, SuspendStream)
    decreases n
  {
    if n == 0 {
      NothingMoves(s);
      t := s;
    } else {
      assert Takes(s.e, Streaming, refused, seids[0]);
      var next := SuspendOne(s, seids, refused);
      RestOfSeids(s.e, Streaming, refused, seids, n, next.e);
      t := SuspendMoves(next, seids[1..], refused, n - 1);
      SuspendedOn(s, seids[0], next, seids[1..][..n - 1], t);
    }
  }

  /** What a start or suspend command comes to: the end points before the first refused one are in the state `target`, all
      others in the state they were in, whatever the list, and the streams are the same; the answer, if it can be sent,
      says that all went well exactly if none was refused. */
  ghost predicate Obeys(s: Session, need: SepState, target: SepState, signal: Signal, seids: seq<nat>, refused: set<nat>,
      r: Session, ok: bool)
  {
    var n := FirstRefused(s.e, need, refused, seids);
    && r.e.streams == s.e.streams && StatesMoved(s.e, seids[..n], target, r.e)
    && (ok <==> Sends(s.q))
    && r.q.sent == if ok then s.q.sent + [Response(n == |seids|, signal)] else s.q.sent
  }

  lemma StartObeys(s: Session, seids: seq<nat>, refused: set<nat>)
    requires Inv(s)
    ensures var (r, ok) := StartCommand(s, seids, refused);
      Obeys(s, Open, Streaming, StartStream, seids, refused, r, ok)
  {
    var n := FirstRefused(s.e, Open, refused, seids);
    var t, u := StartMoves(s, seids, refused, n);
    ReplyAnswers(u, n == |seids|, StartStream);
  }

  lemma SuspendObeys(s: Session, seids: seq<nat>, refused: set<nat>)
    requires Inv(s)
    ensures var (r, ok) := SuspendCommand(s, seids, refused);
      Obeys(s, Streaming, Open, SuspendStream, seids, refused, r, ok)
  {
    var n := FirstRefused(s.e, Streaming, refused, seids);
    var t := SuspendMoves(s, seids, refused, n);
    ReplyAnswers(t, n == |seids|, SuspendStream);
  }

  // ---------------------------------------------------------------- the events

  /** The answer to a command is the next message on the channel. */
  ghost predicate NextIs(q: Requests, m: Message, r: Requests) {
    |r.sent| > |q.sent| && r.sent[..|q.sent|] == q.sent && r.sent[|q.sent|] == m
  }

  /** An outstanding request that a command has crossed is over. */
  ghost predicate EndsCrossed(q: Requests, r: Requests) {
    if q.outstanding.Some? && q.outstanding.value.collided then
      NextHandedOver(q.(outstanding := None, freed := q.freed + [q.outstanding.value.id]), r)
    else r == q
  }

  /** The requests after a command: it is answered, and if it crosses the outstanding request that one is over and the next
      is handed over; nothing else changes. */
  ghost predicate AfterCommand(q: Requests, crossed: bool, m: Message, r: Requests) {
    var told := q.(sent := q.sent + [m], faults := if q.faults == [] then [] else q.faults[1..]);
    if q.outstanding.Some? && (crossed || q.outstanding.value.collided) then
      NextHandedOver(told.(outstanding := None, freed := q.freed + [q.outstanding.value.id]), r)
    else r == told
  }

  lemma AnsweredCrossed(q: Requests, crossed: bool, u: Requests, accepted: bool, signal: Signal, h: Requests, r: Requests)
    requires Marks(q, crossed, u) && Answers(u, accepted, signal, h, true) && EndsCrossed(h, r)
    ensures AfterCommand(q, crossed, Response(accepted, signal), r)
  {
  }

  /** If the answer cannot be sent the connection is lost, with all streams. Else what the command did to the end points
      stands, whether it crossed a request or not. */
  lemma CommandEnds(s: Session, c: Command, u: Session, crossed: bool, accepted: bool, signal: Signal)
    requires Between(s) && s.listening && Inv(u) && Commanded(s, c) == Reply(u, accepted, signal)
    requires Marks(s.q, crossed, u.q) && u.listening == s.listening
    ensures var r := Step(s, PeerCommand(c));
      if Sends(s.q) then r == u.(q := r.q) && AfterCommand(s.q, crossed, Response(accepted, signal), r.q)
      else r.e.streams == [] && !r.listening
  {
    var (handled, ok) := Reply(u, accepted, signal);
    ReplyAnswers(u, accepted, signal);
    if ok {
      CommandGoesOn(s, c, handled);
      AnsweredCrossed(s.q, crossed, u.q, accepted, signal, handled.q, Step(s, PeerCommand(c)).q);
    } else {
      CommandFails(s, c, handled);
    }
  }

  lemma CommandGoesOn(s: Session, c: Command, handled: Session)
    requires Between(s) && s.listening && Commanded(s, c) == (handled, true)
    ensures var r := Step(s, PeerCommand(c));
      r == handled.(q := r.q) && handled.q.sent <= r.q.sent && EndsCrossed(handled.q, r.q)
  {
    assert Step(s, PeerCommand(c)) == CommandRead(s, c);
    if handled.q.outstanding.Some? {
      AnsweredSends(handled.q);
    }
  }

  lemma CommandFails(s: Session, c: Command, handled: Session)
    requires Between(s) && s.listening && Commanded(s, c) == (handled, false)
    ensures Step(s, PeerCommand(c)).e.streams == [] && !Step(s, PeerCommand(c)).listening
  {
  }

  lemma AnsweredSends(q: Requests)
    requires q.outstanding.Some?
    ensures q.sent <= Answered(q).sent
    ensures NextHandedOver(q.(outstanding := None, freed := q.freed + [q.outstanding.value.id]), Answered(q))
  {
    AnsweredHandsOver(q);
  }

  /** A start command: the end points before the first refused one are streaming afterwards, all others are in the state
      they were in, whatever the list; the peer is told that all went well exactly if none was refused. */
  lemma StartStep(s: Session, seids: seq<nat>, refused: set<nat>)
    requires Between(s) && s.listening
    ensures var r, n := Step(s, PeerCommand(StartCmd(seids, refused))), FirstRefused(s.e, Open, refused, seids);
      if Sends(s.q) then
        && r.listening && r.e.streams == s.e.streams && StatesMoved(s.e, seids[..n], Streaming, r.e)
        && AfterCommand(s.q, CrossedBy(s, StartStream, seids[..n]), Response(n == |seids|, StartStream), r.q)
      else r.e.streams == [] && !r.listening
  {
    var n := FirstRefused(s.e, Open, refused, seids);
    var c := StartCmd(seids, refused);
    assert Commanded(s, c) == StartCommand(s, seids, refused);
    var t, u := StartMoves(s, seids, refused, n);
    CommandEnds(s, c, u, CrossedBy(s, StartStream, seids[..n]), n == |seids|, StartStream);
  }

  /** A suspend command: the same, from the streaming state back to the open one. */
  lemma SuspendStep(s: Session, seids: seq<nat>, refused: set<nat>)
    requires Between(s) && s.listening
    ensures var r, n := Step(s, PeerCommand(SuspendCmd(seids, refused))), FirstRefused(s.e, Streaming, refused, seids);
      if Sends(s.q) then
        && r.listening && r.e.streams == s.e.streams && StatesMoved(s.e, seids[..n], Open, r.e)
        && AfterCommand(s.q, CrossedBy(s, SuspendStream, seids[..n]), Response(n == |seids|, SuspendStream), r.q)
      else r.e.streams == [] && !r.listening
  {
    var n := FirstRefused(s.e, Streaming, refused, seids);
    var c := SuspendCmd(seids, refused);
    assert Commanded(s, c) == SuspendCommand(s, seids, refused);
    var t := SuspendMoves(s, seids, refused, n);
    CommandEnds(s, c, t, CrossedBy(s, SuspendStream, seids[..n]), n == |seids|, SuspendStream);
  }

  // ---------------------------------------------------------------- commands about one stream

  /** A close command is taken in the open and the streaming state: the end point is closing, and its stream waits for
      the peer to close the transport. Else nothing changes and the peer is refused. */
  lemma CloseStep(s: Session, seid: nat, refused: bool)
    requires Between(s) && s.listening
    ensures var r := Step(s, PeerCommand(CloseCmd(seid, refused)));
      var takes := seid in s.e.lseps && s.e.lseps[seid].stream.Some? && !refused
        && (s.e.lseps[seid].state == Open || s.e.lseps[seid].state == Streaming);
      if !Sends(s.q) then r.e.streams == [] && !r.listening
      else
        && r.listening && (if takes then Closes(s.e, seid, r.e) else r.e == s.e)
        && AfterCommand(s.q, takes && Meets(s, CloseStream, seid), Response(takes, CloseStream), r.q)
  {
    var c := CloseCmd(seid, refused);
    assert Commanded(s, c) == CloseCommand(s, seid, refused);
    if seid in s.e.lseps && s.e.lseps[seid].stream.Some? && !refused
      && (s.e.lseps[seid].state == Open || s.e.lseps[seid].state == Streaming)
    {
      CloseTaken(s, seid);
    } else {
      CommandEnds(s, c, s, false, false, CloseStream);
    }
  }

  /** The command is about the stream of the outstanding request. */
  predicate Meets(s: Session, signal: Signal, k: nat) {
    && k in s.e.lseps && s.e.lseps[k].stream.Some? && s.e.lseps[k].stream.value in s.e.objects
    && Crosses(s.q, signal, s.e.objects[s.e.lseps[k].stream.value].rseid)
  }

  ghost predicate Closes(e: Ends, k: nat, r: Ends) {
    && k in e.lseps && e.lseps[k].stream.Some? && e.lseps[k].stream.value in e.objects
    && var id := e.lseps[k].stream.value;
      && r == e.(lseps := r.lseps, objects := r.objects) && StatesMoved(e, [k], Closing, r)
      && r.objects == e.objects[id := e.objects[id].(startTimer := false, timer := true)]
  }

  lemma ClosingEntered(s: Session, k: nat) returns (id: nat, t: Session)
    requires Inv(s) && k in s.e.lseps && s.e.lseps[k].stream.Some?
    ensures s.e.lseps[k].stream == Some(id) && id in s.e.objects && id in s.e.streams
    ensures Inv(t) && t == EnterClosing(s, k) && t.listening == s.listening && id in t.e.streams
    ensures Marks(s.q, Meets(s, CloseStream, k), t.q)
    ensures t.e == s.e.(lseps := t.e.lseps, objects := t.e.objects) && StatesMoved(s.e, [k], Closing, t.e)
    ensures id in t.e.objects && FlagsEntering(s.e.objects[id], Closing, t.e.objects[id])
    ensures t.e.objects == s.e.objects[id := t.e.objects[id]]
  {
    assert SepSound(s.e, k);
    id := s.e.lseps[k].stream.value;
    var u := Collide(s, CloseStream, s.e.objects[id].rseid);
    CollideMarks(s, CloseStream, s.e.objects[id].rseid);
    StateEntered(u, k, Closing);
    t := EnterClosing(s, k);
  }

  lemma CloseIsCommanded(s: Session, c: Command)
    requires Inv(s) && c.CloseCmd?
    ensures Commanded(s, c) == CloseCommand(s, c.seid, c.refused)
  {
  }

  lemma CloseAnswered(s: Session, k: nat, id: nat, closing: Session) returns (h: Session)
    requires Inv(s) && k in s.e.lseps && s.e.lseps[k].stream == Some(id)
    requires s.e.lseps[k].state == Open || s.e.lseps[k].state == Streaming
    requires Inv(closing) && closing == EnterClosing(s, k) && id in closing.e.streams && id in closing.e.objects
    requires Sends(closing.q) == Sends(s.q)
    ensures Commanded(s, CloseCmd(k, false)) == (h, Sends(s.q))
    ensures Sends(s.q) ==>
      && h == closing.(q := h.q, e := h.e) && Answers(closing.q, true, CloseStream, h.q, true)
      && h.e == closing.e.(objects := closing.e.objects[id := closing.e.objects[id].(timer := true)])
  {
    CloseIsCommanded(s, CloseCmd(k, false));
    ReplyAnswers(closing, true, CloseStream);
    h := CloseCommand(s, k, false).0;
  }

  lemma ClosesInAll(e: Ends, k: nat, id: nat, t: Ends, r: Ends)
    requires k in e.lseps && e.lseps[k].stream == Some(id) && id in e.objects
    requires t == e.(lseps := t.lseps, objects := t.objects) && StatesMoved(e, [k], Closing, t)
    requires id in t.objects && FlagsEntering(e.objects[id], Closing, t.objects[id])
    requires t.objects == e.objects[id := t.objects[id]]
    requires r == t.(objects := t.objects[id := t.objects[id].(timer := true)])
    ensures Closes(e, k, r)
  {
  }

  lemma CloseTaken(s: Session, seid: nat)
    requires Between(s) && s.listening && seid in s.e.lseps && s.e.lseps[seid].stream.Some?
    requires s.e.lseps[seid].state == Open || s.e.lseps[seid].state == Streaming
    ensures var r := Step(s, PeerCommand(CloseCmd(seid, false)));
      if !Sends(s.q) then r.e.streams == [] && !r.listening
      else
        && r.listening && Closes(s.e, seid, r.e)
        && AfterCommand(s.q, Meets(s, CloseStream, seid), Response(true, CloseStream), r.q)
  {
    var id, closing := ClosingEntered(s, seid);
    var h := CloseAnswered(s, seid, id, closing);
    if Sends(s.q) {
      ClosesInAll(s.e, seid, id, closing.e, h.e);
      CommandGoesOn(s, CloseCmd(seid, false), h);
      AnsweredCrossed(s.q, Meets(s, CloseStream, seid), closing.q, true, CloseStream, h.q,
        Step(s, PeerCommand(CloseCmd(seid, false))).q);
    } else {
      CommandFails(s, CloseCmd(seid, false), h);
    }
  }
}
