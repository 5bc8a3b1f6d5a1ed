/** The order in which the requests of a session go out, whatever sends fail and however requests end. */
module AvdtpOrder {
  import opened AvdtpRequests
  import opened Options

  datatype QueueEvent =
    | Submit(priority: bool, stream: Option<nat>, aborting: bool, signal: Signal, seid: nat)
    | Answer
    | Cleanup(gone: nat)
    | GivenUp
    | Cancelled
    | Told(accepted: bool, answered: Signal)
    | Marked(timed: bool, collided: bool)

  function QueueStep(q: Requests, e: QueueEvent): Requests {
    match e
    case Submit(priority, stream, aborting, signal, seid) =>
      SendRequest(q, priority, stream, aborting, signal, seid).0
    case Answer => if q.outstanding.Some? then Answered(q) else q
    case Cleanup(gone) => CleanupQueue(q, gone)
    case GivenUp => if q.outstanding.Some? then HandleUnanswered(q) else q
    case Cancelled => if q.outstanding.Some? then Dropped(q) else q
    case Told(accepted, answered) => TrySend(q, Response(accepted, answered)).0
    case Marked(timed, collided) =>
      if q.outstanding.Some? then
        q.(outstanding := Some(q.outstanding.value.(timed := timed, collided := collided)))
      else q
  }

  function QueueRun(q: Requests, events: seq<QueueEvent>): Requests
    decreases |events|
  {
    if events == [] then q else QueueRun(QueueStep(q, events[0]), events[1..])
  }

  /** Nothing waits unless a request is outstanding. */
  predicate Settled(q: Requests) {
    q.outstanding.None? ==> q.prio == [] && q.normal == []
  }

  /** A request may go out after `earlier`: it was accepted later, if both are of one class; and if it has priority over
      `earlier`, it was accepted only after `earlier` was out. */
  predicate MayFollow(earlier: Message, id: nat, priority: bool) {
    earlier.Command? ==>
      && (earlier.priority == priority ==> earlier.id < id)
      && (priority && !earlier.priority ==> earlier.before <= id)
  }

  /** The order on the channel: first come first served in each class, and no normal request overtakes a waiting
      priority request. */
  ghost predicate SentInOrder(sent: seq<Message>) {
    forall i, j :: 0 <= i < j < |sent| && sent[j].Command? ==> MayFollow(sent[i], sent[j].id, sent[j].priority)
  }

  ghost predicate QueueInOrder(queue: seq<Request>, priority: bool, sent: seq<Message>, accepted: nat)
    decreases |queue|
  {
    queue != [] ==>
      && queue[0].id < accepted
      && (forall m <- sent :: MayFollow(m, queue[0].id, priority))
      && (forall r <- queue[1..] :: queue[0].id < r.id)
      && QueueInOrder(queue[1..], priority, sent, accepted)
  }

  ghost predicate SentBefore(sent: seq<Message>, accepted: nat) {
    forall m <- sent :: m.Command? ==> m.id < accepted && m.before <= accepted
  }

  /** What is sent is in order, and what waits can still be sent in order. */
  ghost predicate InOrder(q: Requests) {
    && SentInOrder(q.sent) && SentBefore(q.sent, q.accepted)
    && QueueInOrder(q.prio, true, q.sent, q.accepted)
    && QueueInOrder(q.normal, false, q.sent, q.accepted)
  }

  lemma {:induction false} QueueGrows(queue: seq<Request>, priority: bool, sent: seq<Message>, r: Request)
    requires QueueInOrder(queue, priority, sent, r.id) && SentBefore(sent, r.id)
    ensures QueueInOrder(queue + [r], priority, sent, r.id + 1)
  {
    if queue == [] {
      assert (queue + [r])[1..] == [];
    } else {
      QueueGrows(queue[1..], priority, sent, r);
      assert (queue + [r])[1..] == queue[1..] + [r];
      QueueIsAccepted(queue, priority, sent, r.id);
    }
  }

  lemma {:induction false} QueueIsAccepted(queue: seq<Request>, priority: bool, sent: seq<Message>, accepted: nat)
    requires QueueInOrder(queue, priority, sent, accepted)
    ensures forall r <- queue :: r.id < accepted
  {
    if queue != [] {
      QueueIsAccepted(queue[1..], priority, sent, accepted);
    }
  }

  lemma {:induction false} QueueKeepsWithMoreAccepted(queue: seq<Request>, priority: bool, sent: seq<Message>, accepted: nat)
    requires QueueInOrder(queue, priority, sent, accepted)
    ensures QueueInOrder(queue, priority, sent, accepted + 1)
  {
    if queue != [] {
      QueueKeepsWithMoreAccepted(queue[1..], priority, sent, accepted);
    }
  }

  /** The rest of the queues may follow a message that may itself be followed by them. */
  lemma {:induction false} QueueKeepsWithMoreSent(queue: seq<Request>, priority: bool, sent: seq<Message>, accepted: nat,
      m: Message)
    requires QueueInOrder(queue, priority, sent, accepted)
    requires forall r <- queue :: MayFollow(m, r.id, priority)
    ensures QueueInOrder(queue, priority, sent + [m], accepted)
  {
    if queue != [] {
      QueueKeepsWithMoreSent(queue[1..], priority, sent, accepted, m);
    }
  }

  lemma {:induction false} WithoutInOrder(queue: seq<Request>, priority: bool, sent: seq<Message>, accepted: nat,
      stream: nat)
    requires QueueInOrder(queue, priority, sent, accepted)
    ensures QueueInOrder(Without(queue, stream), priority, sent, accepted)
  {
    if queue != [] {
      WithoutInOrder(queue[1..], priority, sent, accepted, stream);
      WithoutIsClean(queue[1..], stream);
      assert ([queue[0]] + Without(queue[1..], stream))[1..] == Without(queue[1..], stream);
    }
  }

  lemma SentOneMore(sent: seq<Message>, m: Message)
    requires SentInOrder(sent) && m.Command?
    requires forall e <- sent :: MayFollow(e, m.id, m.priority)
    ensures SentInOrder(sent + [m])
  {
  }

  /** A submission that goes out at once although a request waits that should go first: one of its class, or a priority
      request if it is normal. */
  predicate Overtakes(q: Requests, e: QueueEvent) {
    && e.Submit? && !(e.stream.Some? && e.aborting && e.signal != AbortStream)
    && q.outstanding.None? && Sends(q)
    && (q.prio != [] || (!e.priority && q.normal != []))
  }

  /** What a submission does to the queues and the channel. */
  lemma Submitted(q: Requests, e: QueueEvent)
    requires e.Submit? && !(e.stream.Some? && e.aborting && e.signal != AbortStream)
    ensures var r, x := QueueStep(q, e), Request(q.accepted, e.signal, e.seid, e.stream, 0, false, false);
      && r.accepted == q.accepted + 1
      && r.prio == (if q.outstanding.Some? && e.priority then q.prio + [x] else q.prio)
      && r.normal == (if q.outstanding.Some? && !e.priority then q.normal + [x] else q.normal)
      && r.sent == (if q.outstanding.None? && Sends(q) then q.sent + [Command(q.accepted, e.priority, q.accepted + 1)]
                    else q.sent)
  {
  }

  lemma AnswerSends(q: Requests, r: Request, priority: bool, prio: seq<Request>, normal: seq<Request>)
    requires q.outstanding.Some? && (q.prio != [] || q.normal != [])
    requires if q.prio != [] then priority && q.prio == [r] + prio && normal == q.normal
      else !priority && prio == [] && q.normal == [r] + normal
    ensures var a := Answered(q);
      && a.accepted == q.accepted && a.prio == prio && a.normal == normal
      && a.sent == if Sends(q) then q.sent + [Command(r.id, priority, q.accepted)] else q.sent
  {
  }

  lemma SubmitInOrderExactlyWhen(q: Requests, e: QueueEvent)
    requires InOrder(q) && e.Submit?
    ensures InOrder(QueueStep(q, e)) <==> !Overtakes(q, e)
  {
    if !(e.stream.Some? && e.aborting && e.signal != AbortStream) {
      Submitted(q, e);
      if q.outstanding.Some? {
        QueuedInOrder(q, e.priority, Request(q.accepted, e.signal, e.seid, e.stream, 0, false, false));
      } else {
        QueueKeepsWithMoreAccepted(q.prio, true, q.sent, q.accepted);
        QueueKeepsWithMoreAccepted(q.normal, false, q.sent, q.accepted);
        GoesOutInOrderExactlyWhen(q, e.priority);
      }
    }
  }

  lemma QueuedInOrder(q: Requests, priority: bool, r: Request)
    requires InOrder(q) && q.outstanding.Some? && r.id == q.accepted
    ensures InOrder(SendReq(q.(accepted := q.accepted + 1), priority, r).0)
  {
    if priority {
      QueueGrows(q.prio, priority, q.sent, r);
      QueueKeepsWithMoreAccepted(q.normal, false, q.sent, q.accepted);
    } else {
      QueueGrows(q.normal, priority, q.sent, r);
      QueueKeepsWithMoreAccepted(q.prio, true, q.sent, q.accepted);
    }
  }

  /** A new request on the channel: whatever waits may follow it exactly if nothing waits that should go first. */
  lemma GoesOutInOrderExactlyWhen(q: Requests, priority: bool)
    requires InOrder(q)
    ensures var m := Command(q.accepted, priority, q.accepted + 1);
      && SentInOrder(q.sent + [m])
      && (QueueInOrder(q.prio, true, q.sent + [m], q.accepted + 1) <==> q.prio == [])
      && (QueueInOrder(q.normal, false, q.sent + [m], q.accepted + 1) <==> priority || q.normal == [])
  {
    var m := Command(q.accepted, priority, q.accepted + 1);
    SentOneMore(q.sent, m);
    QueueKeepsWithMoreAccepted(q.normal, false, q.sent, q.accepted);
    assert m in q.sent + [m];
    if q.prio != [] {
      assert !MayFollow(m, q.prio[0].id, true);
    }
    if priority {
      QueueKeepsWithMoreSent(q.normal, false, q.sent, q.accepted + 1, m);
    } else if q.normal != [] {
      assert !MayFollow(m, q.normal[0].id, false);
    }
  }

  /** A message that the queues may follow keeps everything in order. */
  lemma MoreSentInOrder(sent: seq<Message>, accepted: nat, m: Message, prio: seq<Request>, normal: seq<Request>)
    requires SentInOrder(sent) && SentBefore(sent, accepted) && m.Command? && m.id < accepted && m.before <= accepted
    requires QueueInOrder(prio, true, sent, accepted) && QueueInOrder(normal, false, sent, accepted)
    requires forall e <- sent :: MayFollow(e, m.id, m.priority)
    requires forall r <- prio :: MayFollow(m, r.id, true)
    requires forall r <- normal :: MayFollow(m, r.id, false)
    ensures SentInOrder(sent + [m]) && SentBefore(sent + [m], accepted)
    ensures QueueInOrder(prio, true, sent + [m], accepted) && QueueInOrder(normal, false, sent + [m], accepted)
  {
    SentOneMore(sent, m);
    QueueKeepsWithMoreSent(prio, true, sent, accepted, m);
    QueueKeepsWithMoreSent(normal, false, sent, accepted, m);
  }

  /** The next request goes out in order, or is freed; the others keep waiting in order. */
  lemma AnswerKeepsOrder(q: Requests)
    requires InOrder(q) && q.outstanding.Some?
    ensures InOrder(Answered(q))
  {
    if q.prio != [] {
      MoreSentInOrder(q.sent, q.accepted, Command(q.prio[0].id, true, q.accepted), q.prio[1..], q.normal);
    } else if q.normal != [] {
      MoreSentInOrder(q.sent, q.accepted, Command(q.normal[0].id, false, q.accepted), [], q.normal[1..]);
    }
  }

  lemma OvertakingShows(q: Requests, e: QueueEvent)
    requires Overtakes(q, e) && InOrder(q)
    ensures var t := QueueStep(q, e).(faults := []); t.outstanding.Some? && !SentInOrder(Answered(t).sent)
  {
    Submitted(q, e);
    var t, n := QueueStep(q, e).(faults := []), |q.sent|;
    if q.prio != [] {
      AnswerSends(t, q.prio[0], true, q.prio[1..], q.normal);
    } else {
      AnswerSends(t, q.normal[0], false, [], q.normal[1..]);
    }
    var sent := Answered(t).sent;
    assert |sent| == n + 2 && sent[n] == Command(q.accepted, e.priority, q.accepted + 1);
    assert !MayFollow(sent[n], sent[n + 1].id, sent[n + 1].priority);
  }

  /** On the channel it shows with the next answer, if sends work: the order breaks exactly if the submission overtook. */
  lemma NextAnswerShowsExactlyWhen(q: Requests, e: QueueEvent)
    requires InOrder(q) && e.Submit?
    ensures var t := QueueStep(q, e).(faults := []);
      t.outstanding.Some? ==> (SentInOrder(QueueStep(t, Answer).sent) <==> !Overtakes(q, e))
  {
    SubmitInOrderExactlyWhen(q, e);
    var t := QueueStep(q, e).(faults := []);
    if Overtakes(q, e) {
      OvertakingShows(q, e);
    } else if t.outstanding.Some? {
      AnswerKeepsOrder(t);
    }
  }

  /** A step keeps the order exactly if it does not overtake. */
  lemma StepInOrderExactlyWhen(q: Requests, e: QueueEvent)
    requires InOrder(q)
    ensures InOrder(QueueStep(q, e)) <==> !Overtakes(q, e)
  {
    match e
    case Submit(priority, stream, aborting, signal, seid) => SubmitInOrderExactlyWhen(q, e);
    case Answer =>
      if q.outstanding.Some? {
        AnswerKeepsOrder(q);
      }
    case Cleanup(gone) =>
      WithoutInOrder(q.prio, true, q.sent, q.accepted, gone);
      WithoutInOrder(q.normal, false, q.sent, q.accepted, gone);
    case Told(accepted, answered) => TellingKeepsOrder(q, Response(accepted, answered));
    case _ =>
  }

  /** Answers to the peer are not requests and may go anywhere. */
  lemma TellingKeepsOrder(q: Requests, m: Message)
    requires InOrder(q) && m.Response?
    ensures InOrder(TrySend(q, m).0)
  {
    QueueKeepsWithMoreSent(q.prio, true, q.sent, q.accepted, m);
    QueueKeepsWithMoreSent(q.normal, false, q.sent, q.accepted, m);
  }

  // ---------------------------------------------------------------- runs

  ghost predicate AlwaysInOrder(q: Requests, events: seq<QueueEvent>)
    decreases |events|
  {
    InOrder(q) && (events == [] || AlwaysInOrder(QueueStep(q, events[0]), events[1..]))
  }

  predicate NeverOvertakes(q: Requests, events: seq<QueueEvent>)
    decreases |events|
  {
    events == [] || (!Overtakes(q, events[0]) && NeverOvertakes(QueueStep(q, events[0]), events[1..]))
  }

  /** Over every run, with any sends failing: everything is in order all the time exactly if no submission overtakes. */
  lemma {:induction false} InOrderExactlyWhen(q: Requests, events: seq<QueueEvent>)
    requires InOrder(q)
    ensures AlwaysInOrder(q, events) <==> NeverOvertakes(q, events)
    decreases |events|
  {
    if events != [] {
      StepInOrderExactlyWhen(q, events[0]);
      if !Overtakes(q, events[0]) {
        InOrderExactlyWhen(QueueStep(q, events[0]), events[1..]);
      } else {
        assert !InOrder(QueueStep(q, events[0]));
      }
    }
  }

  // ---------------------------------------------------------------- the channel

  /** The waiting requests that a new one should not go before: those of its class, and the priority ones too if it is
      normal. */
  function Before(prio: seq<Request>, normal: seq<Request>, priority: bool): set<nat> {
    (set r <- prio :: r.id) + if priority then {} else set r <- normal :: r.id
  }

  /** The waiting requests that a submission overtakes. */
  function Passed(q: Requests, e: QueueEvent): set<nat> {
    if Overtakes(q, e) then Before(q.prio, q.normal, e.priority) else {}
  }

  /** The request that an answer sends. */
  function NextSent(q: Requests, e: QueueEvent): Option<nat> {
    if !e.Answer? || q.outstanding.None? || !Sends(q) then None
    else if q.prio != [] then Some(q.prio[0].id)
    else if q.normal != [] then Some(q.normal[0].id)
    else None
  }

  /** Some answer of the run sends a request that a submission of the run overtook; `late` are those overtaken before. */
  predicate SendsOvertaken(q: Requests, late: set<nat>, events: seq<QueueEvent>)
    decreases |events|
  {
    events != [] &&
    ((NextSent(q, events[0]).Some? && NextSent(q, events[0]).value in late)
     || SendsOvertaken(QueueStep(q, events[0]), late + Passed(q, events[0]), events[1..]))
  }

  /** Something is on the channel that the request should have gone before. */
  predicate Late(sent: seq<Message>, id: nat, priority: bool) {
    exists m <- sent :: !MayFollow(m, id, priority)
  }

  /** A queue whose requests were accepted one after the other; the late ones are known. */
  ghost predicate Queued(queue: seq<Request>, priority: bool, sent: seq<Message>, accepted: nat, late: set<nat>)
    decreases |queue|
  {
    queue != [] ==>
      && queue[0].id < accepted && (Late(sent, queue[0].id, priority) <==> queue[0].id in late)
      && (forall r <- queue[1..] :: queue[0].id < r.id)
      && Queued(queue[1..], priority, sent, accepted, late)
  }

  ghost predicate Apart(prio: seq<Request>, normal: seq<Request>) {
    forall r <- prio, x <- normal :: r.id != x.id
  }

  /** What is sent is in order, and the overtaken requests that wait are known. */
  ghost predicate TrackedParts(sent: seq<Message>, accepted: nat, prio: seq<Request>, normal: seq<Request>,
      late: set<nat>)
  {
    && SentInOrder(sent) && SentBefore(sent, accepted) && Apart(prio, normal)
    && Queued(prio, true, sent, accepted, late) && Queued(normal, false, sent, accepted, late)
    && forall id <- late :: id < accepted
  }

  ghost predicate Tracked(q: Requests, late: set<nat>) {
    TrackedParts(q.sent, q.accepted, q.prio, q.normal, late)
  }

  lemma {:induction false} QueuedOn(queue: seq<Request>, priority: bool, sent: seq<Message>, accepted: nat,
      late: set<nat>, accepted': nat, late': set<nat>)
    requires Queued(queue, priority, sent, accepted, late) && accepted <= accepted'
    requires forall r <- queue :: r.id in late' <==> r.id in late
    ensures Queued(queue, priority, sent, accepted', late')
  {
    if queue != [] {
      QueuedOn(queue[1..], priority, sent, accepted, late, accepted', late');
    }
  }

  lemma LateOn(sent: seq<Message>, m: Message, id: nat, priority: bool)
    ensures Late(sent + [m], id, priority) <==> Late(sent, id, priority) || !MayFollow(m, id, priority)
  {
    assert m in sent + [m];
    if Late(sent, id, priority) {
      var x :| x in sent && !MayFollow(x, id, priority);
      assert x in sent + [m];
    }
  }

  /** One more message makes late what may not follow it. */
  lemma {:induction false} QueuedBehind(queue: seq<Request>, priority: bool, sent: seq<Message>, accepted: nat,
      late: set<nat>, m: Message, accepted': nat, late': set<nat>)
    requires Queued(queue, priority, sent, accepted, late) && accepted <= accepted'
    requires forall r <- queue :: r.id in late' <==> r.id in late || !MayFollow(m, r.id, priority)
    ensures Queued(queue, priority, sent + [m], accepted', late')
  {
    if queue != [] {
      LateOn(sent, m, queue[0].id, priority);
      QueuedBehind(queue[1..], priority, sent, accepted, late, m, accepted', late');
    }
  }

  lemma {:induction false} QueuedIds(queue: seq<Request>, priority: bool, sent: seq<Message>, accepted: nat,
      late: set<nat>)
    requires Queued(queue, priority, sent, accepted, late)
    ensures forall r <- queue :: r.id < accepted
  {
    if queue != [] {
      QueuedIds(queue[1..], priority, sent, accepted, late);
    }
  }

  /** A new request is not late. */
  lemma {:induction false} QueuedLast(queue: seq<Request>, priority: bool, sent: seq<Message>, late: set<nat>, r: Request)
    requires Queued(queue, priority, sent, r.id, late) && SentBefore(sent, r.id) && r.id !in late
    ensures Queued(queue + [r], priority, sent, r.id + 1, late)
  {
    if queue == [] {
      assert (queue + [r])[1..] == [];
    } else {
      QueuedLast(queue[1..], priority, sent, late, r);
      QueuedIds(queue, priority, sent, r.id, late);
      assert (queue + [r])[1..] == queue[1..] + [r];
    }
  }

  lemma {:induction false} QueuedWithout(queue: seq<Request>, priority: bool, sent: seq<Message>, accepted: nat,
      late: set<nat>, stream: nat)
    requires Queued(queue, priority, sent, accepted, late)
    ensures Queued(Without(queue, stream), priority, sent, accepted, late)
    ensures forall r <- Without(queue, stream) :: r in queue
  {
    if queue != [] {
      QueuedWithout(queue[1..], priority, sent, accepted, late, stream);
      assert ([queue[0]] + Without(queue[1..], stream))[1..] == Without(queue[1..], stream);
    }
  }

  /** A new request is lost, or waits; nothing else changes. */
  lemma OneMoreAccepted(sent: seq<Message>, accepted: nat, prio: seq<Request>, normal: seq<Request>, late: set<nat>)
    requires TrackedParts(sent, accepted, prio, normal, late)
    ensures TrackedParts(sent, accepted + 1, prio, normal, late)
  {
    QueuedOn(prio, true, sent, accepted, late, accepted + 1, late);
    QueuedOn(normal, false, sent, accepted, late, accepted + 1, late);
  }

  lemma OneMoreWaits(sent: seq<Message>, prio: seq<Request>, normal: seq<Request>, late: set<nat>, priority: bool,
      r: Request)
    requires TrackedParts(sent, r.id, prio, normal, late)
    ensures if priority then TrackedParts(sent, r.id + 1, prio + [r], normal, late)
      else TrackedParts(sent, r.id + 1, prio, normal + [r], late)
  {
    OneMoreAccepted(sent, r.id, prio, normal, late);
    QueuedIds(prio, true, sent, r.id, late);
    QueuedIds(normal, false, sent, r.id, late);
    QueuedLast(if priority then prio else normal, priority, sent, late, r);
  }

  /** A new request goes out: exactly those it should have gone behind become late. */
  lemma OneMoreGoesOut(sent: seq<Message>, accepted: nat, prio: seq<Request>, normal: seq<Request>, late: set<nat>,
      priority: bool)
    requires TrackedParts(sent, accepted, prio, normal, late)
    ensures TrackedParts(sent + [Command(accepted, priority, accepted + 1)], accepted + 1, prio, normal,
      late + Before(prio, normal, priority))
  {
    var m, late' := Command(accepted, priority, accepted + 1), late + Before(prio, normal, priority);
    QueuedIds(prio, true, sent, accepted, late);
    QueuedIds(normal, false, sent, accepted, late);
    SentOneMore(sent, m);
    QueuedBehind(prio, true, sent, accepted, late, m, accepted + 1, late');
    QueuedBehind(normal, false, sent, accepted, late, m, accepted + 1, late');
  }

  /** The next request is sent: in order exactly if it is not late. It makes no other late. */
  lemma NextGoesOut(sent: seq<Message>, accepted: nat, prio: seq<Request>, normal: seq<Request>, late: set<nat>,
      r: Request, priority: bool)
    requires TrackedParts(sent, accepted, prio, normal, late)
    requires r.id < accepted && (Late(sent, r.id, priority) <==> r.id in late)
    requires if priority then forall x <- prio :: r.id < x.id else prio == [] && forall x <- normal :: r.id < x.id
    ensures var m := Command(r.id, priority, accepted);
      if r.id in late then !SentInOrder(sent + [m]) else TrackedParts(sent + [m], accepted, prio, normal, late)
  {
    var m := Command(r.id, priority, accepted);
    if r.id in late {
      var x :| x in sent && !MayFollow(x, r.id, priority);
      var i :| 0 <= i < |sent| && sent[i] == x;
      assert (sent + [m])[i] == x && (sent + [m])[|sent|] == m;
    } else {
      SentOneMore(sent, m);
      QueuedBehind(prio, true, sent, accepted, late, m, accepted, late);
      QueuedBehind(normal, false, sent, accepted, late, m, accepted, late);
    }
  }

  lemma PassesThoseBefore(q: Requests, e: QueueEvent)
    requires e.Submit? && !(e.stream.Some? && e.aborting && e.signal != AbortStream)
    requires q.outstanding.None? && Sends(q)
    ensures Passed(q, e) == Before(q.prio, q.normal, e.priority)
  {
    if !Overtakes(q, e) {
      assert q.prio == [] && (e.priority || q.normal == []);
    }
  }

  lemma WaitingTracked(q: Requests, late: set<nat>, priority: bool, x: Request, r: Requests)
    requires Tracked(q, late) && x.id == q.accepted && r.accepted == q.accepted + 1 && r.sent == q.sent
    requires r.prio == (if priority then q.prio + [x] else q.prio)
    requires r.normal == (if priority then q.normal else q.normal + [x])
    ensures Tracked(r, late)
  {
    OneMoreWaits(q.sent, q.prio, q.normal, late, priority, x);
  }

  lemma GoneTracked(q: Requests, late: set<nat>, priority: bool, r: Requests)
    requires Tracked(q, late) && r.accepted == q.accepted + 1 && r.prio == q.prio && r.normal == q.normal
    requires r.sent == q.sent + [Command(q.accepted, priority, q.accepted + 1)]
    ensures Tracked(r, late + Before(q.prio, q.normal, priority))
  {
    OneMoreGoesOut(q.sent, q.accepted, q.prio, q.normal, late, priority);
  }

  lemma LostTracked(q: Requests, late: set<nat>, r: Requests)
    requires Tracked(q, late) && r.accepted == q.accepted + 1 && r.sent == q.sent
    requires r.prio == q.prio && r.normal == q.normal
    ensures Tracked(r, late)
  {
    OneMoreAccepted(q.sent, q.accepted, q.prio, q.normal, late);
  }

  lemma SubmissionTracked(q: Requests, late: set<nat>, e: QueueEvent)
    requires Tracked(q, late) && e.Submit?
    ensures Tracked(QueueStep(q, e), late + Passed(q, e))
  {
    assert late + {} == late;
    if !(e.stream.Some? && e.aborting && e.signal != AbortStream) {
      Submitted(q, e);
      if q.outstanding.Some? {
        var x := Request(q.accepted, e.signal, e.seid, e.stream, 0, false, false);
        WaitingTracked(q, late, e.priority, x, QueueStep(q, e));
      } else if Sends(q) {
        GoneTracked(q, late, e.priority, QueueStep(q, e));
        PassesThoseBefore(q, e);
      } else {
        LostTracked(q, late, QueueStep(q, e));
      }
    }
  }

  lemma AnswerTracked(q: Requests, late: set<nat>)
    requires Tracked(q, late) && q.outstanding.Some?
    ensures var next := NextSent(q, Answer);
      if next.Some? && next.value in late then !SentInOrder(Answered(q).sent) else Tracked(Answered(q), late)
  {
    if q.prio != [] {
      AnswerSends(q, q.prio[0], true, q.prio[1..], q.normal);
      NextGoesOut(q.sent, q.accepted, q.prio[1..], q.normal, late, q.prio[0], true);
    } else if q.normal != [] {
      AnswerSends(q, q.normal[0], false, [], q.normal[1..]);
      NextGoesOut(q.sent, q.accepted, [], q.normal[1..], late, q.normal[0], false);
    }
  }

  lemma CleanupTracked(q: Requests, late: set<nat>, gone: nat)
    requires Tracked(q, late)
    ensures Tracked(CleanupQueue(q, gone), late)
  {
    QueuedWithout(q.prio, true, q.sent, q.accepted, late, gone);
    QueuedWithout(q.normal, false, q.sent, q.accepted, late, gone);
  }

  lemma ToldTracked(q: Requests, late: set<nat>, m: Message)
    requires Tracked(q, late) && m.Response?
    ensures Tracked(TrySend(q, m).0, late)
  {
    QueuedBehind(q.prio, true, q.sent, q.accepted, late, m, q.accepted, late);
    QueuedBehind(q.normal, false, q.sent, q.accepted, late, m, q.accepted, late);
  }

  /** A step breaks the order on the channel exactly if it sends a late request; which are late is known again. */
  lemma StepTracked(q: Requests, late: set<nat>, e: QueueEvent)
    requires Tracked(q, late)
    ensures var next := NextSent(q, e);
      if next.Some? && next.value in late then !SentInOrder(QueueStep(q, e).sent)
      else Tracked(QueueStep(q, e), late + Passed(q, e))
  {
    if e.Submit? {
      SubmissionTracked(q, late, e);
    } else {
      assert late + {} == late;
      match e
      case Answer =>
        if q.outstanding.Some? {
          AnswerTracked(q, late);
        }
      case Cleanup(gone) => CleanupTracked(q, late, gone);
      case Told(accepted, answered) => ToldTracked(q, late, Response(accepted, answered));
      case _ =>
    }
  }

  lemma StepSendsOn(q: Requests, e: QueueEvent)
    ensures q.sent <= QueueStep(q, e).sent
  {
  }

  lemma {:induction false} RunSendsOn(q: Requests, events: seq<QueueEvent>)
    ensures q.sent <= QueueRun(q, events).sent
    decreases |events|
  {
    if events != [] {
      StepSendsOn(q, events[0]);
      RunSendsOn(QueueStep(q, events[0]), events[1..]);
    }
  }

  lemma DisorderStays(sent: seq<Message>, more: seq<Message>)
    requires sent <= more && !SentInOrder(sent)
    ensures !SentInOrder(more)
  {
    var i, j :| 0 <= i < j < |sent| && sent[j].Command? && !MayFollow(sent[i], sent[j].id, sent[j].priority);
    assert more[i] == sent[i] && more[j] == sent[j];
  }

  /** The order on the channel, over every run and with any sends failing: it is kept exactly if no answer sends a request
      that a submission overtook while it waited. */
  lemma {:induction false} ChannelInOrderExactlyWhen(q: Requests, late: set<nat>, events: seq<QueueEvent>)
    requires Tracked(q, late)
    ensures SentInOrder(QueueRun(q, events).sent) <==> !SendsOvertaken(q, late, events)
    decreases |events|
  {
    if events != [] {
      var next, step := NextSent(q, events[0]), QueueStep(q, events[0]);
      StepTracked(q, late, events[0]);
      if next.Some? && next.value in late {
        RunSendsOn(step, events[1..]);
        DisorderStays(step.sent, QueueRun(step, events[1..]).sent);
      } else {
        ChannelInOrderExactlyWhen(step, late + Passed(q, events[0]), events[1..]);
      }
    }
  }

  /** From a session's start. */
  lemma RunInOrderExactlyWhen(faults: seq<bool>, events: seq<QueueEvent>)
    ensures var start := NO_REQUESTS.(faults := faults);
      SentInOrder(QueueRun(start, events).sent) <==> !SendsOvertaken(start, {}, events)
  {
    ChannelInOrderExactlyWhen(NO_REQUESTS.(faults := faults), {}, events);
  }

  /** After an answer the next request is sent or was the only one; any other end of a request leaves none waiting. */
  predicate SettlesAfter(q: Requests, e: QueueEvent) {
    q.outstanding.Some? ==>
      match e
      case Answer => |q.prio| + |q.normal| <= 1 || Sends(q)
      case Cancelled => q.prio == [] && q.normal == []
      case GivenUp =>
        q.outstanding.value.timed && q.outstanding.value.signal != AbortStream ==> q.prio == [] && q.normal == []
      case _ => true
  }

  ghost predicate AlwaysSettled(q: Requests, events: seq<QueueEvent>)
    decreases |events|
  {
    Settled(q) && (events == [] || AlwaysSettled(QueueStep(q, events[0]), events[1..]))
  }

  predicate EveryStepSettles(q: Requests, events: seq<QueueEvent>)
    decreases |events|
  {
    events == [] || (SettlesAfter(q, events[0]) && EveryStepSettles(QueueStep(q, events[0]), events[1..]))
  }

  lemma StepSettledExactlyWhen(q: Requests, e: QueueEvent)
    requires Settled(q)
    ensures Settled(QueueStep(q, e)) <==> SettlesAfter(q, e)
  {
    if e.Answer? && q.outstanding.Some? {
      AnswerSettlesExactlyWhen(q);
    }
  }

  /** Over every run: nothing ever waits without an outstanding request exactly if no step leaves a request behind. */
  lemma {:induction false} SettledExactlyWhen(q: Requests, events: seq<QueueEvent>)
    requires Settled(q)
    ensures AlwaysSettled(q, events) <==> EveryStepSettles(q, events)
    decreases |events|
  {
    if events != [] {
      StepSettledExactlyWhen(q, events[0]);
      if SettlesAfter(q, events[0]) {
        SettledExactlyWhen(QueueStep(q, events[0]), events[1..]);
      } else {
        assert !Settled(QueueStep(q, events[0]));
      }
    }
  }

  lemma {:induction false} SettledRunFrom(q: Requests, events: seq<QueueEvent>)
    requires InOrder(q) && Settled(q) && EveryStepSettles(q, events)
    ensures InOrder(QueueRun(q, events)) && Settled(QueueRun(q, events))
    ensures NeverOvertakes(q, events)
    decreases |events|
  {
    if events != [] {
      StepInOrderExactlyWhen(q, events[0]);
      StepSettledExactlyWhen(q, events[0]);
      SettledRunFrom(QueueStep(q, events[0]), events[1..]);
    }
  }

  /** In every run, with any sends failing, whose steps leave no request behind: requests go out in order, none
      overtakes, and none waits without another being outstanding. */
  lemma OrderlyRuns(faults: seq<bool>, events: seq<QueueEvent>)
    requires EveryStepSettles(NO_REQUESTS.(faults := faults), events)
    ensures var q := QueueRun(NO_REQUESTS.(faults := faults), events); Settled(q) && SentInOrder(q.sent)
    ensures NeverOvertakes(NO_REQUESTS.(faults := faults), events)
  {
    SettledRunFrom(NO_REQUESTS.(faults := faults), events);
  }

  /** An answer leaves requests behind without an outstanding one exactly when the next request cannot be sent and was
      not the only one that waited. */
  lemma AnswerSettlesExactlyWhen(q: Requests)
    requires q.outstanding.Some?
    ensures Settled(Answered(q)) <==> |q.prio| + |q.normal| <= 1 || q.faults == [] || !q.faults[0]
  {
  }

  /** One request goes out, two wait, and the answer finds the channel failing for the first of these. */
  lemma SecondSendFails(signal: Signal, events: seq<QueueEvent>) returns (q: Requests)
    requires |events| >= 4 && events[3] == Answer
    requires events[0] == Submit(false, None, false, signal, 1) && events[1] == Submit(true, None, false, signal, 2)
    requires events[2] == Submit(true, None, false, signal, 3)
    ensures QueueRun(NO_REQUESTS.(faults := [false, true]), events) == QueueRun(q, events[4..])
    ensures q == Requests(None, [Request(2, signal, 3, None, 0, false, false)], [], 3, q.freed, q.transaction,
      [Command(0, false, 1)], [])
  {
    var start := NO_REQUESTS.(faults := [false, true]);
    var q1 := QueueStep(start, events[0]);
    assert q1.outstanding.Some? && q1.faults == [true];
    var q2 := QueueStep(q1, events[1]);
    var q3 := QueueStep(q2, events[2]);
    q := QueueStep(q3, Answer);
    RunUnfold(start, events, 0);
    RunUnfold(q1, events, 1);
    RunUnfold(q2, events, 2);
    RunUnfold(q3, events, 3);
    assert events[0..] == events;
  }

  /** After a failed send a normal request can overtake a waiting priority request. */
  lemma FailedSendReorders(signal: Signal, submitted: seq<QueueEvent>)
    requires submitted ==
      [Submit(false, None, false, signal, 1), Submit(true, None, false, signal, 2), Submit(true, None, false, signal, 3),
       Answer, Submit(false, None, false, signal, 4), Answer]
    ensures !SentInOrder(QueueRun(NO_REQUESTS.(faults := [false, true]), submitted).sent)
  {
    var q4 := SecondSendFails(signal, submitted);
    var q5 := QueueStep(q4, submitted[4]);
    assert q5.sent == [Command(0, false, 1), Command(3, false, 4)];
    var q6 := QueueStep(q5, Answer);
    assert q6.sent == q5.sent + [Command(2, true, 4)];
    assert !MayFollow(q6.sent[1], q6.sent[2].id, q6.sent[2].priority);
    RunUnfold(q4, submitted, 4);
    RunUnfold(q5, submitted, 5);
    assert submitted[6..] == [];
  }

  /** Without any failed send: a request is cancelled while another waits, an abort goes out at once, and its answer sends
      the one that waited. */
  lemma CancelledReorders(signal: Signal, submitted: seq<QueueEvent>)
    requires submitted ==
      [Submit(false, None, false, signal, 1), Submit(true, None, false, signal, 2), Cancelled,
       Submit(true, None, false, AbortStream, 1), Answer]
    ensures !SentInOrder(QueueRun(NO_REQUESTS, submitted).sent)
  {
    var q1 := QueueStep(NO_REQUESTS, submitted[0]);
    var q2 := QueueStep(q1, submitted[1]);
    var q3 := QueueStep(q2, Cancelled);
    assert q3.outstanding == None && q3.prio == [Request(1, signal, 2, None, 0, false, false)] && q3.accepted == 2;
    var q4 := QueueStep(q3, submitted[3]);
    assert q4.sent == [Command(0, false, 1), Command(2, true, 3)];
    var q5 := QueueStep(q4, Answer);
    assert q5.sent == q4.sent + [Command(1, true, 3)];
    assert !MayFollow(q5.sent[1], q5.sent[2].id, q5.sent[2].priority);
    RunUnfold(NO_REQUESTS, submitted, 0);
    RunUnfold(q1, submitted, 1);
    RunUnfold(q2, submitted, 2);
    RunUnfold(q3, submitted, 3);
    RunUnfold(q4, submitted, 4);
    assert submitted[0..] == submitted && submitted[5..] == [];
  }

  lemma RunUnfold(q: Requests, events: seq<QueueEvent>, k: nat)
    requires k < |events|
    ensures QueueRun(q, events[k..]) == QueueRun(QueueStep(q, events[k]), events[k + 1..])
  {
    assert events[k..][1..] == events[k + 1..];
  }
}
