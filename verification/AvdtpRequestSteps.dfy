/** What each operation does to the requests of a session, place by place. */
module AvdtpRequestSteps {
  import opened AvdtpRequests
  import opened Options

  /** A request that is handed over: it waits last in its queue while another is outstanding; else it becomes the
      outstanding one, under the next of sixteen transactions and with its timer running, or is freed if the send fails. */
  ghost predicate HandedOver(q: Requests, priority: bool, req: Request, r: Requests) {
    if q.outstanding.Some? then
      r == if priority then q.(prio := q.prio + [req]) else q.(normal := q.normal + [req])
    else
      && r.prio == q.prio && r.normal == q.normal && r.accepted == q.accepted
      && r.transaction == (q.transaction + 1) % 16
      && r.faults == (if q.faults == [] then [] else q.faults[1..])
      && if q.faults == [] || !q.faults[0] then
          && r.outstanding == Some(Request(req.id, req.signal, req.seid, req.stream, q.transaction, true, req.collided))
          && r.sent == q.sent + [Command(req.id, priority, q.accepted)] && r.freed == q.freed
        else r.outstanding == None && r.sent == q.sent && r.freed == q.freed + [req.id]
  }

  /** It succeeds exactly if the request waits or could be sent. */
  lemma SendReqHandsOver(q: Requests, priority: bool, req: Request)
    ensures HandedOver(q, priority, req, SendReq(q, priority, req).0)
    ensures SendReq(q, priority, req).1 <==> q.outstanding.Some? || q.faults == [] || !q.faults[0]
  {
  }

  /** The upper layer's request is refused exactly if its stream is being aborted and it is not the abort; every other
      gets the next identity and is handed over. */
  ghost predicate Asked(q: Requests, priority: bool, stream: Option<nat>, signal: Signal, seid: nat, r: Requests) {
    HandedOver(q.(accepted := q.accepted + 1), priority, Request(q.accepted, signal, seid, stream, 0, false, false), r)
  }

  lemma AskedExactlyWhen(q: Requests, priority: bool, stream: Option<nat>, aborting: bool, signal: Signal, seid: nat)
    ensures var (r, ok) := SendRequest(q, priority, stream, aborting, signal, seid);
      if stream.Some? && aborting && signal != AbortStream then r == q && !ok
      else
        && Asked(q, priority, stream, signal, seid, r)
        && (ok <==> q.outstanding.Some? || q.faults == [] || !q.faults[0])
  {
    SendReqHandsOver(q.(accepted := q.accepted + 1), priority, Request(q.accepted, signal, seid, stream, 0, false, false));
  }

  /** Nothing happens while a request is outstanding or none waits; else the first priority request is handed over, and
      without one the first normal one. */
  ghost predicate NextHandedOver(q: Requests, r: Requests) {
    if q.outstanding.Some? || (q.prio == [] && q.normal == []) then r == q
    else if q.prio != [] then HandedOver(q.(prio := q.prio[1..]), true, q.prio[0], r)
    else HandedOver(q.(normal := q.normal[1..]), false, q.normal[0], r)
  }

  lemma ProcessQueueHandsOver(q: Requests)
    ensures NextHandedOver(q, ProcessQueue(q).0)
  {
    if q.prio != [] {
      SendReqHandsOver(q.(prio := q.prio[1..]), true, q.prio[0]);
    } else if q.normal != [] {
      SendReqHandsOver(q.(normal := q.normal[1..]), false, q.normal[0]);
    }
  }

  /** The end of an answered request: it is freed, and the next one is handed over. */
  lemma AnsweredHandsOver(q: Requests)
    requires q.outstanding.Some?
    ensures NextHandedOver(q.(outstanding := None, freed := q.freed + [q.outstanding.value.id]), Answered(q))
  {
    ProcessQueueHandsOver(Dropped(q));
  }

  /** The requests of a stream are taken out of a queue one by one, and the others stay in order. */
  lemma {:induction false} WithoutConcat(a: seq<Request>, b: seq<Request>, stream: nat)
    ensures Without(a + b, stream) == Without(a, stream) + Without(b, stream)
  {
    if a == [] {
      assert a + b == b;
    } else {
      WithoutConcat(a[1..], b, stream);
      assert (a + b)[0] == a[0] && (a + b)[1..] == a[1..] + b;
      var x, y := Without(a[1..], stream), Without(b, stream);
      assert [a[0]] + (x + y) == ([a[0]] + x) + y;
    }
  }

  lemma {:induction false} IdsConcat(a: seq<Request>, b: seq<Request>, stream: nat)
    ensures IdsFor(a + b, stream) == IdsFor(a, stream) + IdsFor(b, stream)
  {
    if a == [] {
      assert a + b == b;
    } else {
      IdsConcat(a[1..], b, stream);
      assert (a + b)[0] == a[0] && (a + b)[1..] == a[1..] + b;
      var x, y := IdsFor(a[1..], stream), IdsFor(b, stream);
      assert [a[0].id] + (x + y) == ([a[0].id] + x) + y;
    }
  }

  lemma WithoutOne(r: Request, stream: nat)
    ensures Without([r], stream) == (if r.stream == Some(stream) then [] else [r])
    ensures IdsFor([r], stream) == (if r.stream == Some(stream) then [r.id] else [])
  {
    assert [r][1..] == [];
  }

  /** A clean-up touches the queues and the freed requests only. */
  lemma CleanupTouches(q: Requests, stream: nat)
    ensures var r := CleanupQueue(q, stream);
      && r == q.(prio := r.prio, normal := r.normal, freed := r.freed)
      && (forall x :: x in r.prio <==> x in q.prio && x.stream != Some(stream))
      && (forall x :: x in r.normal <==> x in q.normal && x.stream != Some(stream))
      && |r.prio| + |r.normal| + |r.freed| == |q.prio| + |q.normal| + |q.freed| && q.freed <= r.freed
  {
    WithoutMembers(q.prio, stream);
    WithoutMembers(q.normal, stream);
  }

  lemma {:induction false} WithoutMembers(queue: seq<Request>, stream: nat)
    ensures forall x :: x in Without(queue, stream) <==> x in queue && x.stream != Some(stream)
    ensures |Without(queue, stream)| + |IdsFor(queue, stream)| == |queue|
  {
    if queue != [] {
      WithoutMembers(queue[1..], stream);
    }
  }

  /** When the stream of the outstanding request goes away: a request whose timer is stopped stays, as its answer is being
      processed; an abort stays but forgets its stream; any other is given up. */
  lemma UnansweredExactlyWhen(q: Requests)
    requires q.outstanding.Some?
    ensures var req, r := q.outstanding.value, HandleUnanswered(q);
      if !req.timed then r == q
      else if req.signal == AbortStream then
        r == q.(outstanding := Some(Request(req.id, req.signal, req.seid, None, req.transaction, true, req.collided)))
      else r == q.(outstanding := None, freed := q.freed + [req.id])
  {
  }
}
