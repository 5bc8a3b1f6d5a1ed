/** The requests of one AVDTP session: at most one is outstanding, the others wait in a priority and a normal queue. */
module AvdtpRequests {
  import opened Options

  datatype Signal =
    | DiscoverSeps | GetCapabilities | SetConfiguration | GetConfiguration | Reconfigure | OpenStream | StartStream
    | CloseStream | SuspendStream | AbortStream | SecurityControl | GetAllCapabilities | DelayReport

  /** A pending request. `timed` says that its answer timer runs; it stops while an answer is processed. */
  datatype Request = Request(id: nat, signal: Signal, seid: nat, stream: Option<nat>, transaction: nat, timed: bool,
    collided: bool)

  /** What went out on the channel. `before` counts the requests that had been accepted at that moment. */
  datatype Message = Command(id: nat, priority: bool, before: nat) | Response(accepted: bool, signal: Signal)

  /** The requests of a session, the identities of those already freed, and the channel: each send takes the next of
      `faults`, and after these every send works. */
  datatype Requests = Requests(outstanding: Option<Request>, prio: seq<Request>, normal: seq<Request>, accepted: nat,
    freed: seq<nat>, transaction: nat, sent: seq<Message>, faults: seq<bool>)

  const NO_REQUESTS := Requests(None, [], [], 0, [], 0, [], [])

  function TrySend(q: Requests, m: Message): (r: (Requests, bool))
    ensures r.1 ==> r.0.sent == q.sent + [m]
    ensures !r.1 ==> r.0.sent == q.sent
    ensures q.faults == [] ==> r.1 && r.0.faults == []
  {
    if q.faults == [] then (q.(sent := q.sent + [m]), true)
    else if q.faults[0] then (q.(faults := q.faults[1..]), false)
    else (q.(faults := q.faults[1..], sent := q.sent + [m]), true)
  }

  /** The next send works. */
  predicate Sends(q: Requests) {
    q.faults == [] || !q.faults[0]
  }

  // ---------------------------------------------------------------- operations

  /** Queues a request behind an outstanding one, or sends it. A request that cannot be sent is freed. */
  function SendReq(q: Requests, priority: bool, r: Request): (Requests, bool) {
    if q.outstanding.Some? then
      if priority then (q.(prio := q.prio + [r]), true) else (q.(normal := q.normal + [r]), true)
    else
      var numbered := q.(transaction := (q.transaction + 1) % 16);
      var (q', ok) := TrySend(numbered, Command(r.id, priority, q.accepted));
      if ok then (q'.(outstanding := Some(r.(transaction := q.transaction, timed := true))), true)
      else (q'.(freed := q'.freed + [r.id]), false)
  }

  /** A request for an aborting stream is not accepted, unless it is the abort. */
  function SendRequest(q: Requests, priority: bool, stream: Option<nat>, aborting: bool, signal: Signal, seid: nat):
      (Requests, bool)
  {
    if stream.Some? && aborting && signal != AbortStream then (q, false)
    else
      var r := Request(q.accepted, signal, seid, stream, 0, false, false);
      SendReq(q.(accepted := q.accepted + 1), priority, r)
  }

  function ProcessQueue(q: Requests): (Requests, bool) {
    if q.outstanding.Some? then (q, true)
    else if q.prio != [] then SendReq(q.(prio := q.prio[1..]), true, q.prio[0])
    else if q.normal != [] then SendReq(q.(normal := q.normal[1..]), false, q.normal[0])
    else (q, true)
  }

  /** Takes the outstanding request away, freed, and leaves the queues. */
  function Dropped(q: Requests): Requests
    requires q.outstanding.Some?
  {
    q.(outstanding := None, freed := q.freed + [q.outstanding.value.id])
  }

  /** The end of a request that was answered: the next one is sent. */
  function Answered(q: Requests): Requests
    requires q.outstanding.Some?
  {
    ProcessQueue(Dropped(q)).0
  }

  function Without(queue: seq<Request>, stream: nat): seq<Request> {
    if queue == [] then []
    else if queue[0].stream == Some(stream) then Without(queue[1..], stream)
    else [queue[0]] + Without(queue[1..], stream)
  }

  function IdsFor(queue: seq<Request>, stream: nat): seq<nat> {
    if queue == [] then []
    else if queue[0].stream == Some(stream) then [queue[0].id] + IdsFor(queue[1..], stream)
    else IdsFor(queue[1..], stream)
  }

  /** Frees the waiting requests of a stream. */
  function CleanupQueue(q: Requests, stream: nat): Requests {
    q.(prio := Without(q.prio, stream), normal := Without(q.normal, stream),
       freed := q.freed + IdsFor(q.prio, stream) + IdsFor(q.normal, stream))
  }

  /** The outstanding request's stream goes away. A request whose answer is being processed is left alone; an abort
      only forgets its stream; any other request is given up. */
  function HandleUnanswered(q: Requests): Requests
    requires q.outstanding.Some?
  {
    var r := q.outstanding.value;
    if !r.timed then q
    else if r.signal == AbortStream then q.(outstanding := Some(r.(stream := None)))
    else q.(outstanding := None, freed := q.freed + [r.id])
  }

  // ---------------------------------------------------------------- conservation

  /** How often a request waits in a queue, and how often it was freed. */
  function Copies(queue: seq<Request>, id: nat): nat {
    if queue == [] then 0 else (if queue[0].id == id then 1 else 0) + Copies(queue[1..], id)
  }

  function Times(ids: seq<nat>, id: nat): nat {
    if ids == [] then 0 else (if ids[0] == id then 1 else 0) + Times(ids[1..], id)
  }

  function Places(q: Requests, id: nat): nat {
    (if q.outstanding.Some? && q.outstanding.value.id == id then 1 else 0)
    + Copies(q.prio, id) + Copies(q.normal, id) + Times(q.freed, id)
  }

  /** Every request ever accepted is in exactly one place: outstanding, in one of the queues, or freed, once. */
  ghost predicate Conserved(q: Requests) {
    forall id: nat :: Places(q, id) == if id < q.accepted then 1 else 0
  }

  lemma {:induction false} CopiesOfConcat(a: seq<Request>, b: seq<Request>, id: nat)
    ensures Copies(a + b, id) == Copies(a, id) + Copies(b, id)
  {
    if a == [] {
      assert a + b == b;
    } else {
      CopiesOfConcat(a[1..], b, id);
      assert (a + b)[1..] == a[1..] + b;
    }
  }

  lemma {:induction false} TimesOfConcat(a: seq<nat>, b: seq<nat>, id: nat)
    ensures Times(a + b, id) == Times(a, id) + Times(b, id)
  {
    if a == [] {
      assert a + b == b;
    } else {
      TimesOfConcat(a[1..], b, id);
      assert (a + b)[1..] == a[1..] + b;
    }
  }

  lemma TrySendConserves(q: Requests, m: Message)
    requires Conserved(q)
    ensures Conserved(TrySend(q, m).0)
  {
    var q' := TrySend(q, m).0;
    forall id: nat ensures Places(q', id) == if id < q.accepted then 1 else 0 {
      assert Places(q', id) == Places(q, id);
    }
  }

  lemma HandleUnansweredConserves(q: Requests)
    requires Conserved(q) && q.outstanding.Some?
    ensures Conserved(HandleUnanswered(q))
  {
    var r := q.outstanding.value;
    if r.timed {
      if r.signal == AbortStream {
        forall id: nat ensures Places(HandleUnanswered(q), id) == if id < q.accepted then 1 else 0 {
          assert Places(HandleUnanswered(q), id) == Places(q, id);
        }
      } else {
        FreeingConserves(q);
      }
    }
  }

  /** Sending or queueing a request puts it in one more place and leaves all others where they are. */
  lemma SendReqPlaces(q: Requests, priority: bool, r: Request, id: nat)
    ensures Places(SendReq(q, priority, r).0, id) == Places(q, id) + if r.id == id then 1 else 0
    ensures SendReq(q, priority, r).0.accepted == q.accepted
  {
    if q.outstanding.Some? {
      CopiesOfConcat(if priority then q.prio else q.normal, [r], id);
      assert [r][1..] == [];
    } else {
      TimesOfConcat(q.freed, [r.id], id);
      assert [r.id][1..] == [];
    }
  }

  lemma SendRequestConserves(q: Requests, priority: bool, stream: Option<nat>, aborting: bool, signal: Signal, seid: nat)
    requires Conserved(q)
    ensures Conserved(SendRequest(q, priority, stream, aborting, signal, seid).0)
  {
    if !(stream.Some? && aborting && signal != AbortStream) {
      var r := Request(q.accepted, signal, seid, stream, 0, false, false);
      var q' := q.(accepted := q.accepted + 1);
      forall id: nat ensures Places(SendReq(q', priority, r).0, id) == if id < q.accepted + 1 then 1 else 0 {
        assert Places(q', id) == Places(q, id);
        SendReqPlaces(q', priority, r, id);
      }
    }
  }

  /** Whatever is outstanding moves to the freed requests, and the next one from its queue to the channel. */
  lemma ProcessQueuePlaces(q: Requests, id: nat)
    ensures Places(ProcessQueue(q).0, id) == Places(q, id) && ProcessQueue(q).0.accepted == q.accepted
  {
    if q.outstanding.None? {
      if q.prio != [] {
        SendReqPlaces(q.(prio := q.prio[1..]), true, q.prio[0], id);
      } else if q.normal != [] {
        SendReqPlaces(q.(normal := q.normal[1..]), false, q.normal[0], id);
      }
    }
  }

  lemma FreedPlaces(q: Requests, id: nat)
    requires q.outstanding.Some?
    ensures Places(Dropped(q), id) == Places(q, id)
  {
    TimesOfConcat(q.freed, [q.outstanding.value.id], id);
    assert [q.outstanding.value.id][1..] == [];
  }

  lemma FreeingConserves(q: Requests)
    requires Conserved(q) && q.outstanding.Some?
    ensures Conserved(Dropped(q))
  {
    var q' := Dropped(q);
    forall id: nat ensures Places(q', id) == if id < q.accepted then 1 else 0 {
      FreedPlaces(q, id);
    }
  }

  lemma AnsweredConserves(q: Requests)
    requires Conserved(q) && q.outstanding.Some?
    ensures Conserved(Answered(q))
  {
    var q' := Dropped(q);
    forall id: nat ensures Places(Answered(q), id) == if id < Answered(q).accepted then 1 else 0 {
      FreedPlaces(q, id);
      ProcessQueuePlaces(q', id);
    }
  }

  lemma {:induction false} WithoutPartitions(queue: seq<Request>, stream: nat, id: nat)
    ensures Copies(queue, id) == Copies(Without(queue, stream), id) + Times(IdsFor(queue, stream), id)
  {
    if queue != [] {
      WithoutPartitions(queue[1..], stream, id);
      assert ([queue[0]] + Without(queue[1..], stream))[1..] == Without(queue[1..], stream);
      assert ([queue[0].id] + IdsFor(queue[1..], stream))[1..] == IdsFor(queue[1..], stream);
    }
  }

  lemma CleanupQueueConserves(q: Requests, stream: nat)
    requires Conserved(q)
    ensures Conserved(CleanupQueue(q, stream))
  {
    forall id: nat ensures Places(CleanupQueue(q, stream), id) == if id < q.accepted then 1 else 0 {
      WithoutPartitions(q.prio, stream, id);
      WithoutPartitions(q.normal, stream, id);
      TimesOfConcat(q.freed + IdsFor(q.prio, stream), IdsFor(q.normal, stream), id);
      TimesOfConcat(q.freed, IdsFor(q.prio, stream), id);
      assert Places(q, id) == if id < q.accepted then 1 else 0;
    }
  }

  // ---------------------------------------------------------------- references to streams

  /** Every waiting request, and an outstanding one whose timer runs, names a stream among `live` or none. */
  ghost predicate RefersTo(q: Requests, live: seq<nat>) {
    && (forall r <- q.prio :: r.stream.Some? ==> r.stream.value in live)
    && (forall r <- q.normal :: r.stream.Some? ==> r.stream.value in live)
    && (q.outstanding.Some? && q.outstanding.value.timed && q.outstanding.value.stream.Some? ==>
          q.outstanding.value.stream.value in live)
  }

  lemma {:induction false} WithoutIsClean(queue: seq<Request>, stream: nat)
    ensures forall r <- Without(queue, stream) :: r in queue && r.stream != Some(stream)
  {
    if queue != [] {
      WithoutIsClean(queue[1..], stream);
    }
  }

  ghost predicate ForgetsStream(q: Requests, stream: nat) {
    && (forall r <- q.prio :: r.stream != Some(stream))
    && (forall r <- q.normal :: r.stream != Some(stream))
    && (q.outstanding.Some? && q.outstanding.value.timed ==> q.outstanding.value.stream != Some(stream))
  }

  /** Nothing refers to a stream after its requests have been given up. */
  lemma CleanupForgets(q: Requests, live: seq<nat>, stream: nat)
    requires RefersTo(q, live)
    requires q.outstanding.Some? && q.outstanding.value.timed ==> q.outstanding.value.stream != Some(stream)
    ensures RefersTo(CleanupQueue(q, stream), live) && ForgetsStream(CleanupQueue(q, stream), stream)
  {
    WithoutIsClean(q.prio, stream);
    WithoutIsClean(q.normal, stream);
  }

  lemma SendReqRefersTo(q: Requests, priority: bool, r: Request, live: seq<nat>)
    requires RefersTo(q, live) && (r.stream.Some? ==> r.stream.value in live)
    ensures RefersTo(SendReq(q, priority, r).0, live)
  {
  }

  lemma ProcessQueueRefersTo(q: Requests, live: seq<nat>)
    requires RefersTo(q, live)
    ensures RefersTo(ProcessQueue(q).0, live)
  {
  }

  lemma LivesOn(q: Requests, live: seq<nat>, stream: nat, rest: seq<nat>)
    requires RefersTo(q, live) && ForgetsStream(q, stream)
    requires forall x :: x in rest <==> x in live && x != stream
    ensures RefersTo(q, rest)
  {
  }

  lemma SendRequestRefersTo(q: Requests, priority: bool, stream: Option<nat>, aborting: bool, signal: Signal, seid: nat,
      live: seq<nat>)
    requires RefersTo(q, live) && (stream.Some? ==> stream.value in live)
    ensures RefersTo(SendRequest(q, priority, stream, aborting, signal, seid).0, live)
  {
    var r := Request(q.accepted, signal, seid, stream, 0, false, false);
    SendReqRefersTo(q.(accepted := q.accepted + 1), priority, r, live);
  }

  lemma MoreLive(q: Requests, live: seq<nat>, rest: seq<nat>)
    requires RefersTo(q, live) && forall x <- live :: x in rest
    ensures RefersTo(q, rest)
  {
  }

  // ---------------------------------------------------------------- the answer in process

  /** While an answer is processed its request is still outstanding, with its timer stopped. */
  predicate InProcess(q: Requests) {
    q.outstanding.Some? && !q.outstanding.value.timed
  }

  /** A request whose answer is processed stays outstanding, and no other gets into that state. */
  ghost predicate KeepsProcess(q: Requests, q': Requests) {
    if InProcess(q) then q'.outstanding == q.outstanding else !InProcess(q')
  }
}
