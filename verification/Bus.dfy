/** The message bus under every interleaving: publishers, consumers and Close as threads that take
    one atomic step at a time on three bounded queues. */
module Bus {
  import opened Options

  const BUFFER_SIZE := 64

  datatype Kind = Inbound | Outbound | OutboundMedia

  /** A message is known by the publish call that carries it. `accepted` are all messages that ever
      went in, `taken` all that came out, each with the call that took it, in order. */
  datatype Queue = Queue(buffer: seq<nat>, accepted: seq<nat>, taken: seq<nat>, takers: seq<nat>)

  /** Where a publish call is: before its load of `closed`, before its context check, in its
      select, or returned. */
  datatype Publish = Begun | Loaded | Selecting | Accepted | Refused

  datatype Close = Entered | Won | Draining(kind: Kind) | Returned

  /** `late` marks a publish call that began after a Close had set `closed`. */
  datatype Thread =
    | Publisher(kind: Kind, publish: Publish, late: bool)
    | Consumer(kind: Kind, finished: bool, got: Option<nat>)
    | Closer(close: Close)

  datatype State = State(closed: bool, done: bool, inbound: Queue, outbound: Queue, media: Queue,
                         threads: map<nat, Thread>)
  {
    function Of(k: Kind): Queue {
      match k
      case Inbound => inbound
      case Outbound => outbound
      case OutboundMedia => media
    }

    function With(k: Kind, q: Queue): State {
      match k
      case Inbound => this.(inbound := q)
      case Outbound => this.(outbound := q)
      case OutboundMedia => this.(media := q)
    }

    function Moved(id: nat, t: Thread): State { this.(threads := threads[id := t]) }
  }

  /** What a thread does next: a select may have several cases ready. */
  datatype Action = Proceed | Cancelled | SeeDone

  datatype Step = Start(id: nat, thread: Thread) | Act(id: nat, action: Action)

  function Empty(): State {
    var q := Queue([], [], [], []);
    State(false, false, q, q, q, map[])
  }

  function Put(q: Queue, m: nat): Queue {
    q.(buffer := q.buffer + [m], accepted := q.accepted + [m])
  }

  function Take(q: Queue, taker: nat): Queue
    requires q.buffer != []
  {
    q.(buffer := q.buffer[1..], taken := q.taken + [q.buffer[0]], takers := q.takers + [taker])
  }

  /** A call just begun: what it starts with. */
  function Fresh(s: State, t: Thread): Thread {
    match t
    case Publisher(k, _, _) => Publisher(k, Begun, s.closed)
    case Consumer(k, _, _) => Consumer(k, false, None)
    case Closer(_) => Closer(Entered)
  }

  function PublishStep(s: State, id: nat, t: Thread, a: Action): Option<State>
    requires t.Publisher?
  {
    match t.publish
    case Begun => Some(s.Moved(id, t.(publish := if s.closed then Refused else Loaded)))
    case Loaded => Some(s.Moved(id, t.(publish := if a.Cancelled? then Refused else Selecting)))
    case Selecting => (
      match a
      case Proceed =>
        if |s.Of(t.kind).buffer| >= BUFFER_SIZE then None else
        Some(s.Moved(id, t.(publish := Accepted)).With(t.kind, Put(s.Of(t.kind), id)))
      case Cancelled => Some(s.Moved(id, t.(publish := Refused)))
      case SeeDone => if s.done then Some(s.Moved(id, t.(publish := Refused))) else None)
    case _ => None
  }

  function ConsumeStep(s: State, id: nat, t: Thread, a: Action): Option<State>
    requires t.Consumer?
  {
    var q := s.Of(t.kind);
    if t.finished then None else
    match a
    case Proceed =>
      if q.buffer == [] then None else
      Some(s.Moved(id, Consumer(t.kind, true, Some(q.buffer[0]))).With(t.kind, Take(q, id)))
    case Cancelled => Some(s.Moved(id, Consumer(t.kind, true, None)))
    case SeeDone => if s.done then Some(s.Moved(id, Consumer(t.kind, true, None))) else None
  }

  function AfterDraining(k: Kind): Close {
    match k
    case Inbound => Draining(Outbound)
    case Outbound => Draining(OutboundMedia)
    case OutboundMedia => Returned
  }

  function CloseStep(s: State, id: nat, t: Thread): Option<State>
    requires t.Closer?
  {
    match t.close
    case Entered =>
      if s.closed then Some(s.Moved(id, Closer(Returned))) else Some(s.Moved(id, Closer(Won)).(closed := true))
    case Won => Some(s.Moved(id, Closer(Draining(Inbound))).(done := true))
    case Draining(k) =>
      if s.Of(k).buffer == [] then Some(s.Moved(id, Closer(AfterDraining(k)))) else
      Some(s.With(k, Take(s.Of(k), id)))
    case Returned => None
  }

  /** The state after a step, or None when the step is not possible. */
  function Next(s: State, step: Step): Option<State>
  {
    match step
    case Start(id, t) => if id in s.threads then None else Some(s.Moved(id, Fresh(s, t)))
    case Act(id, a) =>
      if id !in s.threads then None else
      match s.threads[id]
      case Publisher(_, _, _) => PublishStep(s, id, s.threads[id], a)
      case Consumer(_, _, _) => ConsumeStep(s, id, s.threads[id], a)
      case Closer(_) => CloseStep(s, id, s.threads[id])
  }

  predicate Distinct(s: seq<nat>) {
    forall i, j :: 0 <= i < j < |s| ==> s[i] != s[j]
  }

  /** What went in is what came out followed by what is buffered; every message went in once, and
      exactly those whose publish call returns without an error. */
  predicate InOrder(q: Queue) {
    && q.accepted == q.taken + q.buffer
    && |q.buffer| <= BUFFER_SIZE && |q.takers| == |q.taken|
    && Distinct(q.accepted)
  }

  predicate IsAccepted(threads: map<nat, Thread>, k: Kind, m: nat) {
    m in threads && threads[m].Publisher? && threads[m].kind == k && threads[m].publish.Accepted?
  }

  predicate Took(threads: map<nat, Thread>, k: Kind, id: nat, m: nat) {
    id in threads && threads[id] == Consumer(k, true, Some(m))
  }

  /** Every message that came out went to Close or to the consumer that returned it. */
  ghost predicate Delivered(q: Queue, k: Kind, threads: map<nat, Thread>)
    requires |q.takers| == |q.taken|
  {
    && (forall i :: 0 <= i < |q.taken| ==>
          (q.takers[i] in threads && threads[q.takers[i]].Closer?) || Took(threads, k, q.takers[i], q.taken[i]))
    && (forall id: nat, m :: Took(threads, k, id, m) ==>
          exists i :: 0 <= i < |q.taken| && q.takers[i] == id && q.taken[i] == m)
  }

  ghost predicate QueueValid(q: Queue, k: Kind, threads: map<nat, Thread>) {
    && InOrder(q)
    && (forall m: nat :: m in q.accepted <==> IsAccepted(threads, k, m))
    && Delivered(q, k, threads)
  }

  /** Nothing late gets past the first load, Close acts on a closed bus, and a consumer returns
      with what it got. */
  predicate ThreadValid(closed: bool, t: Thread) {
    && (t.Publisher? && t.late ==> closed && (t.publish.Begun? || t.publish.Refused?))
    && (t.Closer? && !t.close.Entered? ==> closed)
    && (t.Consumer? && t.got.Some? ==> t.finished)
  }

  ghost predicate Valid(s: State) {
    && (s.done ==> s.closed)
    && (forall k :: QueueValid(s.Of(k), k, s.threads))
    && (forall id :: id in s.threads ==> ThreadValid(s.closed, s.threads[id]))
  }

  lemma EmptyIsValid()
    ensures Valid(Empty())
  {
  }

  lemma PutInOrder(q: Queue, m: nat)
    requires InOrder(q) && |q.buffer| < BUFFER_SIZE && m !in q.accepted
    ensures InOrder(Put(q, m))
  {
  }

  lemma TakeInOrder(q: Queue, id: nat)
    requires InOrder(q) && q.buffer != []
    ensures InOrder(Take(q, id)) && Take(q, id).accepted == q.accepted
  {
  }

  lemma AcceptedKept(accepted: seq<nat>, k: Kind, threads: map<nat, Thread>, id: nat, t: Thread)
    requires forall m: nat :: m in accepted <==> IsAccepted(threads, k, m)
    requires !IsAccepted(threads, k, id) && !(t.Publisher? && t.kind == k && t.publish.Accepted?)
    ensures forall m: nat :: m in accepted <==> IsAccepted(threads[id := t], k, m)
  {
    forall m: nat ensures m in accepted <==> IsAccepted(threads[id := t], k, m) {
      assert m != id ==> (IsAccepted(threads[id := t], k, m) <==> IsAccepted(threads, k, m));
    }
  }

  /** A call that has not received before and does not now leaves the deliveries as they were. */
  predicate SameTaker(threads: map<nat, Thread>, k: Kind, id: nat, t: Thread) {
    && (id in threads ==> (threads[id].Closer? <==> t.Closer?) && !Received(threads[id], k))
    && !Received(t, k)
  }

  predicate Received(t: Thread, k: Kind) {
    t.Consumer? && t.kind == k && t.got.Some?
  }

  lemma DeliveredKept(q: Queue, k: Kind, threads: map<nat, Thread>, id: nat, t: Thread)
    requires InOrder(q) && Delivered(q, k, threads) && SameTaker(threads, k, id, t)
    ensures Delivered(q, k, threads[id := t])
  {
    var threads' := threads[id := t];
    forall i | 0 <= i < |q.taken|
      ensures (q.takers[i] in threads' && threads'[q.takers[i]].Closer?) || Took(threads', k, q.takers[i], q.taken[i])
    {
      assert (q.takers[i] in threads && threads[q.takers[i]].Closer?) || Took(threads, k, q.takers[i], q.taken[i]);
    }
    forall c: nat, m | Took(threads', k, c, m)
      ensures exists i :: 0 <= i < |q.taken| && q.takers[i] == c && q.taken[i] == m
    {
      assert Took(threads, k, c, m);
    }
  }

  lemma QueueAccepts(q: Queue, k: Kind, threads: map<nat, Thread>, id: nat, t: Thread)
    requires QueueValid(q, k, threads) && |q.buffer| < BUFFER_SIZE && !IsAccepted(threads, k, id)
    requires t.Publisher? && t.kind == k && t.publish.Accepted? && SameTaker(threads, k, id, t)
    ensures QueueValid(Put(q, id), k, threads[id := t])
  {
    PutInOrder(q, id);
    DeliveredKept(q, k, threads, id, t);
    hide InOrder;
    forall m: nat ensures m in Put(q, id).accepted <==> IsAccepted(threads[id := t], k, m) {
      assert m != id ==> (IsAccepted(threads[id := t], k, m) <==> IsAccepted(threads, k, m));
    }
  }

  lemma QueueStays(q: Queue, k: Kind, threads: map<nat, Thread>, id: nat, t: Thread)
    requires QueueValid(q, k, threads) && !IsAccepted(threads, k, id) && SameTaker(threads, k, id, t)
    requires !(t.Publisher? && t.kind == k && t.publish.Accepted?)
    ensures QueueValid(q, k, threads[id := t])
  {
    AcceptedKept(q.accepted, k, threads, id, t);
    DeliveredKept(q, k, threads, id, t);
  }

  /** The call that takes the head: Close, which stays where it is, or a consumer, which returns it. */
  predicate Takes(q: Queue, k: Kind, was: Thread, t: Thread)
    requires q.buffer != []
  {
    || (t.Closer? && t == was)
    || (was == Consumer(k, false, None) && t == Consumer(k, true, Some(q.buffer[0])))
  }

  lemma QueueTaken(q: Queue, k: Kind, threads: map<nat, Thread>, id: nat, t: Thread)
    requires QueueValid(q, k, threads) && q.buffer != [] && id in threads
    requires Takes(q, k, threads[id], t)
    ensures QueueValid(Take(q, id), k, threads[id := t])
  {
    TakeInOrder(q, id);
    AcceptedKept(q.accepted, k, threads, id, t);
    DeliveredTaken(q, k, threads, id, t);
  }

  lemma DeliveredTaken(q: Queue, k: Kind, threads: map<nat, Thread>, id: nat, t: Thread)
    requires InOrder(q) && Delivered(q, k, threads) && q.buffer != [] && id in threads
    requires Takes(q, k, threads[id], t)
    ensures |Take(q, id).takers| == |Take(q, id).taken| && Delivered(Take(q, id), k, threads[id := t])
  {
    var q', threads' := Take(q, id), threads[id := t];
    var n := |q.taken|;
    forall i | 0 <= i < |q'.taken|
      ensures || (q'.takers[i] in threads' && threads'[q'.takers[i]].Closer?)
              || Took(threads', k, q'.takers[i], q'.taken[i])
    {
      if i < n {
        assert (q.takers[i] in threads && threads[q.takers[i]].Closer?) || Took(threads, k, q.takers[i], q.taken[i]);
      }
    }
    forall c: nat, m | Took(threads', k, c, m)
      ensures exists i :: 0 <= i < |q'.taken| && q'.takers[i] == c && q'.taken[i] == m
    {
      if c == id {
        assert q'.takers[n] == c && q'.taken[n] == m;
      } else {
        assert Took(threads, k, c, m);
        var i :| 0 <= i < n && q.takers[i] == c && q.taken[i] == m;
        assert q'.takers[i] == c && q'.taken[i] == m;
      }
    }
  }

  lemma PublishKeepsValid(s: State, id: nat, a: Action)
    requires Valid(s) && id in s.threads && s.threads[id].Publisher?
    ensures var n := PublishStep(s, id, s.threads[id], a); n.Some? ==> Valid(n.value)
  {
    var t := s.threads[id];
    var n := PublishStep(s, id, t, a);
    hide QueueValid;
    hide InOrder;
    if n.Some? {
      forall k ensures QueueValid(n.value.Of(k), k, n.value.threads) {
        assert QueueValid(s.Of(k), k, s.threads) && ThreadValid(s.closed, t);
        var moved := n.value.threads[id];
        if moved.publish.Accepted? && k == t.kind {
          QueueAccepts(s.Of(k), k, s.threads, id, moved);
        } else {
          QueueStays(s.Of(k), k, s.threads, id, moved);
        }
      }
    }
  }

  lemma ConsumeKeepsValid(s: State, id: nat, a: Action)
    requires Valid(s) && id in s.threads && s.threads[id].Consumer?
    ensures var n := ConsumeStep(s, id, s.threads[id], a); n.Some? ==> Valid(n.value)
  {
    var t := s.threads[id];
    var n := ConsumeStep(s, id, t, a);
    hide QueueValid;
    if n.Some? {
      forall k ensures QueueValid(n.value.Of(k), k, n.value.threads) {
        assert QueueValid(s.Of(k), k, s.threads) && ThreadValid(s.closed, t);
        if k == t.kind && a.Proceed? {
          QueueTaken(s.Of(k), k, s.threads, id, n.value.threads[id]);
        } else {
          QueueStays(s.Of(k), k, s.threads, id, n.value.threads[id]);
        }
      }
    }
  }

  lemma CloseKeepsValid(s: State, id: nat)
    requires Valid(s) && id in s.threads && s.threads[id].Closer?
    ensures var n := CloseStep(s, id, s.threads[id]); n.Some? ==> Valid(n.value)
  {
    var t := s.threads[id];
    var n := CloseStep(s, id, t);
    hide QueueValid;
    if n.Some? {
      forall k ensures QueueValid(n.value.Of(k), k, n.value.threads) {
        assert QueueValid(s.Of(k), k, s.threads);
        if n.value.Of(k) == s.Of(k) {
          QueueStays(s.Of(k), k, s.threads, id, n.value.threads[id]);
        } else {
          QueueTaken(s.Of(k), k, s.threads, id, t);
          assert s.threads[id := t] == s.threads;
        }
      }
    }
  }

  lemma NextKeepsValid(s: State, step: Step)
    requires Valid(s) && Next(s, step).Some?
    ensures Valid(Next(s, step).value)
  {
    match step
    case Start(id, t) =>
      var n := Next(s, step).value;
      hide QueueValid;
      forall k ensures QueueValid(n.Of(k), k, n.threads) {
        assert QueueValid(s.Of(k), k, s.threads);
        QueueStays(s.Of(k), k, s.threads, id, Fresh(s, t));
      }
    case Act(id, a) =>
      match s.threads[id]
      case Publisher(_, _, _) => PublishKeepsValid(s, id, a);
      case Consumer(_, _, _) => ConsumeKeepsValid(s, id, a);
      case Closer(_) => CloseKeepsValid(s, id);
  }

  // ------------------------------------------------------------ runs

  /** The state after some steps, or None when one of them is not possible. */
  function Run(s: State, steps: seq<Step>): Option<State>
    decreases |steps|
  {
    if steps == [] then Some(s) else
    var n := Next(s, steps[0]);
    if n.None? then None else Run(n.value, steps[1..])
  }

  lemma {:induction false} RunKeepsValid(s: State, steps: seq<Step>)
    requires Valid(s) && Run(s, steps).Some?
    ensures Valid(Run(s, steps).value)
    decreases |steps|
  {
    hide Valid;
    hide Next;
    if steps != [] {
      NextKeepsValid(s, steps[0]);
      RunKeepsValid(Next(s, steps[0]).value, steps[1..]);
    }
  }

  /** Under any interleaving: what was accepted on a queue, in order, is what was taken out of it
      followed by what it holds, at most 64 messages; and no message is accepted twice. */
  lemma Conservation(steps: seq<Step>, k: Kind)
    requires Run(Empty(), steps).Some?
    ensures var q := Run(Empty(), steps).value.Of(k);
            && q.accepted == q.taken + q.buffer && |q.buffer| <= BUFFER_SIZE && Distinct(q.accepted)
  {
    EmptyIsValid();
    RunKeepsValid(Empty(), steps);
  }

  /** No message reaches two consumers, and what a consumer returns was accepted on its queue. */
  lemma OneConsumerEach(steps: seq<Step>, k: Kind, a: nat, b: nat, m: nat)
    requires Run(Empty(), steps).Some?
    requires var threads := Run(Empty(), steps).value.threads; Took(threads, k, a, m) && Took(threads, k, b, m)
    ensures a == b && m in Run(Empty(), steps).value.Of(k).accepted
  {
    EmptyIsValid();
    RunKeepsValid(Empty(), steps);
    var s := Run(Empty(), steps).value;
    var q := s.Of(k);
    assert QueueValid(q, k, s.threads);
    var i :| 0 <= i < |q.taken| && q.takers[i] == a && q.taken[i] == m;
    var j :| 0 <= j < |q.taken| && q.takers[j] == b && q.taken[j] == m;
    assert q.accepted[i] == q.accepted[j] == m;
  }

  lemma OthersLeaveMe(s: State, step: Step, me: nat)
    requires step.id != me && me in s.threads && Next(s, step).Some?
    ensures var n := Next(s, step).value;
            && me in n.threads && n.threads[me] == s.threads[me]
            && (s.closed ==> n.closed) && (s.done ==> n.done)
  {
    match step
    case Start(_, _) =>
    case Act(id, a) =>
      match s.threads[id]
      case Publisher(_, p, _) => {
        match p case Begun => case Loaded => case Selecting => case Accepted => case Refused =>
      }
      case Consumer(_, _, _) => { match a case Proceed => case Cancelled => case SeeDone => }
      case Closer(c) => { match c case Entered => case Won => case Draining(_) => case Returned => }
  }

  lemma StepRemembersLate(s: State, step: Step, id: nat)
    requires Next(s, step).Some? && id in s.threads && s.threads[id].Publisher?
    ensures var threads := Next(s, step).value.threads;
            id in threads && threads[id].Publisher? && threads[id].late == s.threads[id].late
  {
    if step.id != id { OthersLeaveMe(s, step, id); }
  }

  lemma {:induction false} LateRemembered(s: State, steps: seq<Step>, id: nat)
    requires Run(s, steps).Some? && id in s.threads && s.threads[id].Publisher?
    ensures var threads := Run(s, steps).value.threads;
            id in threads && threads[id].Publisher? && threads[id].late == s.threads[id].late
    decreases |steps|
  {
    hide Next;
    if steps != [] {
      StepRemembersLate(s, steps[0], id);
      LateRemembered(Next(s, steps[0]).value, steps[1..], id);
    }
  }

  lemma {:induction false} RunConcat(s: State, before: seq<Step>, after: seq<Step>)
    ensures Run(s, before + after)
            == var middle := Run(s, before); if middle.None? then None else Run(middle.value, after)
    decreases |before|
  {
    hide Next;
    if before == [] {
      assert before + after == after;
    } else {
      assert (before + after)[1..] == before[1..] + after;
      if Next(s, before[0]).Some? { RunConcat(Next(s, before[0]).value, before[1..], after); }
    }
  }

  /** A publish call that begins after Close has set `closed` is never accepted. */
  lemma LatePublishRefused(before: seq<Step>, id: nat, t: Thread, after: seq<Step>)
    requires t.Publisher? && Run(Empty(), before + [Start(id, t)] + after).Some?
    requires Run(Empty(), before).Some? && Run(Empty(), before).value.closed
    ensures var s := Run(Empty(), before + [Start(id, t)] + after).value;
            !IsAccepted(s.threads, t.kind, id) && forall k :: id !in s.Of(k).accepted
  {
    var start := Run(Empty(), before).value;
    assert before + [Start(id, t)] + after == before + ([Start(id, t)] + after);
    RunConcat(Empty(), before, [Start(id, t)] + after);
    assert ([Start(id, t)] + after)[1..] == after;
    var begun := Next(start, Start(id, t)).value;
    LateRemembered(begun, after, id);
    EmptyIsValid();
    RunKeepsValid(Empty(), before + [Start(id, t)] + after);
    var s := Run(Empty(), before + [Start(id, t)] + after).value;
    assert ThreadValid(s.closed, s.threads[id]);
    forall k ensures id !in s.Of(k).accepted {
      assert QueueValid(s.Of(k), k, s.threads);
    }
  }

  ghost predicate SelectingOn(s: State, k: Kind, id: nat) {
    id in s.threads && s.threads[id].Publisher? && s.threads[id].kind == k && s.threads[id].publish.Selecting?
  }

  predicate Accepts(s: State, k: Kind, step: Step) {
    Next(s, step).Some? && Next(s, step).value.Of(k).accepted != s.Of(k).accepted
  }

  lemma AcceptedWasSelecting(s: State, k: Kind, step: Step)
    requires Accepts(s, k, step)
    ensures SelectingOn(s, k, step.id) && |s.Of(k).buffer| < BUFFER_SIZE
  {
    match step
    case Start(_, _) =>
    case Act(id, a) =>
      match s.threads[id]
      case Publisher(_, p, _) => {
        match p case Begun => case Loaded => case Selecting => case Accepted => case Refused =>
      }
      case Consumer(_, _, _) => { match a case Proceed => case Cancelled => case SeeDone => }
      case Closer(c) => { match c case Entered => case Won => case Draining(_) => case Returned => }
  }

  lemma SelectingIsAccepted(s: State, k: Kind, id: nat)
    requires SelectingOn(s, k, id) && |s.Of(k).buffer| < BUFFER_SIZE
    ensures Accepts(s, k, Act(id, Proceed))
  {
    assert |Next(s, Act(id, Proceed)).value.Of(k).accepted| == |s.Of(k).accepted| + 1;
  }

  /** A message can still be accepted exactly when there is room and a call is already in its
      select: also after Close has drained the queue. */
  lemma AcceptsIff(s: State, k: Kind)
    ensures (exists step :: Accepts(s, k, step))
            <==> |s.Of(k).buffer| < BUFFER_SIZE && exists id: nat :: SelectingOn(s, k, id)
  {
    if step :| Accepts(s, k, step) {
      AcceptedWasSelecting(s, k, step);
    }
    if id: nat :| SelectingOn(s, k, id) && |s.Of(k).buffer| < BUFFER_SIZE {
      SelectingIsAccepted(s, k, id);
    }
  }

  /** So Close may return and still leave a message behind: one whose call had passed the load. */
  lemma DrainCanMiss() returns (steps: seq<Step>)
    ensures Run(Empty(), steps).Some?
    ensures var s := Run(Empty(), steps).value;
            && 1 in s.threads && s.threads[1] == Closer(Returned)
            && s.inbound.buffer == [0] && IsAccepted(s.threads, Inbound, 0)
  {
    var publisher, closer := Publisher(Inbound, Begun, false), Closer(Entered);
    var begin := [Start(0, publisher), Act(0, Proceed), Act(0, Proceed), Start(1, closer)];
    var close := [Act(1, Proceed), Act(1, Proceed), Act(1, Proceed), Act(1, Proceed), Act(1, Proceed)];
    var middle := SelectsBeforeClose(begin);
    var end := ClosesEmptyBus(middle, close);
    RunConcat(Empty(), begin, close);
    RunConcat(Empty(), begin + close, [Act(0, Proceed)]);
    steps := begin + close + [Act(0, Proceed)];
    RunOne(end, [Act(0, Proceed)], 0);
  }

  lemma SelectsBeforeClose(begin: seq<Step>) returns (s: State)
    requires begin == [Start(0, Publisher(Inbound, Begun, false)), Act(0, Proceed), Act(0, Proceed),
                       Start(1, Closer(Entered))]
    ensures Run(Empty(), begin) == Some(s)
    ensures s.threads == map[0 := Publisher(Inbound, Selecting, false), 1 := Closer(Entered)]
    ensures !s.closed && forall k :: s.Of(k).buffer == []
  {
    var s1 := Next(Empty(), begin[0]).value;
    var s2 := Next(s1, begin[1]).value;
    var s3 := Next(s2, begin[2]).value;
    s := Next(s3, begin[3]).value;
    hide Run;
    RunOne(s3, begin, 3);
    RunOne(s2, begin, 2);
    RunOne(s1, begin, 1);
    RunOne(Empty(), begin, 0);
    assert begin[0..] == begin;
  }

  lemma ClosesEmptyBus(s: State, close: seq<Step>) returns (end: State)
    requires 1 in s.threads && s.threads[1] == Closer(Entered) && !s.closed && forall k :: s.Of(k).buffer == []
    requires close == [Act(1, Proceed), Act(1, Proceed), Act(1, Proceed), Act(1, Proceed), Act(1, Proceed)]
    ensures Run(s, close) == Some(end) && end.threads == s.threads[1 := Closer(Returned)]
    ensures forall k :: end.Of(k) == s.Of(k)
  {
    var s1 := s.Moved(1, Closer(Won)).(closed := true);
    var s2 := s1.Moved(1, Closer(Draining(Inbound))).(done := true);
    var s3 := s2.Moved(1, Closer(Draining(Outbound)));
    var s4 := s3.Moved(1, Closer(Draining(OutboundMedia)));
    end := s4.Moved(1, Closer(Returned));
    forall k ensures s2.Of(k).buffer == s3.Of(k).buffer == s4.Of(k).buffer == [] {
      assert s.Of(k).buffer == [];
    }
    hide Run;
    RunOne(s4, close, 4);
    RunOne(s3, close, 3);
    RunOne(s2, close, 2);
    RunOne(s1, close, 1);
    RunOne(s, close, 0);
    assert close[0..] == close;
  }

  lemma RunOne(s: State, steps: seq<Step>, i: nat)
    requires i < |steps| && Next(s, steps[i]).Some?
    ensures Run(s, steps[i..]) == Run(Next(s, steps[i]).value, steps[i + 1..])
    ensures i + 1 == |steps| ==> Run(s, steps[i..]) == Next(s, steps[i])
  {
    assert steps[i..][1..] == steps[i + 1..];
  }

  /** A publish call on the queue has passed its load and not returned. */
  predicate InFlight(t: Thread, k: Kind) {
    t.Publisher? && t.kind == k && (t.publish.Loaded? || t.publish.Selecting?)
  }

  ghost predicate QuietOn(s: State, k: Kind) {
    s.closed && forall id :: id in s.threads ==> !InFlight(s.threads[id], k)
  }

  function Rank(k: Kind): nat {
    match k
    case Inbound => 0
    case Outbound => 1
    case OutboundMedia => 2
  }

  /** The Close that won has the queue still ahead of it, or has left it empty. */
  predicate DrainedOrAhead(s: State, k: Kind, w: nat) {
    && w in s.threads && s.threads[w].Closer?
    && var c := s.threads[w].close;
       c.Won? || (c.Draining? && Rank(c.kind) <= Rank(k)) || (!c.Entered? && s.Of(k).buffer == [])
  }

  lemma QuietKept(s: State, step: Step, k: Kind)
    requires QuietOn(s, k) && Next(s, step).Some?
    ensures QuietOn(Next(s, step).value, k)
  {
    var n := Next(s, step).value;
    MyselfNotInFlight(s, step, k);
    hide Next;
    hide InFlight;
    forall id | id in n.threads ensures !InFlight(n.threads[id], k) {
      if id != step.id {
        OnlyMyself(s, step, id);
        OthersLeaveMe(s, step, id);
      }
    }
  }

  lemma OnlyMyself(s: State, step: Step, id: nat)
    requires Next(s, step).Some? && id in Next(s, step).value.threads && id != step.id
    ensures id in s.threads
  {
    match step
    case Start(_, _) =>
    case Act(me, a) =>
      match s.threads[me]
      case Publisher(_, p, _) => {
        match p case Begun => case Loaded => case Selecting => case Accepted => case Refused =>
      }
      case Consumer(_, _, _) => { match a case Proceed => case Cancelled => case SeeDone => }
      case Closer(c) => { match c case Entered => case Won => case Draining(_) => case Returned => }
  }

  lemma MyselfNotInFlight(s: State, step: Step, k: Kind)
    requires s.closed && Next(s, step).Some? && (step.id in s.threads ==> !InFlight(s.threads[step.id], k))
    ensures var n := Next(s, step).value;
            n.closed && step.id in n.threads && !InFlight(n.threads[step.id], k)
  {
    match step
    case Start(_, _) =>
    case Act(me, a) =>
      match s.threads[me]
      case Publisher(_, p, _) => {
        match p case Begun => case Loaded => case Selecting => case Accepted => case Refused =>
      }
      case Consumer(_, _, _) => { match a case Proceed => case Cancelled => case SeeDone => }
      case Closer(c) => { match c case Entered => case Won => case Draining(_) => case Returned => }
  }

  /** Only a publish call in flight makes a queue longer. */
  lemma OnlyPublishersPut(s: State, step: Step, k: Kind)
    requires QuietOn(s, k) && Next(s, step).Some? && s.Of(k).buffer == []
    ensures Next(s, step).value.Of(k).buffer == []
  {
    match step
    case Start(_, _) =>
    case Act(id, a) =>
      assert !InFlight(s.threads[id], k);
  }

  lemma DrainKept(s: State, step: Step, k: Kind, w: nat)
    requires QuietOn(s, k) && DrainedOrAhead(s, k, w) && Next(s, step).Some?
    ensures DrainedOrAhead(Next(s, step).value, k, w)
  {
    if s.Of(k).buffer == [] { OnlyPublishersPut(s, step, k); }
    if step.id != w { OthersLeaveMe(s, step, w); }
  }

  /** If no publish call on a queue is past its load when Close sets `closed`, the queue is empty
      when Close returns, and stays empty. */
  lemma {:induction false} CloseDrains(s: State, steps: seq<Step>, k: Kind, w: nat)
    requires QuietOn(s, k) && DrainedOrAhead(s, k, w) && Run(s, steps).Some?
    ensures var n := Run(s, steps).value;
            w in n.threads && (n.threads[w] == Closer(Returned) ==> n.Of(k).buffer == [])
    decreases |steps|
  {
    hide Next;
    if steps != [] {
      QuietKept(s, steps[0], k);
      DrainKept(s, steps[0], k, w);
      CloseDrains(Next(s, steps[0]).value, steps[1..], k, w);
    }
  }

  predicate Finished(t: Thread) {
    match t
    case Publisher(_, p, _) => p.Accepted? || p.Refused?
    case Consumer(_, finished, _) => finished
    case Closer(c) => c.Returned?
  }

  /** Stages a call has still to go through at most. */
  function Left(t: Thread): nat {
    match t
    case Publisher(_, p, _) => (match p case Begun => 3 case Loaded => 2 case Selecting => 1 case _ => 0)
    case Consumer(_, finished, _) => if finished then 0 else 1
    case Closer(c) => (match c case Entered => 5 case Won => 4 case Draining(k) => 3 - Rank(k) case Returned => 0)
  }

  function Buffered(s: State): nat {
    |s.inbound.buffer| + |s.outbound.buffer| + |s.media.buffer|
  }

  lemma OwnStepLeadsOn(s: State, id: nat) returns (a: Action)
    requires s.closed && s.done && id in s.threads && !Finished(s.threads[id])
    ensures Next(s, Act(id, a)).Some?
    ensures var n := Next(s, Act(id, a)).value;
            && n.closed && n.done && id in n.threads
            && (Left(n.threads[id]) < Left(s.threads[id])
                || (Left(n.threads[id]) == Left(s.threads[id]) && Buffered(n) < Buffered(s)))
  {
    a := if s.threads[id].Closer? then Proceed else SeeDone;
    match s.threads[id]
    case Publisher(_, p, _) => { match p case Begun => case Loaded => case Selecting => }
    case Consumer(_, _, _) =>
    case Closer(c) => {
      match c
      case Entered =>
      case Won =>
      case Draining(k) => { match k case Inbound => case Outbound => case OutboundMedia => }
    }
  }

  /** Once `done` is closed no call depends on another any more: from every state each unfinished
      call returns by its own steps alone. */
  lemma {:induction false} ReturnsAlone(s: State, id: nat) returns (steps: seq<Step>)
    requires s.closed && s.done && id in s.threads
    ensures forall i :: 0 <= i < |steps| ==> steps[i].Act? && steps[i].id == id
    ensures Run(s, steps).Some? && id in Run(s, steps).value.threads && Finished(Run(s, steps).value.threads[id])
    decreases Left(s.threads[id]), Buffered(s)
  {
    if Finished(s.threads[id]) {
      steps := [];
    } else {
      var a := OwnStepLeadsOn(s, id);
      hide Next;
      var rest := ReturnsAlone(Next(s, Act(id, a)).value, id);
      steps := [Act(id, a)] + rest;
      assert steps[1..] == rest;
    }
  }

  predicate OwnSteps(steps: seq<Step>, id: nat) {
    forall i :: 0 <= i < |steps| ==> steps[i].id == id
  }

  /** On an open bus with room a publish call gets its message onto the queue by its own steps. */
  lemma PublishGetsThrough(s: State, id: nat, k: Kind) returns (steps: seq<Step>)
    requires !s.closed && id !in s.threads && |s.Of(k).buffer| < BUFFER_SIZE
    ensures OwnSteps(steps, id) && Run(s, steps).Some?
    ensures var n := Run(s, steps).value;
            && IsAccepted(n.threads, k, id) && n.Of(k).buffer == s.Of(k).buffer + [id]
            && forall other :: other != k ==> n.Of(other) == s.Of(other)
  {
    var go := Act(id, Proceed);
    steps := [Start(id, Publisher(k, Begun, false)), go, go, go];
    var s1 := Next(s, steps[0]).value;
    var s2 := Next(s1, go).value;
    var s3 := Next(s2, go).value;
    assert SelectingOn(s3, k, id) && forall other :: s3.Of(other) == s.Of(other);
    var s4 := Next(s3, go).value;
    assert s4.Of(k).buffer == s.Of(k).buffer + [id] && IsAccepted(s4.threads, k, id);
    hide Run;
    RunOne(s3, steps, 3);
    RunOne(s2, steps, 2);
    RunOne(s1, steps, 1);
    RunOne(s, steps, 0);
    assert steps[0..] == steps;
  }

  /** On a queue with messages a consumer gets the one that has been there longest by its own steps. */
  lemma ConsumeTakesHead(s: State, id: nat, k: Kind) returns (steps: seq<Step>)
    requires id !in s.threads && s.Of(k).buffer != []
    ensures OwnSteps(steps, id) && Run(s, steps).Some?
    ensures var n := Run(s, steps).value;
            && Took(n.threads, k, id, s.Of(k).buffer[0]) && n.Of(k).buffer == s.Of(k).buffer[1..]
            && forall other :: other != k ==> n.Of(other) == s.Of(other)
  {
    steps := [Start(id, Consumer(k, false, None)), Act(id, Proceed)];
    var s1 := Next(s, steps[0]).value;
    assert s1.Of(k) == s.Of(k);
    var s2 := Next(s1, steps[1]).value;
    assert s2.Of(k).buffer == s.Of(k).buffer[1..];
    hide Run;
    RunOne(s1, steps, 1);
    RunOne(s, steps, 0);
    assert steps[0..] == steps;
  }

  /** On an open bus Close gets through by its own steps, and leaves the bus closed for good. */
  lemma CloseGetsThrough(s: State, id: nat) returns (steps: seq<Step>)
    requires !s.closed && id !in s.threads
    ensures OwnSteps(steps, id) && Run(s, steps).Some?
    ensures var n := Run(s, steps).value;
            && n.closed && n.done && id in n.threads && n.threads[id] == Closer(Returned)
            && forall k :: n.Of(k).buffer == []
  {
    var first := [Start(id, Closer(Entered)), Act(id, Proceed), Act(id, Proceed)];
    var s1 := Next(s, first[0]).value;
    var s2 := Next(s1, first[1]).value;
    var s3 := Next(s2, first[2]).value;
    RunOne(s2, first, 2);
    RunOne(s1, first, 1);
    RunOne(s, first, 0);
    assert first[0..] == first;
    var rest := DrainsAlone(s3, id);
    RunConcat(s, first, rest);
    steps := first + rest;
  }

  /** A draining Close by itself leaves the queues from its own on empty, and the others as they are. */
  lemma {:induction false} DrainsAlone(s: State, id: nat) returns (steps: seq<Step>)
    requires s.closed && s.done && id in s.threads && s.threads[id].Closer?
    requires s.threads[id].close.Draining? || s.threads[id].close.Returned?
    ensures OwnSteps(steps, id) && Run(s, steps).Some?
    ensures var n, c := Run(s, steps).value, s.threads[id].close;
            && n.closed && n.done && id in n.threads && n.threads[id] == Closer(Returned)
            && forall k :: if c.Draining? && Rank(c.kind) <= Rank(k) then n.Of(k).buffer == [] else n.Of(k) == s.Of(k)
    decreases Left(s.threads[id]), Buffered(s)
  {
    if s.threads[id].close.Returned? {
      steps := [];
    } else {
      var n := Next(s, Act(id, Proceed)).value;
      CloserStepLeadsOn(s, id);
      var rest := DrainsAlone(n, id);
      steps := [Act(id, Proceed)] + rest;
      assert steps[1..] == rest;
    }
  }

  // ------------------------------------------------------------ what Close leaves behind

  /** Close has returned and the queue holds a message. */
  predicate LeftBehind(s: State, k: Kind, w: nat) {
    w in s.threads && s.threads[w] == Closer(Returned) && s.Of(k).buffer != []
  }

  /** Close gets to its end by its own steps, past any other call. */
  lemma {:induction false} CloserReturns(s: State, w: nat, id: nat) returns (steps: seq<Step>)
    requires s.closed && w in s.threads && s.threads[w].Closer? && id in s.threads && id != w
    ensures Run(s, steps).Some?
    ensures var n := Run(s, steps).value;
            && n.closed && w in n.threads && n.threads[w] == Closer(Returned)
            && id in n.threads && n.threads[id] == s.threads[id]
    decreases Left(s.threads[w]), Buffered(s)
  {
    if s.threads[w].close.Returned? {
      steps := [];
    } else {
      var n := Next(s, Act(w, Proceed)).value;
      OthersLeaveMe(s, Act(w, Proceed), id);
      CloserStepLeadsOn(s, w);
      hide Next;
      var rest := CloserReturns(n, w, id);
      steps := [Act(w, Proceed)] + rest;
      assert steps[1..] == rest;
    }
  }

  lemma CloserStepLeadsOn(s: State, w: nat)
    requires s.closed && w in s.threads && s.threads[w].Closer? && !s.threads[w].close.Returned?
    ensures Next(s, Act(w, Proceed)).Some?
    ensures var n := Next(s, Act(w, Proceed)).value;
            && n.closed && w in n.threads && n.threads[w].Closer?
            && (Left(n.threads[w]) < Left(s.threads[w])
                || (Left(n.threads[w]) == Left(s.threads[w]) && Buffered(n) < Buffered(s)))
  {
    match s.threads[w].close
    case Entered =>
    case Won =>
    case Draining(k) => { match k case Inbound => case Outbound => case OutboundMedia => }
  }

  /** A call in flight on an empty queue can still have its message accepted. */
  lemma InFlightArrives(s: State, k: Kind, id: nat) returns (steps: seq<Step>)
    requires id in s.threads && InFlight(s.threads[id], k) && s.Of(k).buffer == []
    ensures Run(s, steps).Some?
    ensures var n := Run(s, steps).value;
            && n.Of(k).buffer != []
            && forall w :: w in s.threads && w != id ==> w in n.threads && n.threads[w] == s.threads[w]
  {
    var send := Act(id, Proceed);
    if s.threads[id].publish.Selecting? {
      steps := [send];
      assert steps[1..] == [];
    } else {
      steps := [send, send];
      assert steps[1..] == [send] && steps[1..][1..] == [];
      var selecting := Next(s, send).value;
      assert Run(selecting, [send]) == Next(selecting, send);
    }
  }

  /** From every state in which Close is past its compare-and-swap, a publish call in flight can leave
      its queue with a message that Close does not see. */
  lemma CanLeaveBehind(s: State, k: Kind, w: nat, id: nat) returns (steps: seq<Step>)
    requires s.closed && w in s.threads && s.threads[w].Closer?
    requires id in s.threads && InFlight(s.threads[id], k)
    ensures Run(s, steps).Some? && LeftBehind(Run(s, steps).value, k, w)
  {
    steps := CloserReturns(s, w, id);
    var n := Run(s, steps).value;
    hide Run;
    if n.Of(k).buffer == [] {
      var more := InFlightArrives(n, k, id);
      RunConcat(s, steps, more);
      steps := steps + more;
    }
  }

  /** Close can return beside a message on a queue exactly when some publish call on that queue is
      past its load when Close sets `closed`. */
  lemma LeavesBehindIff(s: State, k: Kind, w: nat)
    requires s.closed && w in s.threads && s.threads[w] == Closer(Won)
    ensures (exists steps :: Run(s, steps).Some? && LeftBehind(Run(s, steps).value, k, w))
            <==> exists id: nat :: id in s.threads && InFlight(s.threads[id], k)
  {
    if id: nat :| id in s.threads && InFlight(s.threads[id], k) {
      var steps := CanLeaveBehind(s, k, w, id);
      assert Run(s, steps).Some? && LeftBehind(Run(s, steps).value, k, w);
    } else {
      assert QuietOn(s, k) && DrainedOrAhead(s, k, w);
      forall steps | Run(s, steps).Some? ensures !LeftBehind(Run(s, steps).value, k, w) {
        CloseDrains(s, steps, k, w);
      }
    }
  }

  // ------------------------------------------------------------ Close comes to an end

  /** Past its load and not returned, on whatever queue. */
  predicate AnyFlight(t: Thread) {
    t.Publisher? && (t.publish.Loaded? || t.publish.Selecting?)
  }

  function InFlightIds(threads: map<nat, Thread>): set<nat> {
    set id | id in threads && AnyFlight(threads[id])
  }

  function Flying(t: Thread): nat {
    if AnyFlight(t) then 1 else 0
  }

  /** All the messages there can still be to drain. */
  function Outstanding(s: State): nat {
    Buffered(s) + |InFlightIds(s.threads)|
  }

  lemma InFlightIdsMove(threads: map<nat, Thread>, id: nat, t: Thread)
    ensures |InFlightIds(threads[id := t])|
            == |InFlightIds(threads)| + Flying(t) - if id in threads then Flying(threads[id]) else 0
  {
    var rest := InFlightIds(threads) - {id};
    if AnyFlight(t) {
      assert InFlightIds(threads[id := t]) == rest + {id};
    } else {
      assert InFlightIds(threads[id := t]) == rest;
    }
    if id in threads && AnyFlight(threads[id]) {
      assert InFlightIds(threads) == rest + {id};
    } else {
      assert InFlightIds(threads) == rest;
    }
  }

  /** On a closed bus a call that puts a message into a buffer is no longer in flight, and none gets
      in flight. */
  lemma OwnOutstanding(s: State, id: nat, a: Action)
    requires s.closed && Next(s, Act(id, a)).Some?
    ensures var n := Next(s, Act(id, a)).value;
            && n.closed && id in n.threads && n.threads == s.threads[id := n.threads[id]]
            && Buffered(n) + Flying(n.threads[id]) <= Buffered(s) + Flying(s.threads[id])
  {
    match s.threads[id]
    case Publisher(k, p, _) => {
      match p
      case Begun =>
      case Loaded =>
      case Selecting => { match k case Inbound => case Outbound => case OutboundMedia => }
    }
    case Consumer(k, _, _) => { match k case Inbound => case Outbound => case OutboundMedia => }
    case Closer(c) => {
      match c
      case Entered =>
      case Won =>
      case Draining(k) => { match k case Inbound => case Outbound => case OutboundMedia => }
    }
  }

  /** On a closed bus no step makes more to drain. */
  lemma OutstandingFalls(s: State, step: Step)
    requires s.closed && Next(s, step).Some?
    ensures Next(s, step).value.closed && Outstanding(Next(s, step).value) <= Outstanding(s)
  {
    match step
    case Start(id, t) =>
      InFlightIdsMove(s.threads, id, Fresh(s, t));
    case Act(id, a) =>
      OwnOutstanding(s, id, a);
      InFlightIdsMove(s.threads, id, Next(s, step).value.threads[id]);
      hide Next;
      hide InFlightIds;
      hide Buffered;
  }

  lemma CloserDrains(s: State, w: nat)
    requires s.closed && w in s.threads && s.threads[w].Closer? && !s.threads[w].close.Returned?
    ensures Next(s, Act(w, Proceed)).Some?
    ensures var n := Next(s, Act(w, Proceed)).value;
            && n.closed && w in n.threads && n.threads[w].Closer?
            && (Left(n.threads[w]) < Left(s.threads[w])
                || (Left(n.threads[w]) == Left(s.threads[w]) && Outstanding(n) < Outstanding(s)))
  {
    CloserStepLeadsOn(s, w);
    OwnOutstanding(s, w, Proceed);
    InFlightIdsMove(s.threads, w, Next(s, Act(w, Proceed)).value.threads[w]);
    hide Next;
    hide InFlightIds;
    hide Buffered;
  }

  // ------------------------------------------------------------ the calls

  /** The outcome of a call that may still be blocked in its select. */
  datatype Outcome = Ok | Error | Blocked

  class MessageBus {
    var s: State

    constructor ()
      ensures Valid(s) && s == Empty()
    {
      s := Empty();
      EmptyIsValid();
    }

    /** One atomic step of a call. */
    method Do(step: Step)
      requires Valid(s) && Next(s, step).Some?
      modifies this
      ensures Valid(s) && s == Next(old(s), step).value
    {
      NextKeepsValid(s, step);
      s := Next(s, step).value;
    }

    /** Any number of steps of other calls. */
    method Yield(me: nat)
      requires Valid(s) && me in s.threads
      modifies this
      ensures Valid(s) && me in s.threads && s.threads[me] == old(s.threads[me])
      ensures (old(s.closed) ==> s.closed) && (old(s.done) ==> s.done)
      ensures old(s.closed) ==> Outstanding(s) <= old(Outstanding(s))
    {
      hide Outstanding;
      var n: nat := *;
      while n > 0
        invariant Valid(s) && me in s.threads && s.threads[me] == old(s.threads[me])
        invariant (old(s.closed) ==> s.closed) && (old(s.done) ==> s.done)
        invariant old(s.closed) ==> Outstanding(s) <= old(Outstanding(s))
      {
        var step: Step := *;
        if step.id != me && Next(s, step).Some? {
          OthersLeaveMe(s, step, me);
          if s.closed { OutstandingFalls(s, step); }
          Do(step);
        }
        n := n - 1;
      }
    }

    /** The choice of a select: any case that is ready, and none only when nothing is. */
    method Choose(me: nat) returns (choice: Option<Action>)
      ensures choice.Some? ==> Next(s, Act(me, choice.value)).Some?
      ensures choice.None? ==> Next(s, Act(me, Proceed)).None? && Next(s, Act(me, SeeDone)).None?
    {
      hide Next;
      var action: Action := *;
      if Next(s, Act(me, action)).Some? {
        return Some(action);
      }
      if Next(s, Act(me, Proceed)).Some? {
        return Some(Proceed);
      }
      if Next(s, Act(me, SeeDone)).Some? {
        return Some(SeeDone);
      }
      return None;
    }

    /** An error means that the bus was closed or the call cancelled, and blocking that the queue is full. */
    method Publish(kind: Kind, me: nat) returns (r: Outcome, ghost cancelled: bool)
      requires Valid(s) && me !in s.threads
      modifies this
      ensures Valid(s) && me in s.threads && s.threads[me].Publisher? && s.threads[me].kind == kind
      ensures old(s.closed) ==> r.Error?
      ensures r.Ok? <==> me in s.Of(kind).accepted
      ensures r.Error? <==> s.threads[me].publish.Refused?
      ensures r.Error? ==> cancelled || s.closed
      ensures r.Blocked? ==> |s.Of(kind).buffer| >= BUFFER_SIZE && !s.done
    {
      cancelled := false;
      Do(Start(me, Publisher(kind, Begun, false)));
      Yield(me);
      assert ThreadValid(s.closed, s.threads[me]);
      if s.closed {
        Do(Act(me, Proceed));
        r := Error;
      } else {
        Do(Act(me, Proceed));
        Yield(me);
        var expired: bool := *;
        if expired {
          cancelled := true;
          Do(Act(me, Cancelled));
          r := Error;
        } else {
          Do(Act(me, Proceed));
          Yield(me);
          r, cancelled := Select(kind, me);
        }
      }
      assert QueueValid(s.Of(kind), kind, s.threads);
    }

    /** The select of a publish call. */
    method Select(kind: Kind, me: nat) returns (r: Outcome, ghost cancelled: bool)
      requires Valid(s) && SelectingOn(s, kind, me)
      modifies this
      ensures Valid(s) && me in s.threads && s.threads[me].Publisher? && s.threads[me].kind == kind
      ensures s.threads[me].publish == match r case Ok => Accepted case Error => Refused case Blocked => Selecting
      ensures r.Error? ==> cancelled || s.closed
      ensures r.Blocked? ==> |s.Of(kind).buffer| >= BUFFER_SIZE && !s.done
    {
      var choice := Choose(me);
      if choice.None? {
        return Blocked, false;
      }
      Do(Act(me, choice.value));
      r, cancelled := if choice.value.Proceed? then Ok else Error, choice.value.Cancelled?;
    }

    /** Nothing is returned only when the bus is done, the call cancelled, or the queue empty. */
    method Consume(kind: Kind, me: nat) returns (got: Option<nat>, ghost cancelled: bool)
      requires Valid(s) && me !in s.threads
      modifies this
      ensures Valid(s) && me in s.threads && s.threads[me].Consumer?
      ensures s.threads[me].kind == kind && s.threads[me].got == got
      ensures got.Some? ==> got.value in s.Of(kind).taken
      ensures got.None? ==> cancelled || s.done || s.Of(kind).buffer == []
    {
      Do(Start(me, Consumer(kind, false, None)));
      Yield(me);
      cancelled := false;
      assert ThreadValid(s.closed, s.threads[me]);
      var choice := Choose(me);
      if choice.None? {
        return None, false;
      }
      cancelled := choice.value.Cancelled?;
      Do(Act(me, choice.value));
      got := s.threads[me].got;
      if got.Some? {
        assert QueueValid(s.Of(kind), kind, s.threads);
        assert Took(s.threads, kind, me, got.value);
      }
    }

    /** Closes the bus and drains the queues one after the other. It comes to an end whatever the
        other calls do: only the publish calls in flight can still add messages. */
    method Close(me: nat)
      requires Valid(s) && me !in s.threads
      modifies this
      ensures Valid(s) && s.closed && me in s.threads && s.threads[me] == Closer(Returned)
    {
      Do(Start(me, Closer(Entered)));
      Yield(me);
      if s.closed {
        Do(Act(me, Proceed));
        return;
      }
      Do(Act(me, Proceed));
      Yield(me);
      Do(Act(me, Proceed));
      hide Next;
      hide Outstanding;
      while s.threads[me] != Closer(Returned)
        invariant Valid(s) && s.closed && me in s.threads && s.threads[me].Closer?
        decreases Left(s.threads[me]), Outstanding(s)
      {
        Yield(me);
        CloserDrains(s, me);
        Do(Act(me, Proceed));
      }
    }
  }
}
