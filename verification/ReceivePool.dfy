/**
 The buffers of a shared receive queue on their way round: completed by the network, handed back by a connection's
 stub through its own queue of blocks, taken out by the one thread that serves all queues in turn, collected, and
 posted again in batches. Every atomic step of every queue interleaves with every other.
 */
module ReceivePool {
  import opened ReceiveQueue
  import Q = SpscQueue
  import R = SpscRuns
  import B = BlockingQueue

  /** The size each stub's queue is constructed with, and the queue's default for its largest block. */
  const STUB_QUEUE := 100000
  const MAX_BLOCK := 512

  /**
   `reposter` has posted requests, of which the first `completed` are completed; `held` are the ids with connections;
   `turn` is the queue the serving thread looks at. `overrun` tells that a stub has reported an overrun.
   */
  datatype State = State(n: nat, reposter: Reposter, completed: nat, held: multiset<int>, queues: seq<Q.State>, turn: nat,
                         overrun: bool)

  function Begin(base: nat, size: nat, n: nat): State {
    State(n, Reposter(base, size, [], Initial(base, size, n)), 0, multiset{}, [], 0, false)
  }

  datatype Action = NewReceiver | Complete | StubCall(c: nat, id: int) | StubStep(c: nat) | Serve

  predicate Enabled(s: State, a: Action) {
    match a
    case NewReceiver => true
    case Complete => s.completed < |s.reposter.posted|
    case StubCall(c, id) => c < |s.queues| && id in s.held && s.queues[c].prod.pc.PIdle?
    case StubStep(c) => c < |s.queues| && !s.queues[c].prod.pc.PIdle?
    case Serve => s.turn < |s.queues|
  }

  /** A stub's PostMR, one atomic step of try_enqueue at a time; a refused id stays with the connection. */
  function Stubs(s: State, c: nat): State
    requires Enabled(s, StubStep(c))
  {
    var t := Q.Apply(s.queues[c], Q.Produce);
    var refused := t.prod.pc.PIdle? && !t.prod.ok;
    s.(queues := s.queues[c := t], overrun := s.overrun || refused,
       held := if refused then s.held + multiset{s.queues[c].prod.elem} else s.held)
  }

  /** The queue that is served has become t: when the call has returned, its id is reposted and the next queue is due. */
  function Served(s: State, t: Q.State): State
    requires s.turn < |s.queues|
  {
    var u := s.(queues := s.queues[s.turn := t]);
    if !t.cons.pc.CIdle? then u
    else
      u.(turn := (s.turn + 1) % |s.queues|,
         reposter := if t.cons.ok && t.cons.value >= 0 then Reposted(s.reposter, t.cons.value) else s.reposter)
  }

  /** The serving thread, one atomic step of try_dequeue at a time. */
  function Serves(s: State): State
    requires Enabled(s, Serve)
  {
    var q := s.queues[s.turn];
    if q.cons.pc.CIdle? then s.(queues := s.queues[s.turn := Q.Apply(q, Q.CallDequeue(Q.Dequeue))])
    else Served(s, Q.Apply(q, Q.Consume))
  }

  function Apply(s: State, a: Action): State
    requires Enabled(s, a)
  {
    match a
    case NewReceiver => s.(queues := s.queues + [R.Start(STUB_QUEUE, MAX_BLOCK)])
    case Complete => s.(completed := s.completed + 1, held := s.held + multiset{s.reposter.posted[s.completed].id})
    case StubCall(c, id) =>
      s.(held := s.held - multiset{id}, queues := s.queues[c := Q.Apply(s.queues[c], Q.CallEnqueue(id, false))])
    case StubStep(c) => Stubs(s, c)
    case Serve => Serves(s)
  }

  // ----- Where the ids are -----

  /** All ids, each once. */
  function Ids(n: nat): (r: multiset<int>)
    ensures |r| == n
  {
    if n == 0 then multiset{} else Ids(n - 1) + multiset{n - 1}
  }

  lemma {:induction false} IdsOnce(n: nat, x: int)
    ensures Ids(n)[x] == if 0 <= x < n then 1 else 0
  {
    if n > 0 {
      IdsOnce(n - 1, x);
    }
  }

  function IdsOf(requests: seq<Request>): multiset<int> {
    if requests == [] then multiset{} else multiset{requests[0].id} + IdsOf(requests[1..])
  }

  lemma {:induction false} IdsOfAppend(a: seq<Request>, b: seq<Request>)
    ensures IdsOf(a + b) == IdsOf(a) + IdsOf(b)
  {
    if a == [] {
      assert a + b == b;
    } else {
      assert (a + b)[1..] == a[1..] + b;
      IdsOfAppend(a[1..], b);
    }
  }

  function IdSet(ids: seq<nat>): multiset<int> {
    if ids == [] then multiset{} else multiset{ids[0]} + IdSet(ids[1..])
  }

  lemma {:induction false} IdsOfChain(base: nat, size: nat, ids: seq<nat>)
    ensures IdsOf(Chain(base, size, ids)) == IdSet(ids)
  {
    if ids != [] {
      IdsOfChain(base, size, ids[1..]);
    }
  }

  lemma {:induction false} IdsOfCounted(requests: seq<Request>, n: nat)
    requires |requests| == n && forall i :: 0 <= i < n ==> requests[i].id == i
    ensures IdsOf(requests) == Ids(n)
  {
    if n > 0 {
      var last := [requests[n - 1]];
      assert requests == requests[..n - 1] + last;
      assert last[1..] == [];
      IdsOfCounted(requests[..n - 1], n - 1);
      IdsOfAppend(requests[..n - 1], last);
    }
  }

  /** The ids in a stub's queue, and the one its producer is about to add. */
  function Inside(q: Q.State): multiset<int> {
    (if |q.q.deq| <= |q.q.enq| then multiset(q.q.enq[|q.q.deq|..]) else multiset{})
    + (if q.prod.pc.PIdle? then multiset{} else multiset{q.prod.elem})
  }

  function Total(ms: seq<multiset<int>>, k: nat): multiset<int>
    requires k <= |ms|
  {
    if k == 0 then multiset{} else Total(ms, k - 1) + ms[k - 1]
  }

  lemma {:induction false} TotalUpdated(ms: seq<multiset<int>>, k: nat, c: nat, m: multiset<int>, x: int)
    requires k <= |ms| && c < |ms|
    ensures Total(ms[c := m], k)[x] + (if c < k then ms[c][x] else 0) == Total(ms, k)[x] + (if c < k then m[x] else 0)
  {
    if k > 0 {
      TotalUpdated(ms, k - 1, c, m, x);
    }
  }

  lemma {:induction false} TotalAppended(ms: seq<multiset<int>>, k: nat, m: multiset<int>)
    requires k <= |ms|
    ensures Total(ms + [m], k) == Total(ms, k)
  {
    if k > 0 {
      TotalAppended(ms, k - 1, m);
    }
  }

  lemma {:induction false} TotalIncludes(ms: seq<multiset<int>>, k: nat, c: nat)
    requires c < k <= |ms|
    ensures ms[c] <= Total(ms, k)
  {
    if c < k - 1 {
      TotalIncludes(ms, k - 1, c);
    }
  }

  function Insides(queues: seq<Q.State>): seq<multiset<int>> { seq(|queues|, i requires 0 <= i < |queues| => Inside(queues[i])) }

  function InQueues(queues: seq<Q.State>): multiset<int> { Total(Insides(queues), |queues|) }

  lemma QueuesUpdated(queues: seq<Q.State>, c: nat, q: Q.State)
    requires c < |queues|
    ensures InQueues(queues[c := q]) + Inside(queues[c]) == InQueues(queues) + Inside(q)
  {
    assert Insides(queues[c := q]) == Insides(queues)[c := Inside(q)];
    forall x ensures InQueues(queues[c := q])[x] + Inside(queues[c])[x] == InQueues(queues)[x] + Inside(q)[x] {
      TotalUpdated(Insides(queues), |queues|, c, Inside(q), x);
    }
  }

  lemma QueuesAppended(queues: seq<Q.State>, q: Q.State)
    ensures InQueues(queues + [q]) == InQueues(queues) + Inside(q)
  {
    assert Insides(queues + [q]) == Insides(queues) + [Inside(q)];
    TotalAppended(Insides(queues), |queues|, Inside(q));
  }

  lemma QueueWithin(queues: seq<Q.State>, c: nat)
    requires c < |queues|
    ensures Inside(queues[c]) <= InQueues(queues)
  {
    TotalIncludes(Insides(queues), |queues|, c);
  }

  function Everywhere(s: State): multiset<int> {
    (if s.completed <= |s.reposter.posted| then IdsOf(s.reposter.posted[s.completed..]) else multiset{})
    + s.held + InQueues(s.queues) + IdSet(s.reposter.staged)
  }

  // ----- One queue's steps -----

  /** A stub's queue: asked for STUB_QUEUE elements, never allocating, and not found full by the call that is on. */
  ghost predicate QueueOk(q: Q.State) {
    && Q.Inv(q) && q.q.requested == STUB_QUEUE
    && (!q.cons.pc.CIdle? ==> q.cons.kind.Dequeue?)
    && (!q.prod.pc.PIdle? ==> !q.prod.canAlloc && !q.fullSeen)
  }

  lemma PushInside(enq: seq<int>, d: nat, x: int)
    requires d <= |enq|
    ensures multiset((enq + [x])[d..]) == multiset(enq[d..]) + multiset{x}
  {
    assert (enq + [x])[d..] == enq[d..] + [x];
  }

  lemma PopInside(enq: seq<int>, d: nat)
    requires d < |enq|
    ensures multiset(enq[d..]) == multiset{enq[d]} + multiset(enq[d + 1..])
  {
    assert enq[d..] == [enq[d]] + enq[d + 1..];
  }

  lemma InsideSize(q: Q.State)
    requires |q.q.deq| <= |q.q.enq|
    ensures |Inside(q)| == Q.Queued(q.q) + if q.prod.pc.PIdle? then 0 else 1
  {
  }

  /** What a producer step does to a stub's queue, given that fewer than STUB_QUEUE ids can be in it meanwhile. */
  lemma ProduceInside(s: Q.State)
    requires QueueOk(s) && !s.prod.pc.PIdle? && Q.Queued(s.q) < STUB_QUEUE
    ensures var t := Q.Apply(s, Q.Produce);
            QueueOk(t) && Inside(t) == Inside(s) && (t.prod.pc.PIdle? ==> t.prod.ok)
  {
    Q.KeptByStep(s, Q.Produce);
    R.ProducerReturns(s);
    R.PrefixNow(s.q);
    B.ProducerFrame(s);
    R.StepRequests(s, Q.Produce);
    if Q.InTailBlock(s.prod.pc) { R.TailBlockFlags(s); } else { R.NextBlockFlags(s); }
    ProducedInside(s, Q.Apply(s, Q.Produce));
  }

  lemma ProducedInside(s: Q.State, t: Q.State)
    requires Q.Inv(t) && R.ProducerResult(s, t) && |s.q.deq| <= |s.q.enq| && t.cons == s.cons && Q.Queued(s.q) < STUB_QUEUE
    requires s.q.requested == t.q.requested == STUB_QUEUE && !s.prod.pc.PIdle? && !s.prod.canAlloc && !s.fullSeen
    requires !s.cons.pc.CIdle? ==> s.cons.kind.Dequeue?
    requires t.prod.elem == s.prod.elem && t.prod.canAlloc == s.prod.canAlloc
    requires t.fullSeen <==> s.fullSeen || Q.Queued(t.q) >= t.q.requested
    ensures QueueOk(t) && Inside(t) == Inside(s) && (t.prod.pc.PIdle? ==> t.prod.ok)
  {
    PushInside(s.q.enq, |s.q.deq|, s.prod.elem);
  }

  /** What a consumer step does. */
  lemma ConsumeInside(s: Q.State)
    requires QueueOk(s) && !s.cons.pc.CIdle? && (!s.prod.pc.PIdle? ==> Q.Queued(s.q) < STUB_QUEUE)
    ensures var t := Q.Apply(s, Q.Consume);
            && QueueOk(t)
            && Inside(s) == Inside(t) + if t.cons.pc.CIdle? && t.cons.ok then multiset{t.cons.value} else multiset{}
  {
    Q.KeptByStep(s, Q.Consume);
    R.ConsumerReturns(s);
    R.PrefixNow(s.q);
    B.ConsumerFrame(s);
    R.ConsumerFlags(s);
    ConsumedInside(s, Q.Apply(s, Q.Consume));
  }

  lemma ConsumedInside(s: Q.State, t: Q.State)
    requires Q.Inv(t) && R.ConsumerResult(s, t) && |s.q.deq| <= |s.q.enq| && t.prod == s.prod && t.cons.kind == s.cons.kind
    requires s.q.requested == t.q.requested == STUB_QUEUE && s.cons.kind.Dequeue?
    requires !s.prod.pc.PIdle? ==> !s.prod.canAlloc && !s.fullSeen && Q.Queued(s.q) < STUB_QUEUE
    requires t.fullSeen <==> s.fullSeen || Q.Queued(t.q) >= t.q.requested
    ensures QueueOk(t)
    ensures Inside(s) == Inside(t) + if t.cons.pc.CIdle? && t.cons.ok then multiset{t.cons.value} else multiset{}
  {
    ConsumedMoves(s, t);
  }

  lemma ConsumedMoves(s: Q.State, t: Q.State)
    requires R.ConsumerResult(s, t) && |s.q.deq| <= |s.q.enq| && t.prod == s.prod && t.cons.kind.Dequeue?
    ensures Inside(s) == Inside(t) + if t.cons.pc.CIdle? && t.cons.ok then multiset{t.cons.value} else multiset{}
  {
    if t.cons.pc.CIdle? && t.cons.ok {
      PopInside(s.q.enq, |s.q.deq|);
    }
  }

  // ----- The invariant -----

  ghost predicate QueuesOk(queues: seq<Q.State>) {
    forall c :: 0 <= c < |queues| ==> QueueOk(queues[c])
  }

  predicate AddressesOk(r: Reposter) {
    forall i :: 0 <= i < |r.posted| ==> r.posted[i].addr == r.base + r.posted[i].id * r.size
  }

  /** Every id is in exactly one place, requests have their addresses, and no stub has reported an overrun. */
  ghost predicate Inv(s: State) {
    && s.completed <= |s.reposter.posted| && |s.reposter.staged| < BATCH && s.n <= STUB_QUEUE && !s.overrun
    && Everywhere(s) == Ids(s.n) && QueuesOk(s.queues) && AddressesOk(s.reposter)
  }

  lemma QueuesStayOk(queues: seq<Q.State>, c: nat, q: Q.State)
    requires QueuesOk(queues) && c < |queues| && QueueOk(q)
    ensures QueuesOk(queues[c := q])
  {
  }

  lemma SizeWithin(a: multiset<int>, b: multiset<int>)
    requires a <= b
    ensures |a| <= |b|
  {
    assert b == a + (b - a);
  }

  /** A queue never holds more ids than there are, and fewer while another one is on its way or elsewhere. */
  lemma RoomInQueue(s: State, c: nat, elsewhere: multiset<int>)
    requires Inv(s) && c < |s.queues| && elsewhere <= s.held
    ensures |s.queues[c].q.deq| <= |s.queues[c].q.enq|
    ensures |elsewhere| + Q.Queued(s.queues[c].q) + (if s.queues[c].prod.pc.PIdle? then 0 else 1) <= s.n
  {
    var q := s.queues[c];
    assert QueueOk(q);
    R.PrefixNow(q.q);
    QueueWithin(s.queues, c);
    InsideSize(q);
    SizeWithin(Inside(q) + elsewhere, Everywhere(s));
  }

  lemma IdsOfFirst(requests: seq<Request>, k: nat)
    requires k < |requests|
    ensures IdsOf(requests[k..]) == multiset{requests[k].id} + IdsOf(requests[k + 1..])
  {
    assert requests[k..][1..] == requests[k + 1..];
  }

  lemma CompleteKeeps(s: State)
    requires Inv(s) && Enabled(s, Complete)
    ensures Inv(Apply(s, Complete))
  {
    IdsOfFirst(s.reposter.posted, s.completed);
    CompletedMoves(s, Apply(s, Complete));
  }

  lemma CompletedMoves(s: State, t: State)
    requires s.completed < |s.reposter.posted|
    requires t == s.(completed := s.completed + 1, held := s.held + multiset{s.reposter.posted[s.completed].id})
    requires var p, k := s.reposter.posted, s.completed; IdsOf(p[k..]) == multiset{p[k].id} + IdsOf(p[k + 1..])
    ensures Everywhere(t) == Everywhere(s)
  {
  }

  lemma QueuesGrowOk(queues: seq<Q.State>, q: Q.State)
    requires QueuesOk(queues) && QueueOk(q)
    ensures QueuesOk(queues + [q])
  {
  }

  lemma NewReceiverKeeps(s: State)
    requires Inv(s)
    ensures Inv(Apply(s, NewReceiver))
  {
    NewQueueOk();
    QueueAdded(s, Apply(s, NewReceiver), R.Start(STUB_QUEUE, MAX_BLOCK));
  }

  lemma QueueAdded(s: State, t: State, q: Q.State)
    requires Inv(s) && QueueOk(q) && Inside(q) == multiset{} && t == s.(queues := s.queues + [q])
    ensures Inv(t)
  {
    QueuesAppended(s.queues, q);
    QueuesGrowOk(s.queues, q);
  }

  lemma NewQueueOk()
    ensures QueueOk(R.Start(STUB_QUEUE, MAX_BLOCK)) && Inside(R.Start(STUB_QUEUE, MAX_BLOCK)) == multiset{}
  {
    R.StartKeeps(STUB_QUEUE, MAX_BLOCK);
  }

  lemma CallInside(q: Q.State, id: int)
    requires QueueOk(q) && q.prod.pc.PIdle? && Q.Queued(q.q) < STUB_QUEUE
    ensures var t := Q.Apply(q, Q.CallEnqueue(id, false)); QueueOk(t) && Inside(t) == Inside(q) + multiset{id}
  {
    Q.KeptByStep(q, Q.CallEnqueue(id, false));
  }

  lemma StubCallKeeps(s: State, c: nat, id: int)
    requires Inv(s) && Enabled(s, StubCall(c, id))
    ensures Inv(Apply(s, StubCall(c, id)))
  {
    var t := Q.Apply(s.queues[c], Q.CallEnqueue(id, false));
    StubCalled(s, c, id);
    IdMovedIn(s, c, t, id);
  }

  lemma StubCalled(s: State, c: nat, id: int)
    requires Inv(s) && Enabled(s, StubCall(c, id))
    ensures var t := Q.Apply(s.queues[c], Q.CallEnqueue(id, false));
            QueuesOk(s.queues[c := t]) && Inside(t) == Inside(s.queues[c]) + multiset{id}
  {
    RoomInQueue(s, c, multiset{id});
    assert QueueOk(s.queues[c]);
    CallInside(s.queues[c], id);
    QueuesStayOk(s.queues, c, Q.Apply(s.queues[c], Q.CallEnqueue(id, false)));
  }

  lemma IdMovedIn(s: State, c: nat, t: Q.State, id: int)
    requires c < |s.queues| && id in s.held && Inside(t) == Inside(s.queues[c]) + multiset{id}
    ensures Everywhere(s.(held := s.held - multiset{id}, queues := s.queues[c := t])) == Everywhere(s)
  {
    QueuesUpdated(s.queues, c, t);
    var all, all' := InQueues(s.queues), InQueues(s.queues[c := t]);
    MovedIn(s.held, all, all', Inside(s.queues[c]), Inside(t), id);
    var posted := if s.completed <= |s.reposter.posted| then IdsOf(s.reposter.posted[s.completed..]) else multiset{};
    SumStays(posted + IdSet(s.reposter.staged), s.held - multiset{id}, all', s.held, all);
    Regroup(posted, s.held - multiset{id}, all', IdSet(s.reposter.staged));
    Regroup(posted, s.held, all, IdSet(s.reposter.staged));
  }

  lemma Regroup(a: multiset<int>, b: multiset<int>, c: multiset<int>, d: multiset<int>)
    ensures a + b + c + d == (a + d) + (b + c)
  {
  }

  lemma SumStays(rest: multiset<int>, a: multiset<int>, b: multiset<int>, c: multiset<int>, d: multiset<int>)
    requires a + b == c + d
    ensures rest + (a + b) == rest + (c + d)
  {
  }

  /** Taking an id from one place and putting it into another leaves the sum. */
  lemma MovedIn(held: multiset<int>, all: multiset<int>, all': multiset<int>, one: multiset<int>, one': multiset<int>, id: int)
    requires id in held && all' + one == all + one' && one' == one + multiset{id}
    ensures held - multiset{id} + all' == held + all
  {
    forall x ensures (held - multiset{id} + all')[x] == (held + all)[x] {
      assert (all' + one)[x] == (all + one')[x];
    }
  }

  lemma SameSum(all: multiset<int>, all': multiset<int>, one: multiset<int>)
    requires all' + one == all + one
    ensures all' == all
  {
    forall x ensures all'[x] == all[x] {
      assert (all' + one)[x] == (all + one)[x];
    }
  }

  /** A stub's PostMR goes on; it never reports an overrun. */
  lemma StubStepKeeps(s: State, c: nat)
    requires Inv(s) && Enabled(s, StubStep(c))
    ensures Inv(Apply(s, StubStep(c)))
  {
    var q := s.queues[c];
    var t := Q.Apply(q, Q.Produce);
    RoomInQueue(s, c, multiset{});
    assert QueueOk(q);
    ProduceInside(q);
    QueuesStayOk(s.queues, c, t);
    QueuesUpdated(s.queues, c, t);
    SameSum(InQueues(s.queues), InQueues(s.queues[c := t]), Inside(q));
  }

  lemma DequeueCalled(q: Q.State)
    requires QueueOk(q) && q.cons.pc.CIdle? && (!q.prod.pc.PIdle? ==> Q.Queued(q.q) < STUB_QUEUE)
    ensures var t := Q.Apply(q, Q.CallDequeue(Q.Dequeue)); QueueOk(t) && Inside(t) == Inside(q)
  {
    Q.KeptByStep(q, Q.CallDequeue(Q.Dequeue));
  }

  lemma ServeKeeps(s: State)
    requires Inv(s) && Enabled(s, Serve)
    ensures Inv(Apply(s, Serve))
  {
    var q := s.queues[s.turn];
    RoomInQueue(s, s.turn, multiset{});
    assert QueueOk(q);
    if q.cons.pc.CIdle? {
      DequeueCalled(q);
      var t := Q.Apply(q, Q.CallDequeue(Q.Dequeue));
      QueuesStayOk(s.queues, s.turn, t);
      QueuesUpdated(s.queues, s.turn, t);
      SameSum(InQueues(s.queues), InQueues(s.queues[s.turn := t]), Inside(q));
    } else {
      ConsumeInside(q);
      QueuesStayOk(s.queues, s.turn, Q.Apply(q, Q.Consume));
      ConsumedKeeps(s, Q.Apply(q, Q.Consume));
    }
  }

  /** What was dequeued is collected, or posted with the batch it completes. */
  lemma ConsumedKeeps(s: State, t: Q.State)
    requires Inv(s) && s.turn < |s.queues| && QueuesOk(s.queues[s.turn := t])
    requires Inside(s.queues[s.turn]) == Inside(t) + if t.cons.pc.CIdle? && t.cons.ok then multiset{t.cons.value} else multiset{}
    ensures Inv(Served(s, t))
  {
    if t.cons.pc.CIdle? && t.cons.ok {
      ValueIsId(s, t.cons.value);
      RepostedAddresses(s.reposter, t.cons.value);
      IdMovedOut(s, t, t.cons.value);
      ServedEverywhere(s, t);
    } else {
      NothingMoved(s, t);
    }
  }

  lemma ServedEverywhere(s: State, t: Q.State)
    requires s.turn < |s.queues| && t.cons.pc.CIdle? && t.cons.ok && t.cons.value >= 0
    ensures Everywhere(Served(s, t))
            == Everywhere(s.(reposter := Reposted(s.reposter, t.cons.value), queues := s.queues[s.turn := t]))
  {
  }

  lemma NothingMoved(s: State, t: Q.State)
    requires s.turn < |s.queues| && Inside(s.queues[s.turn]) == Inside(t) && !(t.cons.pc.CIdle? && t.cons.ok)
    ensures Everywhere(Served(s, t)) == Everywhere(s)
  {
    QueuesUpdated(s.queues, s.turn, t);
    SameSum(InQueues(s.queues), InQueues(s.queues[s.turn := t]), Inside(t));
  }

  lemma ValueIsId(s: State, id: int)
    requires Everywhere(s) == Ids(s.n) && s.turn < |s.queues| && id in Inside(s.queues[s.turn])
    ensures 0 <= id < s.n && id in InQueues(s.queues)
  {
    QueueWithin(s.queues, s.turn);
    IdsOnce(s.n, id);
    assert id in Everywhere(s);
  }

  lemma IdMovedOut(s: State, t: Q.State, id: nat)
    requires s.completed <= |s.reposter.posted| && s.turn < |s.queues| && Inside(s.queues[s.turn]) == Inside(t) + multiset{id}
    ensures Everywhere(s.(reposter := Reposted(s.reposter, id), queues := s.queues[s.turn := t])) == Everywhere(s)
    ensures s.completed <= |Reposted(s.reposter, id).posted|
  {
    RepostedIds(s.reposter, s.completed, id);
    QueuesUpdated(s.queues, s.turn, t);
    var all, all' := InQueues(s.queues), InQueues(s.queues[s.turn := t]);
    MovedOut(all, all', Inside(s.queues[s.turn]), Inside(t), id);
    var r, r' := s.reposter, Reposted(s.reposter, id);
    Exchange(IdsOf(r.posted[s.completed..]), s.held, all, IdSet(r.staged), IdsOf(r'.posted[s.completed..]), all', IdSet(r'.staged), id);
  }

  /** An id leaves the queues and joins the posted or the collected ones. */
  lemma Exchange(posted: multiset<int>, held: multiset<int>, all: multiset<int>, staged: multiset<int>,
                 posted': multiset<int>, all': multiset<int>, staged': multiset<int>, id: int)
    requires posted' + staged' == posted + staged + multiset{id} && all == all' + multiset{id}
    ensures posted' + held + all' + staged' == posted + held + all + staged
  {
    forall x ensures (posted' + held + all' + staged')[x] == (posted + held + all + staged)[x] {
      assert (posted' + staged')[x] == (posted + staged + multiset{id})[x];
    }
  }

  lemma MovedOut(all: multiset<int>, all': multiset<int>, one: multiset<int>, one': multiset<int>, id: int)
    requires all' + one == all + one' && one == one' + multiset{id}
    ensures all == all' + multiset{id}
  {
    forall x ensures all[x] == (all' + multiset{id})[x] {
      assert (all' + one)[x] == (all + one')[x];
    }
  }

  /** A repost adds its id to those posted or collected. */
  lemma RepostedIds(r: Reposter, completed: nat, id: nat)
    requires completed <= |r.posted|
    ensures var t := Reposted(r, id);
            && completed <= |t.posted|
            && IdsOf(t.posted[completed..]) + IdSet(t.staged) == IdsOf(r.posted[completed..]) + IdSet(r.staged) + multiset{id}
  {
    var staged := [id] + r.staged;
    assert staged[1..] == r.staged;
    if |staged| == BATCH {
      ChainIds(r, completed, staged);
    }
  }

  lemma ChainIds(r: Reposter, completed: nat, ids: seq<nat>)
    requires completed <= |r.posted|
    ensures IdsOf((r.posted + Chain(r.base, r.size, ids))[completed..]) == IdsOf(r.posted[completed..]) + IdSet(ids)
  {
    var chain := Chain(r.base, r.size, ids);
    assert (r.posted + chain)[completed..] == r.posted[completed..] + chain;
    IdsOfAppend(r.posted[completed..], chain);
    IdsOfChain(r.base, r.size, ids);
  }

  lemma RepostedAddresses(r: Reposter, id: nat)
    requires AddressesOk(r)
    ensures AddressesOk(Reposted(r, id)) && (|r.staged| < BATCH ==> |Reposted(r, id).staged| < BATCH)
  {
    var staged := [id] + r.staged;
    var chain := Chain(r.base, r.size, staged);
    if |staged| == BATCH {
      forall i | 0 <= i < |chain| ensures chain[i].addr == r.base + chain[i].id * r.size {
        ChainAt(r.base, r.size, staged, if i < |staged| then i else 0);
      }
    }
  }

  lemma StepKeeps(s: State, a: Action)
    requires Inv(s) && Enabled(s, a)
    ensures Inv(Apply(s, a))
  {
    match a {
      case NewReceiver => NewReceiverKeeps(s);
      case Complete => CompleteKeeps(s);
      case StubCall(c, id) => StubCallKeeps(s, c, id);
      case StubStep(c) => StubStepKeeps(s, c);
      case Serve => ServeKeeps(s);
    }
  }

  // ----- Runs -----

  predicate IsNext(s: State, a: Action, t: State) { Enabled(s, a) && t == Apply(s, a) }

  ghost predicate IsRun(run: seq<State>, acts: seq<Action>, base: nat, size: nat, n: nat) {
    && |run| == |acts| + 1 && run[0] == Begin(base, size, n)
    && forall i, j {:trigger run[i], run[j]} :: 0 <= i < |acts| && j == i + 1 ==> IsNext(run[i], acts[i], run[j])
  }

  lemma InitialLength(base: nat, size: nat, n: nat)
    ensures |Initial(base, size, n)| == n
  {
    if n > 0 {
      InitialAt(base, size, n, 0);
    }
  }

  lemma BeginKeeps(base: nat, size: nat, n: nat)
    requires n <= STUB_QUEUE
    ensures Inv(Begin(base, size, n))
  {
    var posted := Initial(base, size, n);
    InitialLength(base, size, n);
    forall i | 0 <= i < n ensures posted[i].id == i && posted[i].addr == base + i * size {
      InitialAt(base, size, n, i);
    }
    IdsOfCounted(posted, n);
    assert posted[0..] == posted;
  }

  lemma KeptByNext(s: State, a: Action, t: State)
    requires Inv(s) && IsNext(s, a, t)
    ensures Inv(t)
  {
    StepKeeps(s, a);
  }

  lemma SameCount(s: State, a: Action, t: State)
    requires IsNext(s, a, t)
    ensures t.n == s.n
  {
  }

  lemma {:induction false} RunKeepsInvariant(run: seq<State>, acts: seq<Action>, base: nat, size: nat, n: nat, k: nat)
    requires n <= STUB_QUEUE && IsRun(run, acts, base, size, n) && k < |run|
    ensures Inv(run[k]) && run[k].n == n
  {
    if k == 0 {
      BeginKeeps(base, size, n);
    } else {
      RunKeepsInvariant(run, acts, base, size, n, k - 1);
      assert IsNext(run[k - 1], acts[k - 1], run[k]);
      KeptByNext(run[k - 1], acts[k - 1], run[k]);
      SameCount(run[k - 1], acts[k - 1], run[k]);
    }
  }

  /** Whatever the interleaving, each of the n ids is in exactly one place, and no stub ever reports an overrun. */
  lemma IdsConserved(run: seq<State>, acts: seq<Action>, base: nat, size: nat, n: nat, k: nat, id: int)
    requires n <= STUB_QUEUE && IsRun(run, acts, base, size, n) && k < |run|
    ensures Everywhere(run[k])[id] == (if 0 <= id < n then 1 else 0) && !run[k].overrun
  {
    RunKeepsInvariant(run, acts, base, size, n, k);
    IdsOnce(n, id);
  }

  /** The ids collected are different ones, so when they are 64 their chain posts 64 different buffers. */
  lemma {:induction false} CollectedDiffer(ids: seq<nat>, n: nat)
    requires IdSet(ids) <= Ids(n)
    ensures forall i, j :: 0 <= i < j < |ids| ==> ids[i] != ids[j]
    ensures forall i :: 0 <= i < |ids| ==> ids[i] < n
  {
    if ids != [] {
      var rest := ids[1..];
      IdsOnce(n, ids[0]);
      CollectedDiffer(rest, n);
      forall j | 0 < j < |ids| ensures ids[j] != ids[0] && ids[j] == rest[j - 1] {
        MemberOf(rest, j - 1);
      }
    }
  }

  lemma {:induction false} MemberOf(ids: seq<nat>, i: nat)
    requires i < |ids|
    ensures IdSet(ids)[ids[i]] >= 1
  {
    if i > 0 {
      MemberOf(ids[1..], i - 1);
    }
  }

  /** Each chain that is posted carries 64 different ids below n, each with the address of its buffer. */
  lemma ChainsAreWhole(s: State)
    requires Inv(s) && Enabled(s, Serve)
    ensures WholeChain(s.reposter, Apply(s, Serve).reposter, s.n)
  {
    var q := s.queues[s.turn];
    if !q.cons.pc.CIdle? {
      RoomInQueue(s, s.turn, multiset{});
      assert QueueOk(q);
      ConsumeInside(q);
      ServedChain(s, Q.Apply(q, Q.Consume));
    }
  }

  /** Requests with different ids, each with the address of its buffer. */
  predicate Whole(chain: seq<Request>, base: nat, size: nat, n: nat) {
    && (forall i, j :: 0 <= i < j < |chain| ==> chain[i].id != chain[j].id)
    && (forall i :: 0 <= i < |chain| ==> chain[i].id < n && chain[i].addr == base + chain[i].id * size)
  }

  /** t has posted nothing more than r, or one chain of different buffers. */
  predicate WholeChain(r: Reposter, t: Reposter, n: nat) {
    && r.posted <= t.posted && (|t.posted| == |r.posted| || |t.posted| == |r.posted| + BATCH)
    && Whole(t.posted[|r.posted|..], r.base, r.size, n)
  }

  lemma ServedChain(s: State, t: Q.State)
    requires Everywhere(s) == Ids(s.n) && s.turn < |s.queues|
    requires Inside(s.queues[s.turn]) == Inside(t) + if t.cons.pc.CIdle? && t.cons.ok then multiset{t.cons.value} else multiset{}
    ensures WholeChain(s.reposter, Served(s, t).reposter, s.n)
  {
    if t.cons.pc.CIdle? && t.cons.ok {
      ValueIsId(s, t.cons.value);
      CollectedWithin(s, t.cons.value);
      ChainWhole(s.reposter, t.cons.value, s.n);
    }
  }

  lemma OneOfEach(a: multiset<int>, b: multiset<int>, c: multiset<int>, d: multiset<int>, id: int)
    requires id in c
    ensures multiset{id} + d <= a + b + c + d
  {
  }

  lemma CollectedWithin(s: State, id: nat)
    requires Everywhere(s) == Ids(s.n) && id in InQueues(s.queues)
    ensures IdSet([id] + s.reposter.staged) <= Ids(s.n)
  {
    var posted := if s.completed <= |s.reposter.posted| then IdsOf(s.reposter.posted[s.completed..]) else multiset{};
    assert ([id] + s.reposter.staged)[1..] == s.reposter.staged;
    OneOfEach(posted, s.held, InQueues(s.queues), IdSet(s.reposter.staged), id);
  }

  lemma ChainIsWhole(base: nat, size: nat, ids: seq<nat>, n: nat)
    requires forall i, j :: 0 <= i < j < |ids| ==> ids[i] != ids[j]
    requires forall i :: 0 <= i < |ids| ==> ids[i] < n
    ensures |Chain(base, size, ids)| == |ids| && Whole(Chain(base, size, ids), base, size, n)
  {
    var chain := Chain(base, size, ids);
    forall i | 0 <= i < |ids| ensures |chain| == |ids| && chain[i] == Request(ids[i], base + ids[i] * size) {
      ChainAt(base, size, ids, i);
    }
    assert ids == [] ==> chain == [];
  }

  lemma ChainWhole(r: Reposter, id: nat, n: nat)
    requires IdSet([id] + r.staged) <= Ids(n)
    ensures WholeChain(r, Reposted(r, id), n)
  {
    var ids := [id] + r.staged;
    CollectedDiffer(ids, n);
    ChainIsWhole(r.base, r.size, ids, n);
    var chain := Chain(r.base, r.size, ids);
    assert (r.posted + chain)[|r.posted|..] == chain;
    assert r.posted[|r.posted|..] == [];
  }
}
