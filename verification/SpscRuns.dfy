/** Every run of the queue, from its constructor on. */
module SpscRuns {
  import opened Modular
  import opened PowersOfTwo
  import opened SpscQueue

  // ----- The constructor -----

  function EmptyBlock(size: nat, next: nat): Block { Block(0, 0, 0, 0, next, size, seq(size, _ => 0)) }

  /** How many blocks of the maximal size the constructor makes when one block is not enough. */
  function InitialBlocks(requested: nat, maxBlock: nat): nat
    requires 2 <= maxBlock
  {
    (requested + 2 * maxBlock - 3) / (maxBlock - 1)
  }

  /** All blocks but one, taken together, hold what was asked for. */
  lemma EnoughBlocks(requested: nat, maxBlock: nat)
    requires 2 <= maxBlock && requested + 1 > maxBlock
    ensures InitialBlocks(requested, maxBlock) >= 2
    ensures (InitialBlocks(requested, maxBlock) - 1) * (maxBlock - 1) >= requested
  {
    var n, m := InitialBlocks(requested, maxBlock), maxBlock - 1;
    var total := requested + 2 * maxBlock - 3;
    assert total == n * m + total % m;
    assert (n - 1) * m == n * m - m;
    if n <= 1 {
      AtMostOnce(n, m);
    }
  }

  /** And they would not with one block less. */
  lemma NotTooManyBlocks(requested: nat, maxBlock: nat)
    requires 2 <= maxBlock && requested + 1 > maxBlock
    ensures InitialBlocks(requested, maxBlock) >= 2
    ensures (InitialBlocks(requested, maxBlock) - 2) * (maxBlock - 1) < requested
  {
    EnoughBlocks(requested, maxBlock);
    var n, m := InitialBlocks(requested, maxBlock), maxBlock - 1;
    var total := requested + 2 * maxBlock - 3;
    assert total == n * m + total % m;
    assert (n - 2) * m == n * m - 2 * m;
  }

  lemma AtMostOnce(n: nat, m: nat)
    requires n <= 1
    ensures n * m <= m
  {
  }

  /** n empty blocks in a ring. */
  function RingOf(n: nat, size: nat, requested: nat, maxBlock: nat): Queue
    requires 1 <= n && 1 <= size
  {
    Queue(seq(n, i requires 0 <= i < n => EmptyBlock(size, if i + 1 < n then i + 1 else 0)),
          0, 0, size, maxBlock, seq(n, i => i), 0, [0], [], [], false, requested, size - 1)
  }

  function NewQueue(requested: nat, maxBlock: nat): Queue
    requires 2 <= maxBlock
  {
    var largest := CeilToPow2(requested + 1);
    if largest > 2 * maxBlock then
      EnoughBlocks(requested, maxBlock);
      RingOf(InitialBlocks(requested, maxBlock), maxBlock, requested, maxBlock)
    else RingOf(1, largest, requested, maxBlock)
  }

  function Start(requested: nat, maxBlock: nat): State
    requires 2 <= maxBlock
  {
    State(NewQueue(requested, maxBlock), Prod(PIdle, 0, false, false), Cons(CIdle, Dequeue, false, 0), false, false)
  }

  /** q is a ring of n empty blocks, in the order of their places in memory. */
  ghost predicate IsRing(q: Queue, n: nat, size: nat) {
    && |q.blocks| == |q.ring| == n >= 1
    && (forall i :: 0 <= i < n ==> q.blocks[i] == EmptyBlock(size, if i + 1 < n then i + 1 else 0))
    && (forall i {:trigger Id(q, i)} :: 0 <= i < n ==> Id(q, i) == i)
    && q.frontBlock == q.tailBlock == q.ti == 0 && q.largest == size && q.unit == size - 1
  }

  lemma RingOfIsRing(n: nat, size: nat, requested: nat, maxBlock: nat)
    requires 1 <= n && 1 <= size
    ensures IsRing(RingOf(n, size, requested, maxBlock), n, size)
  {
  }

  lemma StartRing(q: Queue, n: nat, size: nat)
    requires IsRing(q, n, size) && 2 <= size && (if n == 1 then size - 1 else (n - 1) * (size - 1)) >= q.requested
    ensures RingOk(q) && CapacityOk(q) && forall i :: 0 <= i < n ==> Row(q)[i] == EmptyBlock(size, 0)
  {
    assert RingShape(q);
    forall i | 0 <= i < n ensures NextOf(q, i) == Id(q, Following(q, i)) {
    }
    assert forall i :: 0 <= i < n ==> Row(q)[i] == EmptyBlock(size, 0);
  }

  lemma EmptyRow(c: Chain, size: nat)
    requires c.ti == 0 < |c.row| && c.base == [0] && c.enq == c.deq == [] && !c.pending && 2 <= size
    requires forall i :: 0 <= i < |c.row| ==> c.row[i] == EmptyBlock(size, 0)
    ensures ChainOk(c)
  {
  }

  /** With at least one element asked for, the constructor establishes the invariant. */
  lemma StartKeeps(requested: nat, maxBlock: nat)
    requires 2 <= maxBlock && 1 <= requested
    ensures Inv(Start(requested, maxBlock))
  {
    var largest := CeilToPow2(requested + 1);
    var n := if largest > 2 * maxBlock then InitialBlocks(requested, maxBlock) else 1;
    var size := if largest > 2 * maxBlock then maxBlock else largest;
    if largest > 2 * maxBlock {
      EnoughBlocks(requested, maxBlock);
    }
    RingOfIsRing(n, size, requested, maxBlock);
    StartRing(RingOf(n, size, requested, maxBlock), n, size);
    EmptyRow(ChainOf(RingOf(n, size, requested, maxBlock)), size);
    StartIdle(Start(requested, maxBlock));
  }

  lemma StartIdle(s: State)
    requires QueueOk(s.q) && !s.q.pending && s.prod.pc.PIdle? && s.cons.pc.CIdle?
    ensures Inv(s)
  {
  }

  // ----- Runs -----

  ghost predicate IsNext(s: State, a: Action, t: State) { Enabled(s, a) && t == Apply(s, a) }

  ghost predicate IsRun(run: seq<State>, acts: seq<Action>, requested: nat, maxBlock: nat)
    requires 2 <= maxBlock
  {
    && |run| == |acts| + 1 && run[0] == Start(requested, maxBlock)
    && forall i, j {:trigger run[i], run[j]} :: 0 <= i < |acts| && j == i + 1 ==>
         IsNext(run[i], acts[i], run[j])
  }

  lemma {:induction false} RunKeepsInvariant(run: seq<State>, acts: seq<Action>, requested: nat, maxBlock: nat, k: nat)
    requires 2 <= maxBlock && 1 <= requested && IsRun(run, acts, requested, maxBlock) && k < |run|
    ensures Inv(run[k])
  {
    if k == 0 {
      StartKeeps(requested, maxBlock);
    } else {
      RunKeepsInvariant(run, acts, requested, maxBlock, k - 1);
      assert IsNext(run[k - 1], acts[k - 1], run[k]);
      KeptByNext(run[k - 1], acts[k - 1], run[k]);
    }
  }

  lemma KeptByNext(s: State, a: Action, t: State)
    requires Inv(s) && IsNext(s, a, t)
    ensures Inv(t)
  {
    KeptByStep(s, a);
  }

  // ----- What the calls return -----

  /** What a consumer step from s to t does to the history, and what it returns. */
  predicate ConsumerResult(s: State, t: State) {
    && t.q.enq == s.q.enq
    && if t.cons.pc.CIdle? && t.cons.ok then
         && |s.q.deq| < |s.q.enq| && t.cons.value == s.q.enq[|s.q.deq|]
         && t.q.deq == if t.cons.kind.Dequeue? then s.q.deq + [t.cons.value] else s.q.deq
       else t.q.deq == s.q.deq && (t.cons.pc.CIdle? ==> t.emptySeen)
  }

  lemma StoreReturns(s: State)
    requires Inv(s) && (s.cons.pc.CStoreFront? || s.cons.pc.CStoreNextFront?)
    ensures ConsumerResult(s, Apply(s, Consume))
  {
    ConsumeStoreFront(s);
    StoreKind(s.q, s.cons, s.emptySeen);
    TakeResults(s);
  }

  lemma StoreKind(q: Queue, cons: Cons, emptySeen: bool)
    requires RingShape(q) && RowShaped(ChainOf(q)) && ConsOk(q, cons, emptySeen)
    requires cons.pc.CStoreFront? || cons.pc.CStoreNextFront?
    ensures cons.kind.Dequeue?
  {
  }

  lemma LookReturns(s: State)
    requires Inv(s) && Enabled(s, Consume) && !s.cons.pc.CStoreFront? && !s.cons.pc.CStoreNextFront?
    ensures ConsumerResult(s, Apply(s, Consume))
  {
    match s.cons.pc {
      case CRead(_, _) => PeekFront(s.q, s.cons, s.emptySeen);
      case CLoadNextTail(_, _) => PeekNext(s.q, s.cons, s.emptySeen);
      case CLoadTailBlock(fb) => if fb == s.q.tailBlock { LastBlock(s.q, s.cons, s.emptySeen); }
      case _ =>
    }
    LookResults(s);
  }

  /** A returning consumer took, or looked at, the element after the ones dequeued so far. */
  lemma ConsumerReturns(s: State)
    requires Inv(s) && Enabled(s, Consume)
    ensures ConsumerResult(s, Apply(s, Consume))
  {
    if s.cons.pc.CStoreFront? || s.cons.pc.CStoreNextFront? {
      StoreReturns(s);
    } else {
      LookReturns(s);
    }
  }

  lemma TakeResults(s: State)
    requires s.cons.pc.CStoreFront? || s.cons.pc.CStoreNextFront?
    requires s.cons.kind.Dequeue? && |s.q.deq| < |s.q.enq| && s.cons.value == s.q.enq[|s.q.deq|]
    ensures ConsumerResult(s, Apply(s, Consume))
  {
  }

  lemma LookResults(s: State)
    requires Enabled(s, Consume) && !s.cons.pc.CStoreFront? && !s.cons.pc.CStoreNextFront?
    requires s.cons.pc.CRead? ==>
               |s.q.deq| < |s.q.enq| && Slot(BlockAt(s.q, s.cons.pc.fb), s.cons.pc.bf) == s.q.enq[|s.q.deq|]
    requires s.cons.pc.CLoadNextTail? ==>
               |s.q.deq| < |s.q.enq| && Slot(BlockAt(s.q, s.cons.pc.nb), s.cons.pc.nf) == s.q.enq[|s.q.deq|]
    requires s.cons.pc.CLoadTailBlock? && s.cons.pc.fb == s.q.tailBlock ==> s.emptySeen
    ensures ConsumerResult(s, Apply(s, Consume))
  {
  }

  lemma LastBlock(q: Queue, cons: Cons, emptySeen: bool)
    requires RingShape(q) && RowShaped(ChainOf(q)) && ConsOk(q, cons, emptySeen)
    requires cons.pc.CLoadTailBlock? && cons.pc.fb == q.tailBlock
    ensures emptySeen
  {
  }

  lemma PeekFront(q: Queue, cons: Cons, emptySeen: bool)
    requires QueueOk(q) && ConsOk(q, cons, emptySeen) && cons.pc.CRead?
    ensures |q.deq| < |q.enq| && Slot(BlockAt(q, cons.pc.fb), cons.pc.bf) == q.enq[|q.deq|]
  {
    RowAt(q, 0);
    FirstElement(ChainOf(q));
  }

  lemma FirstElement(c: Chain)
    requires ChainOk(c) && c.row[0].Count() >= 1
    ensures |c.deq| < |c.enq| && c.row[0].data[c.row[0].front] == c.enq[|c.deq|]
  {
    assert Holds(c.row[0], c.enq, c.base[0]);
    assert c.row[0].At(0) == c.enq[c.base[0]];
  }

  lemma PeekNext(q: Queue, cons: Cons, emptySeen: bool)
    requires QueueOk(q) && ConsOk(q, cons, emptySeen) && cons.pc.CLoadNextTail?
    ensures |q.deq| < |q.enq| && Slot(BlockAt(q, cons.pc.nb), cons.pc.nf) == q.enq[|q.deq|]
  {
    RowAt(q, 1);
    NextElement(ChainOf(q));
  }

  lemma NextElement(c: Chain)
    requires ChainOk(c) && c.ti > 0 && c.row[0].Count() == 0
    ensures |c.deq| < |c.enq| && c.row[1].data[c.row[1].front] == c.enq[|c.deq|]
  {
    assert c.base[1] == c.base[0] + c.row[0].Count();
    assert Holds(c.row[1], c.enq, c.base[1]);
    assert c.row[1].At(0) == c.enq[c.base[1]];
  }

  lemma OneMore(i: nat, unit: nat)
    requires i >= 1
    ensures i * unit == (i - 1) * unit + unit
  {
  }

  /** The blocks between front and tail are full, so what precedes block i grows by a block's capacity each. */
  lemma {:induction false} BaseGrows(c: Chain, unit: nat, i: nat)
    requires RowShaped(c) && StreamOk(c) && 1 <= i <= c.ti
    requires forall j :: 0 < j < c.ti ==> c.row[j].Full() && unit < c.row[j].size
    ensures c.base[i] >= |c.deq| + (i - 1) * unit
  {
    if i == 1 {
      assert c.base[1] == c.base[0] + c.row[0].Count();
    } else {
      BaseGrows(c, unit, i - 1);
      assert c.base[i] == c.base[i - 1] + c.row[i - 1].Count();
      OneMore(i - 1, unit);
    }
  }

  /** When the tail block is full and the next one is the front block, at least the requested elements are queued. */
  lemma BlockedWhenFull(q: Queue)
    requires RingShape(q) && ChainOk(ChainOf(q)) && CapacityOk(q)
    requires 0 < q.ti == |q.ring| - 1 && Row(q)[q.ti].Full()
    ensures Queued(q) >= q.requested
  {
    BaseGrows(ChainOf(q), q.unit, q.ti);
    OneMore(q.ti, q.unit);
  }

  lemma FollowingFront(q: Queue)
    requires RingShape(q) && Id(q, Following(q, q.ti)) == q.frontBlock
    ensures q.ti == |q.ring| - 1
  {
  }

  /** What a producer step from s to t does to the history, and what it returns. */
  predicate ProducerResult(s: State, t: State) {
    && t.q.deq == s.q.deq
    && if t.prod.pc.PIdle? && t.prod.ok then t.q.enq == s.q.enq + [s.prod.elem]
       else t.q.enq == s.q.enq && (t.prod.pc.PIdle? ==> !s.prod.canAlloc && t.fullSeen)
  }

  /** A returning producer has added its element, or was not allowed to allocate while the queue was full. */
  lemma ProducerReturns(s: State)
    requires Inv(s) && Enabled(s, Produce)
    ensures ProducerResult(s, Apply(s, Produce))
  {
    if s.prod.pc.PLoadFrontBlock? && s.prod.pc.next == s.q.frontBlock {
      NoFreeBlock(s.q, s.prod, s.fullSeen);
    }
    ProducerResults(s);
  }

  lemma NoFreeBlock(q: Queue, prod: Prod, fullSeen: bool)
    requires QueueOk(q) && ProdOk(q, prod, fullSeen) && prod.pc.PLoadFrontBlock? && prod.pc.next == q.frontBlock
    ensures fullSeen || Queued(q) >= q.requested
  {
    FollowingFront(q);
    if q.ti > 0 {
      BlockedWhenFull(q);
    }
  }

  lemma ProducerResults(s: State)
    requires Enabled(s, Produce)
    requires s.prod.pc.PLoadFrontBlock? && s.prod.pc.next == s.q.frontBlock ==> s.fullSeen || Queued(s.q) >= s.q.requested
    ensures ProducerResult(s, Apply(s, Produce))
  {
    if InTailBlock(s.prod.pc) {
      TailBlockResults(s);
    } else {
      NextBlockResults(s);
    }
  }

  lemma TailBlockResults(s: State)
    requires Enabled(s, Produce) && InTailBlock(s.prod.pc)
    requires s.prod.pc.PLoadFrontBlock? && s.prod.pc.next == s.q.frontBlock ==> s.fullSeen || Queued(s.q) >= s.q.requested
    ensures ProducerResult(s, Apply(s, Produce))
  {
  }

  lemma NextBlockResults(s: State)
    requires Enabled(s, Produce) && !InTailBlock(s.prod.pc)
    ensures ProducerResult(s, Apply(s, Produce))
  {
    match s.prod.pc {
      case PStoreTailBlock(nb) => PublishResults(s);
      case PStoreNext(tb, nb) => SpliceResults(s);
      case _ => PrepareResults(s);
    }
  }

  lemma PublishResults(s: State)
    requires s.prod.pc.PStoreTailBlock?
    ensures ProducerResult(s, Observe(ProdStep(s)))
  {
  }

  lemma SpliceResults(s: State)
    requires s.prod.pc.PStoreNext?
    ensures ProducerResult(s, Observe(ProdStep(s)))
  {
  }

  lemma PrepareResults(s: State)
    requires !InTailBlock(s.prod.pc) && !s.prod.pc.PIdle? && !s.prod.pc.PStoreTailBlock? && !s.prod.pc.PStoreNext?
    ensures ProducerResult(s, Observe(ProdStep(s)))
  {
  }

  // ----- First in, first out -----

  /** The element of the last enqueue called within the first k steps. */
  function LastOffer(acts: seq<Action>, k: nat): int
    requires k <= |acts|
  {
    if k == 0 then 0 else if acts[k - 1].CallEnqueue? then acts[k - 1].elem else LastOffer(acts, k - 1)
  }

  /** What the last call of the consumer within the first k steps asks for. */
  function LastKind(acts: seq<Action>, k: nat): Kind
    requires k <= |acts|
  {
    if k == 0 then Dequeue else if acts[k - 1].CallDequeue? then acts[k - 1].kind else LastKind(acts, k - 1)
  }

  /** The elements of the enqueues that returned true within the first k steps, as they were called. */
  function Accepted(run: seq<State>, acts: seq<Action>, k: nat): seq<int>
    requires k < |run| == |acts| + 1
  {
    if k == 0 then []
    else
      var accepts := acts[k - 1].Produce? && run[k].prod.pc.PIdle? && run[k].prod.ok;
      Accepted(run, acts, k - 1) + (if accepts then [LastOffer(acts, k - 1)] else [])
  }

  /** The values that dequeues returned within the first k steps. */
  function Returned(run: seq<State>, acts: seq<Action>, k: nat): seq<int>
    requires k < |run| == |acts| + 1
  {
    if k == 0 then []
    else
      var gives := acts[k - 1].Consume? && run[k].cons.pc.CIdle? && run[k].cons.ok && LastKind(acts, k - 1).Dequeue?;
      Returned(run, acts, k - 1) + (if gives then [run[k].cons.value] else [])
  }

  /** No step but a call changes what a thread has been asked for. */
  predicate SameRequests(s: State, t: State) {
    t.prod.elem == s.prod.elem && t.prod.canAlloc == s.prod.canAlloc && t.cons.kind == s.cons.kind
  }

  lemma TailBlockRequests(s: State)
    requires InTailBlock(s.prod.pc)
    ensures SameRequests(s, ProdStep(s)) && ProdStep(s).cons == s.cons
  {
  }

  lemma NextBlockRequests(s: State)
    requires !InTailBlock(s.prod.pc)
    ensures SameRequests(s, ProdStep(s)) && ProdStep(s).cons == s.cons
  {
  }

  lemma StoreRequests(s: State)
    requires ChangesBlock(s.cons.pc)
    ensures SameRequests(s, ConsStep(s)) && ConsStep(s).prod == s.prod
  {
  }

  lemma LoadRequests(s: State)
    requires !ChangesBlock(s.cons.pc)
    ensures SameRequests(s, ConsStep(s)) && ConsStep(s).prod == s.prod
  {
  }

  lemma StepRequests(s: State, a: Action)
    requires Enabled(s, a) && (a.Produce? || a.Consume?)
    ensures SameRequests(s, Apply(s, a))
    ensures a.Produce? ==> Apply(s, a).cons == s.cons
    ensures a.Consume? ==> Apply(s, a).prod == s.prod
  {
    if a.Produce? {
      if InTailBlock(s.prod.pc) { TailBlockRequests(s); } else { NextBlockRequests(s); }
    } else {
      if ChangesBlock(s.cons.pc) { StoreRequests(s); } else { LoadRequests(s); }
    }
  }

  lemma CallRequests(s: State, a: Action)
    requires Enabled(s, a) && !a.Produce? && !a.Consume?
    ensures var t := Apply(s, a);
            && t.prod.elem == (if a.CallEnqueue? then a.elem else s.prod.elem)
            && t.cons.kind == (if a.CallDequeue? then a.kind else s.cons.kind)
  {
  }

  /** What a thread works on is what it was last called with. */
  lemma {:induction false} RequestsAre(run: seq<State>, acts: seq<Action>, requested: nat, maxBlock: nat, k: nat)
    requires 2 <= maxBlock && IsRun(run, acts, requested, maxBlock) && k < |run|
    ensures run[k].prod.elem == LastOffer(acts, k) && run[k].cons.kind == LastKind(acts, k)
  {
    if k > 0 {
      RequestsAre(run, acts, requested, maxBlock, k - 1);
      assert IsNext(run[k - 1], acts[k - 1], run[k]);
      if acts[k - 1].Produce? || acts[k - 1].Consume? {
        StepRequests(run[k - 1], acts[k - 1]);
      } else {
        CallRequests(run[k - 1], acts[k - 1]);
      }
    }
  }

  lemma CallResults(s: State, a: Action)
    requires Enabled(s, a) && !a.Produce? && !a.Consume?
    ensures Apply(s, a).q == s.q
  {
  }

  /** What a step adds to the elements enqueued and dequeued is what the calls that return with it say. */
  predicate HistoryGrows(s: State, a: Action, t: State) {
    && t.q.enq == s.q.enq + (if a.Produce? && t.prod.pc.PIdle? && t.prod.ok then [s.prod.elem] else [])
    && t.q.deq == s.q.deq + (if a.Consume? && t.cons.pc.CIdle? && t.cons.ok && s.cons.kind.Dequeue? then [t.cons.value] else [])
  }

  lemma StepHistory(s: State, a: Action)
    requires Inv(s) && Enabled(s, a)
    ensures HistoryGrows(s, a, Apply(s, a))
  {
    match a {
      case Produce => ProducerReturns(s);
      case Consume => StepRequests(s, a); ConsumerReturns(s);
      case _ => CallResults(s, a);
    }
  }

  lemma HistoryInRun(run: seq<State>, acts: seq<Action>, requested: nat, maxBlock: nat, k: nat)
    requires 2 <= maxBlock && 1 <= requested && IsRun(run, acts, requested, maxBlock) && k < |acts|
    ensures HistoryGrows(run[k], acts[k], run[k + 1])
    ensures run[k].prod.elem == LastOffer(acts, k) && run[k].cons.kind == LastKind(acts, k)
  {
    RunStep(run, acts, requested, maxBlock, k);
    RequestsAre(run, acts, requested, maxBlock, k);
    StepHistory(run[k], acts[k]);
  }

  /** What was enqueued and dequeued is what the calls that returned say. */
  lemma {:induction false} HistoriesAre(run: seq<State>, acts: seq<Action>, requested: nat, maxBlock: nat, k: nat)
    requires 2 <= maxBlock && 1 <= requested && IsRun(run, acts, requested, maxBlock) && k < |run|
    ensures Returned(run, acts, k) == run[k].q.deq && run[k].q.enq == Accepted(run, acts, k)
  {
    if k == 0 {
      StartHistory(requested, maxBlock);
    } else {
      HistoriesAre(run, acts, requested, maxBlock, k - 1);
      HistoryInRun(run, acts, requested, maxBlock, k - 1);
    }
  }

  /** Whatever the interleaving: the values dequeued are the first ones of those enqueued, in their order. */
  lemma RunIsFifo(run: seq<State>, acts: seq<Action>, requested: nat, maxBlock: nat, k: nat)
    requires 2 <= maxBlock && 1 <= requested && IsRun(run, acts, requested, maxBlock) && k < |run|
    ensures Returned(run, acts, k) == run[k].q.deq <= run[k].q.enq == Accepted(run, acts, k)
  {
    HistoriesAre(run, acts, requested, maxBlock, k);
    RunPrefix(run, acts, requested, maxBlock, k);
  }

  lemma StartHistory(requested: nat, maxBlock: nat)
    requires 2 <= maxBlock
    ensures Start(requested, maxBlock).q.enq == Start(requested, maxBlock).q.deq == []
  {
  }

  lemma RunPrefix(run: seq<State>, acts: seq<Action>, requested: nat, maxBlock: nat, k: nat)
    requires 2 <= maxBlock && 1 <= requested && IsRun(run, acts, requested, maxBlock) && k < |run|
    ensures run[k].q.deq <= run[k].q.enq
  {
    RunKeepsInvariant(run, acts, requested, maxBlock, k);
    PrefixNow(run[k].q);
  }

  lemma PrefixNow(q: Queue)
    requires RingShape(q) && ChainOk(ChainOf(q))
    ensures q.deq <= q.enq
  {
  }

  lemma RunStep(run: seq<State>, acts: seq<Action>, requested: nat, maxBlock: nat, k: nat)
    requires 2 <= maxBlock && 1 <= requested && IsRun(run, acts, requested, maxBlock) && k < |acts|
    ensures Inv(run[k]) && Enabled(run[k], acts[k]) && run[k + 1] == Apply(run[k], acts[k])
  {
    RunKeepsInvariant(run, acts, requested, maxBlock, k);
    assert IsNext(run[k], acts[k], run[k + 1]);
  }

  // ----- What a failing call proves -----

  /** Neither thread's step touches the history of the other calls or the constructor's argument. */
  predicate SameFlags(s: State, t: State) {
    t.emptySeen == s.emptySeen && t.fullSeen == s.fullSeen && t.q.requested == s.q.requested
  }

  lemma TailBlockFlags(s: State)
    requires InTailBlock(s.prod.pc)
    ensures SameFlags(s, ProdStep(s))
  {
  }

  lemma NextBlockFlags(s: State)
    requires !InTailBlock(s.prod.pc)
    ensures SameFlags(s, ProdStep(s))
  {
  }

  /** The consumer's steps that write to a block. */
  predicate ChangesBlock(pc: ConsPc) {
    pc.CLoadTail? || pc.CReloadTail? || pc.CLoadNextTail? || pc.CStoreFront? || pc.CStoreNextFront?
  }

  lemma StoreFlags(s: State)
    requires ChangesBlock(s.cons.pc)
    ensures SameFlags(s, ConsStep(s))
  {
  }

  lemma LoadFlags(s: State)
    requires !ChangesBlock(s.cons.pc)
    ensures SameFlags(s, ConsStep(s))
  {
  }

  lemma ConsumerFlags(s: State)
    ensures SameFlags(s, ConsStep(s))
  {
    if ChangesBlock(s.cons.pc) { StoreFlags(s); } else { LoadFlags(s); }
  }

  /** The flags of a call are raised only at moments when the queue is empty, or full. */
  predicate FlagsFrom(s: State, a: Action, t: State) {
    && (t.emptySeen ==> Queued(t.q) == 0 || (s.emptySeen && !a.CallDequeue?))
    && (t.fullSeen ==> Queued(t.q) >= t.q.requested || (s.fullSeen && !a.CallEnqueue?))
    && t.q.requested == s.q.requested
  }

  lemma FlagsNext(s: State, a: Action, t: State)
    requires IsNext(s, a, t)
    ensures FlagsFrom(s, a, t)
  {
    match a {
      case Produce => if InTailBlock(s.prod.pc) { TailBlockFlags(s); } else { NextBlockFlags(s); }
      case Consume => ConsumerFlags(s);
      case _ =>
    }
  }

  lemma FlagsInRun(run: seq<State>, acts: seq<Action>, requested: nat, maxBlock: nat, k: nat)
    requires 2 <= maxBlock && IsRun(run, acts, requested, maxBlock) && k < |acts|
    ensures FlagsFrom(run[k], acts[k], run[k + 1])
  {
    assert IsNext(run[k], acts[k], run[k + 1]);
    FlagsNext(run[k], acts[k], run[k + 1]);
  }

  lemma {:induction false} EmptyMoment(run: seq<State>, acts: seq<Action>, requested: nat, maxBlock: nat, call: nat, k: nat)
    requires 2 <= maxBlock && IsRun(run, acts, requested, maxBlock)
    requires call <= k < |acts| && acts[call].CallDequeue? && run[k + 1].emptySeen
    ensures exists i :: call < i <= k + 1 && Queued(run[i].q) == 0
  {
    FlagsInRun(run, acts, requested, maxBlock, k);
    if Queued(run[k + 1].q) != 0 {
      EmptyMoment(run, acts, requested, maxBlock, call, k - 1);
    }
  }

  /** A try_dequeue, pop or peek that fails does so only if the queue was empty at some moment since the call. */
  lemma DequeueFailsOnlyIfEmpty(run: seq<State>, acts: seq<Action>, requested: nat, maxBlock: nat, call: nat, k: nat)
    requires 2 <= maxBlock && 1 <= requested && IsRun(run, acts, requested, maxBlock)
    requires call < k < |acts| && acts[call].CallDequeue? && acts[k].Consume? && run[k + 1].cons.pc.CIdle? && !run[k + 1].cons.ok
    ensures exists i :: call < i <= k + 1 && Queued(run[i].q) == 0
  {
    RunStep(run, acts, requested, maxBlock, k);
    ConsumerReturns(run[k]);
    EmptyMoment(run, acts, requested, maxBlock, call, k);
  }

  lemma {:induction false} RequestedStays(run: seq<State>, acts: seq<Action>, requested: nat, maxBlock: nat, k: nat)
    requires 2 <= maxBlock && IsRun(run, acts, requested, maxBlock) && k < |run|
    ensures run[k].q.requested == requested
  {
    if k > 0 {
      RequestedStays(run, acts, requested, maxBlock, k - 1);
      FlagsInRun(run, acts, requested, maxBlock, k - 1);
    }
  }

  lemma {:induction false} FullMoment(run: seq<State>, acts: seq<Action>, requested: nat, maxBlock: nat, call: nat, k: nat)
    requires 2 <= maxBlock && IsRun(run, acts, requested, maxBlock)
    requires call <= k < |acts| && acts[call].CallEnqueue? && run[k + 1].fullSeen
    ensures exists i :: call < i <= k + 1 && Queued(run[i].q) >= requested
  {
    FlagsInRun(run, acts, requested, maxBlock, k);
    RequestedStays(run, acts, requested, maxBlock, k + 1);
    if Queued(run[k + 1].q) < requested {
      FullMoment(run, acts, requested, maxBlock, call, k - 1);
    }
  }

  /** An enqueue that was not refused memory fails only if it may not allocate and the requested number was queued. */
  lemma EnqueueFailsOnlyIfFull(run: seq<State>, acts: seq<Action>, requested: nat, maxBlock: nat, call: nat, k: nat)
    requires 2 <= maxBlock && 1 <= requested && IsRun(run, acts, requested, maxBlock)
    requires call < k < |acts| && acts[call].CallEnqueue? && acts[k].Produce? && run[k + 1].prod.pc.PIdle? && !run[k + 1].prod.ok
    ensures !run[k].prod.canAlloc
    ensures exists i :: call < i <= k + 1 && Queued(run[i].q) >= requested
  {
    RunStep(run, acts, requested, maxBlock, k);
    ProducerReturns(run[k]);
    FullMoment(run, acts, requested, maxBlock, call, k);
  }

  // ----- The assertions in the source -----

  /** On entering a next block, the producer finds it empty, the consumer finds an element, a new block starts at 0. */
  predicate AssertionsHold(s: State) {
    && (s.prod.pc.PLoadNextTail? ==> s.prod.pc.nf == BlockAt(s.q, s.prod.pc.nb).tail)
    && (s.cons.pc.CLoadNextTail? ==> s.cons.pc.nf != BlockAt(s.q, s.cons.pc.nb).tail)
    && (s.prod.pc.PLinkNew? ==> BlockAt(s.q, s.prod.pc.nb).front == 0)
  }

  lemma ProducerEnters(q: Queue, prod: Prod, fullSeen: bool)
    requires QueueOk(q) && ProdOk(q, prod, fullSeen) && prod.pc.PLoadNextTail?
    ensures prod.pc.nf == BlockAt(q, prod.pc.nb).tail
  {
    NextTailLoaded(q, prod, fullSeen);
    NextNow(q, prod, fullSeen);
  }

  lemma ConsumerEnters(q: Queue, cons: Cons, emptySeen: bool)
    requires QueueOk(q) && ConsOk(q, cons, emptySeen) && cons.pc.CLoadNextTail?
    ensures cons.pc.nf != BlockAt(q, cons.pc.nb).tail
  {
    SecondNow(q, cons, emptySeen);
    NotEmptyNext(ChainOf(q));
  }

  lemma NotEmptyNext(c: Chain)
    requires ChainOk(c) && c.ti > 0
    ensures c.row[1].front != c.row[1].tail
  {
    assert c.row[1].Count() > 0;
  }

  lemma NewBlockStarts(q: Queue, prod: Prod, fullSeen: bool)
    requires QueueOk(q) && ProdOk(q, prod, fullSeen) && prod.pc.PLinkNew?
    ensures BlockAt(q, prod.pc.nb).front == 0
  {
  }

  lemma AssertionsNow(s: State)
    requires Inv(s)
    ensures AssertionsHold(s)
  {
    if s.prod.pc.PLoadNextTail? {
      ProducerEnters(s.q, s.prod, s.fullSeen);
    }
    if s.cons.pc.CLoadNextTail? {
      ConsumerEnters(s.q, s.cons, s.emptySeen);
    }
    if s.prod.pc.PLinkNew? {
      NewBlockStarts(s.q, s.prod, s.fullSeen);
    }
  }

  lemma AssertionsNeverFail(run: seq<State>, acts: seq<Action>, requested: nat, maxBlock: nat, k: nat)
    requires 2 <= maxBlock && 1 <= requested && IsRun(run, acts, requested, maxBlock) && k < |run|
    ensures AssertionsHold(run[k])
  {
    RunKeepsInvariant(run, acts, requested, maxBlock, k);
    AssertionsNow(run[k]);
  }

  // ----- The shape of the ring -----

  /** The i-th block along the next pointers from the front block on. */
  function Nth(q: Queue, i: nat): nat {
    if i == 0 then q.frontBlock else BlockAt(q, Nth(q, i - 1)).next
  }

  lemma {:induction false} NthIsId(q: Queue, i: nat)
    requires RingOk(q) && i < |q.ring|
    ensures Nth(q, i) == Id(q, i) < |q.blocks|
  {
    if i > 0 {
      NthIsId(q, i - 1);
      assert NextOf(q, i - 1) == Id(q, i);
    }
  }

  /**
   The next pointers form one ring of n different blocks; the tail block is the t-th; those strictly between front
   and tail are full, a tail block other than the front block is not empty, and those after it are empty but for
   one that holds the one element about to be published.
   */
  ghost predicate RingShaped(q: Queue, n: nat, t: nat) {
    && t < n && Nth(q, n) == q.frontBlock && Nth(q, t) == q.tailBlock
    && (forall i, j {:trigger Nth(q, i), Nth(q, j)} :: 0 <= i < j < n ==> Nth(q, i) != Nth(q, j))
    && (forall i {:trigger Nth(q, i)} :: 0 < i < t ==> BlockAt(q, Nth(q, i)).Full())
    && (t > 0 ==> BlockAt(q, q.tailBlock).Count() > 0)
    && (forall i {:trigger Nth(q, i)} :: t + 1 < i < n ==> BlockAt(q, Nth(q, i)).Count() == 0)
    && (t + 1 < n ==> BlockAt(q, Nth(q, t + 1)).Count() == if q.pending then 1 else 0)
  }

  lemma NthRow(q: Queue, i: nat)
    requires RingOk(q) && i < |q.ring|
    ensures Nth(q, i) == Id(q, i)
    ensures var b := BlockAt(q, Nth(q, i)); Row(q)[i].Count() == b.Count() && Row(q)[i].Full() == b.Full()
  {
    NthIsId(q, i);
    RowAt(q, i);
  }

  lemma NthDistinct(q: Queue)
    requires RingOk(q)
    ensures forall i, j {:trigger Nth(q, i), Nth(q, j)} :: 0 <= i < j < |q.ring| ==> Nth(q, i) != Nth(q, j)
    ensures Nth(q, |q.ring|) == q.frontBlock && Nth(q, q.ti) == q.tailBlock
  {
    forall i, j | 0 <= i < j < |q.ring| ensures Nth(q, i) != Nth(q, j) {
      NthIsId(q, i);
      NthIsId(q, j);
    }
    NthIsId(q, q.ti);
    NthIsId(q, |q.ring| - 1);
    assert NextOf(q, |q.ring| - 1) == Id(q, 0);
  }

  lemma ShapeNow(q: Queue)
    requires RingOk(q) && RowShaped(ChainOf(q)) && SpanOk(ChainOf(q))
    ensures RingShaped(q, |q.ring|, q.ti)
  {
    NthDistinct(q);
    forall i | 0 <= i < |q.ring|
      ensures var b := BlockAt(q, Nth(q, i)); Row(q)[i].Count() == b.Count() && Row(q)[i].Full() == b.Full()
    {
      NthRow(q, i);
    }
  }

  /** In every reachable state the ring has its shape, and an element is about to be published exactly at PStoreTailBlock. */
  lemma ShapeHolds(run: seq<State>, acts: seq<Action>, requested: nat, maxBlock: nat, k: nat)
    requires 2 <= maxBlock && 1 <= requested && IsRun(run, acts, requested, maxBlock) && k < |run|
    ensures exists n: nat, t: nat :: RingShaped(run[k].q, n, t)
    ensures run[k].q.pending <==> run[k].prod.pc.PStoreTailBlock?
  {
    RunKeepsInvariant(run, acts, requested, maxBlock, k);
    ShapeNow(run[k].q);
  }

  // ----- Masks -----

  lemma MaskOf(x: nat, size: nat)
    requires IsPow2(size)
    ensures size >= 1 && And(x, size - 1) == x % size
  {
    var k: nat :| size == Pow2(k);
    MaskIsRemainder(x, k);
  }

  lemma NextRemainder(i: nat, size: nat)
    requires i < size
    ensures (i + 1) % size == Inc(i, size)
  {
    if i + 1 == size {
      UniqueRemainder(i + 1, 1, 0, size);
    } else {
      UniqueRemainder(i + 1, 0, i + 1, size);
    }
  }

  /** `(i + 1) & sizeMask` for a power-of-two size is what the model computes. */
  lemma IncIsMask(i: nat, size: nat)
    requires IsPow2(size) && i < size
    ensures And(i + 1, size - 1) == Inc(i, size)
  {
    MaskOf(i + 1, size);
    NextRemainder(i, size);
  }

  lemma NegativeRemainder(x: nat, n: nat)
    requires 0 < x < n
    ensures (0 - x) % n == n - x
  {
    assert n * ((0 - x) / n + 1) == n - x - (0 - x) % n;
    SmallMultiple(n, (0 - x) / n + 1);
  }

  lemma WrappedDifference(front: nat, tail: nat, size: nat, word: nat, d: nat)
    requires front < size && tail < size <= word && word == size * d && d >= 1
    ensures (tail - front) % word % size == Dist(front, tail, size)
  {
    if tail < front {
      NegativeRemainder(front - tail, word);
      assert size * d == size * (d - 1) + size;
      UniqueRemainder(word + tail - front, d - 1, size + tail - front, size);
    } else {
      UniqueRemainder(tail - front, 0, tail - front, word);
      UniqueRemainder(tail - front, 0, tail - front, size);
    }
  }

  /** The number of elements in a block as size_approx computes it, with an unsigned difference that may wrap around. */
  lemma CountIsMask(front: nat, tail: nat, size: nat)
    requires IsPow2(size) && front < size && tail < size <= WORD
    ensures And((tail - front) % WORD, size - 1) == Dist(front, tail, size)
  {
    MaskOf((tail - front) % WORD, size);
    var d := WordSplit(size);
    WrappedDifference(front, tail, size, WORD, d);
  }

  lemma WordSplit(size: nat) returns (d: nat)
    requires IsPow2(size) && size <= WORD
    ensures WORD == size * d && d >= 1
  {
    var k: nat :| size == Pow2(k);
    WordIsPow2();
    if k > 64 {
      PowMonotone(65, k);
    } else {
      PowAdd(k, 64 - k);
      d := Pow2(64 - k);
    }
  }

  /** All blocks ever made have power-of-two sizes. */
  ghost predicate SizesOk(q: Queue) {
    IsPow2(q.largest) && forall b :: 0 <= b < |q.blocks| ==> IsPow2(q.blocks[b].size)
  }

  /** Blocks keep their size, and a new block has the size, or twice the size, of the largest one. */
  predicate SizesKept(q: Queue, r: Queue) {
    && |q.blocks| <= |r.blocks| && (r.largest == q.largest || r.largest == 2 * q.largest)
    && forall b :: 0 <= b < |r.blocks| ==> r.blocks[b].size == if b < |q.blocks| then q.blocks[b].size else r.largest
  }

  lemma NextBlockSizes(s: State)
    requires !InTailBlock(s.prod.pc) && !ChangesNewBlock(s.prod.pc)
    ensures SizesKept(s.q, ProdStep(s).q)
  {
  }

  lemma TailBlockSizes(s: State)
    requires InTailBlock(s.prod.pc)
    ensures SizesKept(s.q, ProdStep(s).q)
  {
  }

  lemma LoadSizes(s: State)
    requires !ChangesBlock(s.cons.pc)
    ensures SizesKept(s.q, ConsStep(s).q)
  {
  }

  lemma StoreSizes(s: State)
    requires ChangesBlock(s.cons.pc)
    ensures SizesKept(s.q, ConsStep(s).q)
  {
  }

  predicate ChangesNewBlock(pc: ProdPc) { pc.PAlloc? || pc.PLinkNew? || pc.PStoreNext? }

  lemma NewBlockSizes(s: State)
    requires ChangesNewBlock(s.prod.pc)
    ensures SizesKept(s.q, ProdStep(s).q)
  {
  }

  lemma SizesNext(s: State, a: Action, t: State)
    requires IsNext(s, a, t)
    ensures SizesKept(s.q, t.q)
  {
    match a {
      case Produce =>
        if InTailBlock(s.prod.pc) { TailBlockSizes(s); }
        else if ChangesNewBlock(s.prod.pc) { NewBlockSizes(s); }
        else { NextBlockSizes(s); }
      case Consume => if ChangesBlock(s.cons.pc) { StoreSizes(s); } else { LoadSizes(s); }
      case _ =>
    }
  }

  lemma SizesStayPowers(q: Queue, r: Queue)
    requires SizesOk(q) && SizesKept(q, r)
    ensures SizesOk(r)
  {
    DoubleIsPow2(q.largest);
  }

  lemma StartSizes(requested: nat, maxBlock: nat)
    requires 2 <= maxBlock && IsPow2(maxBlock)
    ensures SizesOk(NewQueue(requested, maxBlock))
  {
    var largest := CeilToPow2(requested + 1);
    CeilIsPow2(requested + 1);
    var n := if largest > 2 * maxBlock then InitialBlocks(requested, maxBlock) else 1;
    var size := if largest > 2 * maxBlock then maxBlock else largest;
    if largest > 2 * maxBlock {
      EnoughBlocks(requested, maxBlock);
    }
    RingOfIsRing(n, size, requested, maxBlock);
  }

  /** Every block of every reachable state has a power-of-two size, given that the maximal block size is one. */
  lemma {:induction false} SizesArePowers(run: seq<State>, acts: seq<Action>, requested: nat, maxBlock: nat, k: nat)
    requires 2 <= maxBlock && IsPow2(maxBlock) && IsRun(run, acts, requested, maxBlock) && k < |run|
    ensures SizesOk(run[k].q)
  {
    if k == 0 {
      StartSizes(requested, maxBlock);
    } else {
      SizesArePowers(run, acts, requested, maxBlock, k - 1);
      assert IsNext(run[k - 1], acts[k - 1], run[k]);
      SizesNext(run[k - 1], acts[k - 1], run[k]);
      SizesStayPowers(run[k - 1].q, run[k].q);
    }
  }
}
