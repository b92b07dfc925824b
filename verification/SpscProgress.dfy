/** Every call of the queue returns within a fixed number of its own steps, and what it then returns. */
module SpscProgress {
  import opened SpscQueue
  import opened SpscRuns

  // ----- Steps left -----

  const DEQUEUE_STEPS := 13
  const ENQUEUE_STEPS := 11

  /** How many steps of its own a consumer may still take before it returns. */
  function ConsRank(pc: ConsPc): nat {
    match pc
    case CIdle => 0
    case CStart => DEQUEUE_STEPS
    case CLoadFront(_) => 12
    case CLoadTail(_, _) => 11
    case CRead(_, _) => 2
    case CStoreFront(_, _) => 1
    case CLoadTailBlock(_) => 10
    case CReloadFrontBlock => 9
    case CReloadTail(_) => 8
    case CReloadFront(_, _) => 7
    case CLoadNext(_) => 6
    case CLoadNextFront(_) => 5
    case CLoadNextTail(_, _) => 4
    case CStoreFrontBlock(_, _) => 3
    case CReadNext(_, _) => 2
    case CStoreNextFront(_, _) => 1
  }

  function ProdRank(pc: ProdPc): nat {
    match pc
    case PIdle => 0
    case PStart => ENQUEUE_STEPS
    case PLoadTail(_) => 10
    case PLoadFront(_, _) => 9
    case PConstruct(_, _) => 2
    case PStoreTail(_, _) => 1
    case PLoadNext(_) => 8
    case PLoadFrontBlock(_, _) => 7
    case PLoadNextAgain(_) => 6
    case PLoadNextFront(_) => 5
    case PLoadNextTail(_, _) => 4
    case PConstructNext(_, _) => 3
    case PStoreNextTail(_, _) => 2
    case PStoreTailBlock(_) => 1
    case PAlloc(_) => 4
    case PLinkNew(_, _) => 3
    case PStoreNext(_, _) => 2
  }

  lemma RankPositive(c: ConsPc, p: ProdPc)
    ensures ConsRank(c) == 0 <==> c.CIdle?
    ensures ProdRank(p) == 0 <==> p.PIdle?
  {
  }

  lemma StoreLowers(s: State)
    requires ChangesBlock(s.cons.pc)
    ensures ConsRank(ConsStep(s).cons.pc) < ConsRank(s.cons.pc)
  {
  }

  predicate InFrontBlock(pc: ConsPc) { pc.CStart? || pc.CLoadFront? || pc.CRead? || pc.CLoadTailBlock? }

  lemma LoadLowers(s: State)
    requires !ChangesBlock(s.cons.pc) && !s.cons.pc.CIdle? && InFrontBlock(s.cons.pc)
    ensures ConsRank(ConsStep(s).cons.pc) < ConsRank(s.cons.pc)
  {
  }

  predicate InNextBlock(pc: ConsPc) { pc.CLoadNext? || pc.CLoadNextFront? || pc.CReadNext? }

  lemma NextLowers(s: State)
    requires InNextBlock(s.cons.pc)
    ensures ConsRank(ConsStep(s).cons.pc) < ConsRank(s.cons.pc)
  {
  }

  lemma ReloadLowers(s: State)
    requires s.cons.pc.CReloadFrontBlock? || s.cons.pc.CReloadFront? || s.cons.pc.CStoreFrontBlock?
    ensures ConsRank(ConsStep(s).cons.pc) < ConsRank(s.cons.pc)
  {
  }

  /** A step of the consumer lowers its rank, and no other step changes it, but for a call. */
  lemma ConsumerAdvances(s: State, a: Action)
    requires Enabled(s, a) && !a.CallDequeue?
    ensures var t := Apply(s, a);
            if a.Consume? then ConsRank(t.cons.pc) < ConsRank(s.cons.pc) else t.cons == s.cons
  {
    if a.Consume? {
      if ChangesBlock(s.cons.pc) { StoreLowers(s); }
      else if InFrontBlock(s.cons.pc) { LoadLowers(s); }
      else if InNextBlock(s.cons.pc) { NextLowers(s); }
      else { ReloadLowers(s); }
    } else if a.Produce? {
      StepRequests(s, a);
    }
  }

  lemma TailBlockLowers(s: State)
    requires InTailBlock(s.prod.pc)
    ensures ProdRank(ProdStep(s).prod.pc) < ProdRank(s.prod.pc)
  {
  }

  lemma NextBlockLowers(s: State)
    requires !InTailBlock(s.prod.pc) && !s.prod.pc.PIdle?
    ensures ProdRank(ProdStep(s).prod.pc) < ProdRank(s.prod.pc)
  {
  }

  /** The same for the producer, whether or not an allocation fails. */
  lemma ProducerAdvances(s: State, a: Action)
    requires Enabled(s, a) && !a.CallEnqueue?
    ensures var t := Apply(s, a);
            if a.Produce? || a.AllocFails? then ProdRank(t.prod.pc) < ProdRank(s.prod.pc) else t.prod == s.prod
  {
    if a.Produce? {
      if InTailBlock(s.prod.pc) { TailBlockLowers(s); } else { NextBlockLowers(s); }
    } else if a.Consume? {
      StepRequests(s, a);
    }
  }

  // ----- Calls in a run -----

  /** How many of the steps from i up to j are the consumer's, or the producer's. */
  function Consumes(acts: seq<Action>, i: nat, j: nat): nat
    requires i <= j <= |acts|
  {
    if i == j then 0 else Consumes(acts, i, j - 1) + if acts[j - 1].Consume? then 1 else 0
  }

  function Produces(acts: seq<Action>, i: nat, j: nat): nat
    requires i <= j <= |acts|
  {
    if i == j then 0 else Produces(acts, i, j - 1) + if acts[j - 1].Produce? || acts[j - 1].AllocFails? then 1 else 0
  }

  /** The dequeue called by step `call` has not returned by state k. */
  ghost predicate DequeueOpen(run: seq<State>, acts: seq<Action>, call: nat, k: nat) {
    call < k < |run| == |acts| + 1 && acts[call].CallDequeue? && forall i :: call < i <= k ==> !run[i].cons.pc.CIdle?
  }

  ghost predicate EnqueueOpen(run: seq<State>, acts: seq<Action>, call: nat, k: nat) {
    call < k < |run| == |acts| + 1 && acts[call].CallEnqueue? && forall i :: call < i <= k ==> !run[i].prod.pc.PIdle?
  }

  /** Whatever the producer does meanwhile, the steps a dequeue has taken and may still take are at most 13. */
  lemma {:induction false} DequeueBounded(run: seq<State>, acts: seq<Action>, requested: nat, maxBlock: nat, call: nat, k: nat)
    requires 2 <= maxBlock && IsRun(run, acts, requested, maxBlock) && DequeueOpen(run, acts, call, k)
    ensures Consumes(acts, call + 1, k) + ConsRank(run[k].cons.pc) <= DEQUEUE_STEPS
  {
    assert IsNext(run[k - 1], acts[k - 1], run[k]);
    if call + 1 < k {
      DequeueBounded(run, acts, requested, maxBlock, call, k - 1);
      ConsumerAdvances(run[k - 1], acts[k - 1]);
    }
  }

  /** So it returns, at the latest with its thirteenth step. */
  lemma DequeueReturnsInTime(run: seq<State>, acts: seq<Action>, requested: nat, maxBlock: nat, call: nat, k: nat)
    requires 2 <= maxBlock && IsRun(run, acts, requested, maxBlock) && call < k <= |acts| && acts[call].CallDequeue?
    requires Consumes(acts, call + 1, k) >= DEQUEUE_STEPS
    ensures exists i :: call < i <= k && run[i].cons.pc.CIdle?
  {
    if DequeueOpen(run, acts, call, k) {
      DequeueBounded(run, acts, requested, maxBlock, call, k);
      RankPositive(run[k].cons.pc, run[k].prod.pc);
    }
  }

  lemma {:induction false} EnqueueBounded(run: seq<State>, acts: seq<Action>, requested: nat, maxBlock: nat, call: nat, k: nat)
    requires 2 <= maxBlock && IsRun(run, acts, requested, maxBlock) && EnqueueOpen(run, acts, call, k)
    ensures Produces(acts, call + 1, k) + ProdRank(run[k].prod.pc) <= ENQUEUE_STEPS
  {
    assert IsNext(run[k - 1], acts[k - 1], run[k]);
    if call + 1 < k {
      EnqueueBounded(run, acts, requested, maxBlock, call, k - 1);
      ProducerAdvances(run[k - 1], acts[k - 1]);
    }
  }

  /** An enqueue returns at the latest with its eleventh step. */
  lemma EnqueueReturnsInTime(run: seq<State>, acts: seq<Action>, requested: nat, maxBlock: nat, call: nat, k: nat)
    requires 2 <= maxBlock && IsRun(run, acts, requested, maxBlock) && call < k <= |acts| && acts[call].CallEnqueue?
    requires Produces(acts, call + 1, k) >= ENQUEUE_STEPS
    ensures exists i :: call < i <= k && run[i].prod.pc.PIdle?
  {
    if EnqueueOpen(run, acts, call, k) {
      EnqueueBounded(run, acts, requested, maxBlock, call, k);
      RankPositive(run[k].cons.pc, run[k].prod.pc);
    }
  }

  // ----- What the calls return -----

  predicate OnlyBehind(q: Queue, r: Queue) { r.deq == q.deq && q.enq <= r.enq }

  lemma NotReturning(s: State, a: Action, t: State)
    requires HistoryGrows(s, a, t) && !(a.Consume? && t.cons.pc.CIdle?)
    ensures OnlyBehind(s.q, t.q)
  {
  }

  /** While a dequeue is on, nothing is dequeued; what is enqueued comes behind. */
  lemma {:induction false} OnlyAdded(run: seq<State>, acts: seq<Action>, requested: nat, maxBlock: nat, call: nat, k: nat)
    requires 2 <= maxBlock && 1 <= requested && IsRun(run, acts, requested, maxBlock) && DequeueOpen(run, acts, call, k)
    ensures OnlyBehind(run[call].q, run[k].q)
  {
    HistoryInRun(run, acts, requested, maxBlock, k - 1);
    NotReturning(run[k - 1], acts[k - 1], run[k]);
    if call + 1 < k {
      OnlyAdded(run, acts, requested, maxBlock, call, k - 1);
    }
  }

  lemma KindNext(s: State, a: Action, t: State)
    requires IsNext(s, a, t)
    ensures t.cons.kind == if a.CallDequeue? then a.kind else s.cons.kind
    ensures a.CallDequeue? ==> s.cons.pc.CIdle?
  {
    if a.Produce? || a.Consume? { StepRequests(s, a); } else { CallRequests(s, a); }
  }

  lemma {:induction false} KindStays(run: seq<State>, acts: seq<Action>, requested: nat, maxBlock: nat, call: nat, k: nat)
    requires 2 <= maxBlock && IsRun(run, acts, requested, maxBlock) && DequeueOpen(run, acts, call, k)
    ensures run[k].cons.kind == acts[call].kind
  {
    assert IsNext(run[k - 1], acts[k - 1], run[k]);
    KindNext(run[k - 1], acts[k - 1], run[k]);
    if call + 1 < k {
      KindStays(run, acts, requested, maxBlock, call, k - 1);
    }
  }

  /**
   What a dequeue or peek returns: if anything was queued when it was called, true and the oldest element; if nothing
   was, and nothing was enqueued meanwhile, false.
   */
  lemma DequeueResult(run: seq<State>, acts: seq<Action>, requested: nat, maxBlock: nat, call: nat, k: nat)
    requires 2 <= maxBlock && 1 <= requested && IsRun(run, acts, requested, maxBlock) && DequeueOpen(run, acts, call, k)
    requires k < |acts| && acts[k].Consume? && run[k + 1].cons.pc.CIdle?
    ensures Queued(run[call].q) > 0 ==>
              && run[k + 1].cons.ok && |run[call].q.deq| < |run[call].q.enq|
              && run[k + 1].cons.value == run[call].q.enq[|run[call].q.deq|]
    ensures Queued(run[call].q) == 0 && run[k].q.enq == run[call].q.enq ==> !run[k + 1].cons.ok
    ensures run[k + 1].q.deq
            == run[call].q.deq + if run[k + 1].cons.ok && acts[call].kind.Dequeue? then [run[k + 1].cons.value] else []
  {
    OnlyAdded(run, acts, requested, maxBlock, call, k);
    KindStays(run, acts, requested, maxBlock, call, k);
    HistoryInRun(run, acts, requested, maxBlock, k);
    ReturnInRun(run, acts, requested, maxBlock, k);
    if !run[k + 1].cons.ok {
      DequeueFailsOnlyIfEmpty(run, acts, requested, maxBlock, call, k);
      var i :| call < i <= k + 1 && Queued(run[i].q) == 0;
      if i <= k {
        OnlyAdded(run, acts, requested, maxBlock, call, i);
      }
    }
  }

  lemma ReturnInRun(run: seq<State>, acts: seq<Action>, requested: nat, maxBlock: nat, k: nat)
    requires 2 <= maxBlock && 1 <= requested && IsRun(run, acts, requested, maxBlock) && k < |acts| && acts[k].Consume?
    ensures ConsumerResult(run[k], run[k + 1])
  {
    RunStep(run, acts, requested, maxBlock, k);
    ConsumerReturns(run[k]);
  }

  lemma {:induction false} EnqueueOn(run: seq<State>, acts: seq<Action>, requested: nat, maxBlock: nat, call: nat, k: nat)
    requires 2 <= maxBlock && IsRun(run, acts, requested, maxBlock) && EnqueueOpen(run, acts, call, k)
    ensures run[k].prod.elem == acts[call].elem && run[k].prod.canAlloc == acts[call].canAlloc
  {
    assert IsNext(run[k - 1], acts[k - 1], run[k]);
    if call + 1 < k {
      EnqueueOn(run, acts, requested, maxBlock, call, k - 1);
      if acts[k - 1].Produce? {
        StepRequests(run[k - 1], acts[k - 1]);
      } else {
        ProducerAdvances(run[k - 1], acts[k - 1]);
      }
    }
  }

  /**
   What an enqueue returns: unless memory is refused to it, one that may allocate returns true; true says that just its
   element was added, false that nothing was.
   */
  lemma EnqueueResult(run: seq<State>, acts: seq<Action>, requested: nat, maxBlock: nat, call: nat, k: nat)
    requires 2 <= maxBlock && 1 <= requested && IsRun(run, acts, requested, maxBlock) && EnqueueOpen(run, acts, call, k)
    requires k < |acts| && (acts[k].Produce? || acts[k].AllocFails?) && run[k + 1].prod.pc.PIdle?
    ensures acts[call].canAlloc && acts[k].Produce? ==> run[k + 1].prod.ok
    ensures acts[k].AllocFails? ==> !run[k + 1].prod.ok
    ensures run[k + 1].q.enq == run[k].q.enq + if run[k + 1].prod.ok then [acts[call].elem] else []
    ensures run[k + 1].q.deq == run[k].q.deq
  {
    EnqueueOn(run, acts, requested, maxBlock, call, k);
    RunStep(run, acts, requested, maxBlock, k);
    if acts[k].Produce? {
      ProducerReturns(run[k]);
    }
  }

  // ----- When the queue grows -----

  predicate AllocJustified(s: State) { s.prod.pc.PAlloc? ==> s.fullSeen && s.prod.canAlloc }

  lemma ReachesAlloc(s: State)
    requires InTailBlock(s.prod.pc)
    ensures var t := ProdStep(s);
            t.prod.pc.PAlloc? ==> s.prod.pc.PLoadFrontBlock? && s.prod.pc.next == s.q.frontBlock && s.prod.canAlloc && t.q == s.q
  {
  }

  lemma LeavesAlloc(s: State)
    requires !InTailBlock(s.prod.pc) && !s.prod.pc.PIdle?
    ensures !ProdStep(s).prod.pc.PAlloc?
  {
  }

  lemma AllocReached(s: State)
    requires Inv(s) && InTailBlock(s.prod.pc)
    ensures AllocJustified(Apply(s, Produce))
  {
    ReachesAlloc(s);
    TailBlockRequests(s);
    TailBlockFlags(s);
    if s.prod.pc.PLoadFrontBlock? && s.prod.pc.next == s.q.frontBlock {
      NoFreeBlock(s.q, s.prod, s.fullSeen);
    }
  }

  lemma AllocStays(s: State, a: Action)
    requires Enabled(s, a) && !a.Produce? && AllocJustified(s)
    ensures AllocJustified(Apply(s, a))
  {
    if a.Consume? {
      StepRequests(s, a);
      ConsumerFlags(s);
    }
  }

  lemma {:induction false} AllocInRun(run: seq<State>, acts: seq<Action>, requested: nat, maxBlock: nat, k: nat)
    requires 2 <= maxBlock && 1 <= requested && IsRun(run, acts, requested, maxBlock) && k < |run|
    ensures AllocJustified(run[k])
  {
    if k > 0 {
      AllocInRun(run, acts, requested, maxBlock, k - 1);
      AllocAt(run, acts, requested, maxBlock, k - 1);
    }
  }

  lemma AllocAt(run: seq<State>, acts: seq<Action>, requested: nat, maxBlock: nat, k: nat)
    requires 2 <= maxBlock && 1 <= requested && IsRun(run, acts, requested, maxBlock) && k < |acts| && AllocJustified(run[k])
    ensures AllocJustified(run[k + 1])
  {
    RunStep(run, acts, requested, maxBlock, k);
    AllocNext(run[k], acts[k]);
  }

  lemma AllocNext(s: State, a: Action)
    requires Inv(s) && Enabled(s, a) && AllocJustified(s)
    ensures AllocJustified(Apply(s, a))
  {
    if !a.Produce? {
      AllocStays(s, a);
    } else if InTailBlock(s.prod.pc) {
      AllocReached(s);
    } else {
      LeavesAlloc(s);
    }
  }

  lemma TailBlockStays(s: State)
    requires InTailBlock(s.prod.pc)
    ensures |ProdStep(s).q.blocks| == |s.q.blocks|
  {
  }

  lemma OnlyAllocGrows(s: State)
    requires !InTailBlock(s.prod.pc) && !s.prod.pc.PAlloc?
    ensures |ProdStep(s).q.blocks| == |s.q.blocks|
  {
  }

  /**
   A block is added only by an enqueue that may allocate, and only if at some moment since it was called the requested
   number of elements was queued.
   */
  lemma GrowsOnlyIfFull(run: seq<State>, acts: seq<Action>, requested: nat, maxBlock: nat, call: nat, k: nat)
    requires 2 <= maxBlock && 1 <= requested && IsRun(run, acts, requested, maxBlock) && EnqueueOpen(run, acts, call, k)
    requires k < |acts| && acts[k].Produce? && |run[k + 1].q.blocks| != |run[k].q.blocks|
    ensures acts[call].canAlloc && exists i :: call < i <= k && Queued(run[i].q) >= requested
  {
    EnqueueOn(run, acts, requested, maxBlock, call, k);
    AllocInRun(run, acts, requested, maxBlock, k);
    GrowthIsAlloc(run, acts, requested, maxBlock, k);
    FullMoment(run, acts, requested, maxBlock, call, k - 1);
  }

  lemma GrowthIsAlloc(run: seq<State>, acts: seq<Action>, requested: nat, maxBlock: nat, k: nat)
    requires 2 <= maxBlock && IsRun(run, acts, requested, maxBlock) && k < |acts| && acts[k].Produce?
    requires |run[k + 1].q.blocks| != |run[k].q.blocks|
    ensures run[k].prod.pc.PAlloc?
  {
    assert IsNext(run[k], acts[k], run[k + 1]);
    if InTailBlock(run[k].prod.pc) {
      TailBlockStays(run[k]);
    } else if !run[k].prod.pc.PAlloc? {
      OnlyAllocGrows(run[k]);
    }
  }
}
