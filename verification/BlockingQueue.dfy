/**
 The blocking queue: the queue of blocks with the lightweight semaphore counting its elements, one producer and one
 consumer thread interleaved.
 */
module BlockingQueue {
  import opened SpscQueue
  import opened SpscRuns
  import P = SpscProgress
  import S = Semaphore

  /** enqueue and try_enqueue: the inner enqueue, then signal in its two accesses. */
  datatype ProdPc = Idle | Enqueueing | Signalling | Posting

  /** The consumer waits for a permit, then takes an element; peek does without a permit. */
  datatype ConsPc = Free | Acquiring | Dequeuing | Peeking

  /** `failed` tells whether the assertion that the inner dequeue succeeds has failed. */
  datatype State = State(inner: SpscQueue.State, sema: S.Sema, prod: ProdPc, cons: ConsPc, failed: bool)

  datatype Action =
    | CallEnqueue(elem: int, canAlloc: bool)
    | Producer
    | NoMemory
    | CallDequeue(kind: S.Kind)
    | CallPeek
    | Consumer
    | WakeUp

  /** Only a thread that sleeps in the kernel can be kept from its next step. */
  predicate Enabled(b: State, a: Action) {
    match a
    case CallEnqueue(_, _) => b.prod.Idle? && b.inner.prod.pc.PIdle?
    case Producer =>
      (b.prod.Enqueueing? && !b.inner.prod.pc.PIdle?) || (b.prod.Signalling? && b.sema.signaller.NoDebt?)
      || (b.prod.Posting? && b.sema.signaller.OwesToken?)
    case NoMemory => b.prod.Enqueueing? && b.inner.prod.pc.PAlloc?
    case CallDequeue(_) => b.cons.Free? && b.sema.waiter.Ready?
    case CallPeek => b.cons.Free? && b.inner.cons.pc.CIdle?
    case Consumer =>
      || (b.cons.Acquiring? && S.Enabled(b.sema, S.WaitStep) && b.inner.cons.pc.CIdle?)
      || ((b.cons.Dequeuing? || b.cons.Peeking?) && !b.inner.cons.pc.CIdle?)
    case WakeUp => b.cons.Acquiring? && b.sema.waiter.Asleep?
  }

  function Enqueues(b: State): State
    requires b.prod.Enqueueing? && !b.inner.prod.pc.PIdle?
  {
    var t := SpscQueue.Apply(b.inner, SpscQueue.Produce);
    b.(inner := t, prod := if !t.prod.pc.PIdle? then Enqueueing else if t.prod.ok then Signalling else Idle)
  }

  function Signals(b: State): State
    requires b.prod.Signalling? && b.sema.signaller.NoDebt?
  {
    var t := S.Apply(b.sema, S.Signal(1));
    b.(sema := t, prod := if t.signaller.OwesToken? then Posting else Idle)
  }

  /** A granted wait goes on to the inner dequeue; wait_dequeue repeats a failed one. */
  function Acquires(b: State): State
    requires b.cons.Acquiring? && S.Enabled(b.sema, S.WaitStep) && b.inner.cons.pc.CIdle?
  {
    var t := S.Apply(b.sema, S.WaitStep);
    if !t.waiter.Ready? then b.(sema := t)
    else if t.ok then
      b.(sema := t, inner := SpscQueue.Apply(b.inner, SpscQueue.CallDequeue(Dequeue)), cons := Dequeuing)
    else if t.kind.Forever? then b.(sema := S.Apply(t, S.CallWait(S.Forever)))
    else b.(sema := t, cons := Free)
  }

  function Dequeues(b: State): State
    requires (b.cons.Dequeuing? || b.cons.Peeking?) && !b.inner.cons.pc.CIdle?
  {
    var t := SpscQueue.Apply(b.inner, SpscQueue.Consume);
    b.(inner := t, cons := if t.cons.pc.CIdle? then Free else b.cons,
       failed := b.failed || (b.cons.Dequeuing? && t.cons.pc.CIdle? && !t.cons.ok))
  }

  function Apply(b: State, a: Action): State
    requires Enabled(b, a)
  {
    match a
    case CallEnqueue(elem, canAlloc) =>
      b.(inner := SpscQueue.Apply(b.inner, SpscQueue.CallEnqueue(elem, canAlloc)), prod := Enqueueing)
    case Producer =>
      if b.prod.Enqueueing? then Enqueues(b)
      else if b.prod.Signalling? then Signals(b)
      else b.(sema := S.Apply(b.sema, S.PostToken), prod := Idle)
    case NoMemory => b.(inner := SpscQueue.Apply(b.inner, SpscQueue.AllocFails), prod := Idle)
    case CallDequeue(kind) => b.(sema := S.Apply(b.sema, S.CallWait(kind)), cons := Acquiring)
    case CallPeek => b.(inner := SpscQueue.Apply(b.inner, SpscQueue.CallDequeue(Peek)), cons := Peeking)
    case Consumer => if b.cons.Acquiring? then Acquires(b) else Dequeues(b)
    case WakeUp => b.(sema := S.Apply(b.sema, S.SleepEnds))
  }

  // ----- The invariant -----

  /** Which call of the inner queue each thread is in, and which of the semaphore. */
  predicate Phases(b: State) {
    && (b.inner.prod.pc.PIdle? <==> !b.prod.Enqueueing?)
    && (b.inner.cons.pc.CIdle? <==> b.cons.Free? || b.cons.Acquiring?)
    && (b.sema.waiter.Ready? <==> !b.cons.Acquiring?)
    && (b.sema.signaller.OwesToken? <==> b.prod.Posting?)
    && (b.cons.Dequeuing? ==> b.inner.cons.kind.Dequeue?)
    && (b.cons.Peeking? ==> b.inner.cons.kind.Peek?)
  }

  /** Every element has a permit, but one that is about to be signalled; every permit granted took an element, or is about to. */
  predicate Covered(b: State) {
    && |b.inner.q.enq| == b.sema.permits + (if b.prod.Signalling? then 1 else 0)
    && |b.inner.q.deq| == b.sema.granted - (if b.cons.Dequeuing? then 1 else 0)
    && (b.cons.Dequeuing? ==> !b.inner.emptySeen)
  }

  ghost predicate Inv(b: State) {
    SpscQueue.Inv(b.inner) && S.Inv(b.sema) && Phases(b) && Covered(b) && !b.failed
  }

  /** Queued elements cover the permits that are left. */
  lemma ElementsCoverPermits(b: State)
    requires S.Inv(b.sema) && Covered(b)
    ensures Queued(b.inner.q) >= b.sema.permits - b.sema.granted + (if b.cons.Dequeuing? then 1 else 0)
    ensures b.sema.permits >= b.sema.granted
  {
  }

  lemma EnqueueingKeeps(b: State)
    requires Inv(b) && Enabled(b, Producer) && b.prod.Enqueueing?
    ensures Inv(Apply(b, Producer))
  {
    KeptByStep(b.inner, SpscQueue.Produce);
    ProducerReturns(b.inner);
    ProducerFrame(b.inner);
    EnqueuesCovered(b);
  }

  /** A producer step leaves the consumer alone, and does not call an uncovered queue empty. */
  lemma ProducerFrame(s: SpscQueue.State)
    requires !s.prod.pc.PIdle?
    ensures var t := SpscQueue.Apply(s, SpscQueue.Produce);
            t.cons == s.cons && (t.emptySeen <==> s.emptySeen || Queued(t.q) == 0)
  {
    StepRequests(s, SpscQueue.Produce);
    if InTailBlock(s.prod.pc) { TailBlockFlags(s); } else { NextBlockFlags(s); }
  }

  lemma EnqueuesCovered(b: State)
    requires S.Inv(b.sema) && Phases(b) && Covered(b) && b.prod.Enqueueing? && !b.failed
    requires var t := SpscQueue.Apply(b.inner, SpscQueue.Produce);
             ProducerResult(b.inner, t) && t.cons == b.inner.cons && (t.emptySeen <==> b.inner.emptySeen || Queued(t.q) == 0)
    ensures var r := Enqueues(b); Phases(r) && Covered(r) && !r.failed && r.sema == b.sema
  {
  }

  lemma SignallingKeeps(b: State)
    requires Inv(b) && Enabled(b, Producer) && !b.prod.Enqueueing?
    ensures Inv(Apply(b, Producer))
  {
    S.StepKeeps(b.sema, if b.prod.Signalling? then S.Signal(1) else S.PostToken);
  }

  lemma AcquiringKeeps(b: State)
    requires Inv(b) && Enabled(b, Consumer) && b.cons.Acquiring?
    ensures Inv(Apply(b, Consumer))
  {
    KeptByStep(b.inner, SpscQueue.CallDequeue(Dequeue));
    AcquiresCovered(b);
  }

  /** A granted wait finds an element in the queue. */
  lemma AcquiresCovered(b: State)
    requires S.Inv(b.sema) && Phases(b) && Covered(b) && !b.failed && b.cons.Acquiring?
    requires S.Enabled(b.sema, S.WaitStep) && b.inner.cons.pc.CIdle?
    ensures var r := Acquires(b);
            && S.Inv(r.sema) && Phases(r) && Covered(r) && !r.failed
            && (r.inner == b.inner || r.inner == SpscQueue.Apply(b.inner, SpscQueue.CallDequeue(Dequeue)))
  {
    S.StepKeeps(b.sema, S.WaitStep);
    WaitFrame(b.sema);
    var t := S.Apply(b.sema, S.WaitStep);
    if t.waiter.Ready? && !t.ok && t.kind.Forever? {
      S.StepKeeps(t, S.CallWait(S.Forever));
    }
  }

  lemma WaitFrame(s: S.Sema)
    requires S.Enabled(s, S.WaitStep)
    ensures var t := S.Apply(s, S.WaitStep);
            && t.permits == s.permits && t.signaller == s.signaller && t.kind == s.kind
            && t.granted == s.granted + if t.waiter.Ready? && t.ok then 1 else 0
  {
  }

  lemma DequeuingKeeps(b: State)
    requires Inv(b) && Enabled(b, Consumer) && !b.cons.Acquiring?
    ensures Inv(Apply(b, Consumer))
  {
    KeptByStep(b.inner, SpscQueue.Consume);
    ConsumerReturns(b.inner);
    ConsumerFrame(b.inner);
    DequeuesCovered(b);
  }

  lemma ConsumerFrame(s: SpscQueue.State)
    requires !s.cons.pc.CIdle?
    ensures var t := SpscQueue.Apply(s, SpscQueue.Consume);
            t.prod == s.prod && t.cons.kind == s.cons.kind && (t.emptySeen <==> s.emptySeen || Queued(t.q) == 0)
  {
    ConsumerFlags(s);
    StepRequests(s, SpscQueue.Consume);
  }

  /** The inner dequeue after a granted wait cannot fail: the queue is never empty while it lasts. */
  lemma DequeuesCovered(b: State)
    requires S.Inv(b.sema) && Phases(b) && Covered(b) && (b.cons.Dequeuing? || b.cons.Peeking?) && !b.failed
    requires var t := SpscQueue.Apply(b.inner, SpscQueue.Consume);
             && ConsumerResult(b.inner, t) && t.prod == b.inner.prod && t.cons.kind == b.inner.cons.kind
             && (t.emptySeen <==> b.inner.emptySeen || Queued(t.q) == 0)
    ensures var r := Dequeues(b); Phases(r) && Covered(r) && !r.failed && r.sema == b.sema
  {
  }

  /** A call, or a failing allocation, of the inner queue. */
  lemma InnerCallKeeps(b: State, a: Action)
    requires Inv(b) && Enabled(b, a) && (a.CallEnqueue? || a.NoMemory? || a.CallPeek?)
    ensures Inv(Apply(b, a))
  {
    var inner := if a.CallEnqueue? then SpscQueue.CallEnqueue(a.elem, a.canAlloc)
                 else if a.NoMemory? then SpscQueue.AllocFails else SpscQueue.CallDequeue(Peek);
    KeptByStep(b.inner, inner);
  }

  /** A call of the semaphore, or a wakeup. */
  lemma WaitCallKeeps(b: State, a: Action)
    requires Inv(b) && Enabled(b, a) && (a.CallDequeue? || a.WakeUp?)
    ensures Inv(Apply(b, a))
  {
    S.StepKeeps(b.sema, if a.CallDequeue? then S.CallWait(a.kind) else S.SleepEnds);
  }

  lemma CallKeeps(b: State, a: Action)
    requires Inv(b) && Enabled(b, a) && !a.Producer? && !a.Consumer?
    ensures Inv(Apply(b, a))
  {
    if a.CallDequeue? || a.WakeUp? {
      WaitCallKeeps(b, a);
    } else {
      InnerCallKeeps(b, a);
    }
  }

  lemma StepKeeps(b: State, a: Action)
    requires Inv(b) && Enabled(b, a)
    ensures Inv(Apply(b, a))
  {
    match a {
      case Producer => if b.prod.Enqueueing? { EnqueueingKeeps(b); } else { SignallingKeeps(b); }
      case Consumer => if b.cons.Acquiring? { AcquiringKeeps(b); } else { DequeuingKeeps(b); }
      case _ => CallKeeps(b, a);
    }
  }

  // ----- Runs -----

  function Begin(requested: nat, maxBlock: nat): State
    requires 2 <= maxBlock
  {
    State.State(Start(requested, maxBlock), S.NewSema(0), Idle, Free, false)
  }

  predicate IsNext(b: State, a: Action, c: State) { Enabled(b, a) && c == Apply(b, a) }

  ghost predicate IsRun(run: seq<State>, acts: seq<Action>, requested: nat, maxBlock: nat)
    requires 2 <= maxBlock
  {
    && |run| == |acts| + 1 && run[0] == Begin(requested, maxBlock)
    && forall i, j {:trigger run[i], run[j]} :: 0 <= i < |acts| && j == i + 1 ==> IsNext(run[i], acts[i], run[j])
  }

  lemma KeptByNext(b: State, a: Action, c: State)
    requires Inv(b) && IsNext(b, a, c)
    ensures Inv(c)
  {
    StepKeeps(b, a);
  }

  lemma BeginKeeps(requested: nat, maxBlock: nat)
    requires 2 <= maxBlock && 1 <= requested
    ensures Inv(Begin(requested, maxBlock))
  {
    StartKeeps(requested, maxBlock);
  }

  lemma {:induction false} RunKeepsInvariant(run: seq<State>, acts: seq<Action>, requested: nat, maxBlock: nat, k: nat)
    requires 2 <= maxBlock && 1 <= requested && IsRun(run, acts, requested, maxBlock) && k < |run|
    ensures Inv(run[k])
  {
    if k == 0 {
      BeginKeeps(requested, maxBlock);
    } else {
      RunKeepsInvariant(run, acts, requested, maxBlock, k - 1);
      assert IsNext(run[k - 1], acts[k - 1], run[k]);
      KeptByNext(run[k - 1], acts[k - 1], run[k]);
    }
  }

  /** Whatever the interleaving of calls, timeouts and signals, no dequeue fails after its wait was granted. */
  lemma GrantedDequeueSucceeds(run: seq<State>, acts: seq<Action>, requested: nat, maxBlock: nat, k: nat)
    requires 2 <= maxBlock && 1 <= requested && IsRun(run, acts, requested, maxBlock) && k < |run|
    ensures !run[k].failed && run[k].inner.q.deq <= run[k].inner.q.enq
    ensures Queued(run[k].inner.q) >= run[k].sema.permits - run[k].sema.granted >= 0
  {
    RunKeepsInvariant(run, acts, requested, maxBlock, k);
    ElementsCoverPermits(run[k]);
    PrefixNow(run[k].inner.q);
  }

  // ----- First in, first out -----

  /** The element of the last enqueue called within the first k steps. */
  function LastElem(acts: seq<Action>, k: nat): int
    requires k <= |acts|
  {
    if k == 0 then 0 else if acts[k - 1].CallEnqueue? then acts[k - 1].elem else LastElem(acts, k - 1)
  }

  /** What a producer step that completes an inner enqueue of the element adds. */
  function AddedBy(b: State, a: Action, c: State, elem: int): seq<int> {
    if a.Producer? && b.prod.Enqueueing? && c.prod.Signalling? then [elem] else []
  }

  /** The value that a returning dequeue hands out. */
  function TakenBy(b: State, a: Action, c: State): seq<int> {
    if a.Consumer? && b.cons.Dequeuing? && c.cons.Free? then [c.inner.cons.value] else []
  }

  function Added(run: seq<State>, acts: seq<Action>, k: nat): seq<int>
    requires k < |run| == |acts| + 1
  {
    if k == 0 then [] else Added(run, acts, k - 1) + AddedBy(run[k - 1], acts[k - 1], run[k], LastElem(acts, k - 1))
  }

  function Taken(run: seq<State>, acts: seq<Action>, k: nat): seq<int>
    requires k < |run| == |acts| + 1
  {
    if k == 0 then [] else Taken(run, acts, k - 1) + TakenBy(run[k - 1], acts[k - 1], run[k])
  }

  /** The elements enqueued and dequeued grow by just what the step adds and hands out. */
  predicate Grows(b: State, a: Action, c: State) {
    c.inner.q.enq == b.inner.q.enq + AddedBy(b, a, c, b.inner.prod.elem) && c.inner.q.deq == b.inner.q.deq + TakenBy(b, a, c)
  }

  lemma EnqueuesGrow(b: State)
    requires Phases(b) && b.prod.Enqueueing? && ProducerResult(b.inner, SpscQueue.Apply(b.inner, SpscQueue.Produce))
    ensures Grows(b, Producer, Enqueues(b))
  {
  }

  lemma DequeuesGrow(b: State)
    requires Phases(b) && (b.cons.Dequeuing? || b.cons.Peeking?) && !b.failed && !Dequeues(b).failed
    requires var t := SpscQueue.Apply(b.inner, SpscQueue.Consume);
             ConsumerResult(b.inner, t) && t.cons.kind == b.inner.cons.kind
    ensures Grows(b, Consumer, Dequeues(b))
  {
  }

  lemma CallsGrow(b: State, a: Action)
    requires Enabled(b, a) && !a.Producer? && !a.Consumer?
    ensures Grows(b, a, Apply(b, a))
  {
  }

  lemma WaitsGrow(b: State, a: Action)
    requires Phases(b) && Enabled(b, a) && ((a.Producer? && !b.prod.Enqueueing?) || (a.Consumer? && b.cons.Acquiring?))
    ensures Grows(b, a, Apply(b, a))
  {
  }

  lemma StepGrows(b: State, a: Action)
    requires Inv(b) && Enabled(b, a)
    ensures Grows(b, a, Apply(b, a))
  {
    if a.Producer? && b.prod.Enqueueing? {
      ProducerReturns(b.inner);
      EnqueuesGrow(b);
    } else if a.Consumer? && !b.cons.Acquiring? {
      ConsumerReturns(b.inner);
      ConsumerFrame(b.inner);
      StepKeeps(b, a);
      DequeuesGrow(b);
    } else if a.Producer? || a.Consumer? {
      WaitsGrow(b, a);
    } else {
      CallsGrow(b, a);
    }
  }

  lemma RunStep(run: seq<State>, acts: seq<Action>, requested: nat, maxBlock: nat, k: nat)
    requires 2 <= maxBlock && 1 <= requested && IsRun(run, acts, requested, maxBlock) && k < |acts|
    ensures Grows(run[k], acts[k], run[k + 1])
  {
    RunKeepsInvariant(run, acts, requested, maxBlock, k);
    assert IsNext(run[k], acts[k], run[k + 1]);
    StepGrows(run[k], acts[k]);
  }

  lemma ElemNext(b: State, a: Action)
    requires Enabled(b, a)
    ensures Apply(b, a).inner.prod.elem == if a.CallEnqueue? then a.elem else b.inner.prod.elem
  {
    if a.Producer? && b.prod.Enqueueing? {
      StepRequests(b.inner, SpscQueue.Produce);
    } else if a.Consumer? && !b.cons.Acquiring? {
      StepRequests(b.inner, SpscQueue.Consume);
    }
  }

  /** What the producer works on is what it was last called with. */
  lemma {:induction false} ElemIsCalled(run: seq<State>, acts: seq<Action>, requested: nat, maxBlock: nat, k: nat)
    requires 2 <= maxBlock && IsRun(run, acts, requested, maxBlock) && k < |run|
    ensures run[k].inner.prod.elem == LastElem(acts, k)
  {
    if k > 0 {
      ElemIsCalled(run, acts, requested, maxBlock, k - 1);
      assert IsNext(run[k - 1], acts[k - 1], run[k]);
      ElemNext(run[k - 1], acts[k - 1]);
    }
  }

  lemma {:induction false} HistoriesAre(run: seq<State>, acts: seq<Action>, requested: nat, maxBlock: nat, k: nat)
    requires 2 <= maxBlock && 1 <= requested && IsRun(run, acts, requested, maxBlock) && k < |run|
    ensures run[k].inner.q.enq == Added(run, acts, k) && run[k].inner.q.deq == Taken(run, acts, k)
  {
    if k == 0 {
      StartHistory(requested, maxBlock);
    } else {
      HistoriesAre(run, acts, requested, maxBlock, k - 1);
      RunStep(run, acts, requested, maxBlock, k - 1);
      ElemIsCalled(run, acts, requested, maxBlock, k - 1);
    }
  }

  /**
   The value the j-th returning dequeue hands out, whichever of its kinds it is, is the j-th element enqueued.
   */
  lemma DequeuesInOrder(run: seq<State>, acts: seq<Action>, requested: nat, maxBlock: nat, k: nat)
    requires 2 <= maxBlock && 1 <= requested && IsRun(run, acts, requested, maxBlock) && k < |run|
    ensures Taken(run, acts, k) <= Added(run, acts, k)
  {
    GrantedDequeueSucceeds(run, acts, requested, maxBlock, k);
    HistoriesAre(run, acts, requested, maxBlock, k);
  }

  // ----- Calls get done -----

  /** The semaphore's wait is for the dequeue that was called, and only a wait with time to sleep sleeps. */
  lemma {:induction false} WaitKinds(run: seq<State>, acts: seq<Action>, requested: nat, maxBlock: nat, k: nat)
    requires 2 <= maxBlock && IsRun(run, acts, requested, maxBlock) && k < |run|
    ensures S.KindOk(run[k].sema)
  {
    if k > 0 {
      WaitKinds(run, acts, requested, maxBlock, k - 1);
      assert IsNext(run[k - 1], acts[k - 1], run[k]);
      KindNext(run[k - 1], acts[k - 1]);
    }
  }

  lemma KindNext(b: State, a: Action)
    requires Enabled(b, a) && S.KindOk(b.sema)
    ensures S.KindOk(Apply(b, a).sema)
  {
  }

  /**
   Neither thread gets stuck within a call, but for a consumer asleep while every element has gone; and neither a
   try_dequeue nor a wait with a timeout of zero sleeps.
   */
  lemma OnlySleepBlocks(run: seq<State>, acts: seq<Action>, requested: nat, maxBlock: nat, k: nat)
    requires 2 <= maxBlock && 1 <= requested && IsRun(run, acts, requested, maxBlock) && k < |run|
    ensures Enabled(run[k], Producer) <==> !run[k].prod.Idle?
    ensures !Enabled(run[k], Consumer) && !run[k].cons.Free? ==>
              && run[k].sema.waiter.Asleep? && (run[k].sema.kind.Forever? || run[k].sema.kind.Timed?)
              && (Queued(run[k].inner.q) == 0 || Enabled(run[k], Producer))
  {
    RunKeepsInvariant(run, acts, requested, maxBlock, k);
    WaitKinds(run, acts, requested, maxBlock, k);
    Blocked(run[k]);
  }

  lemma Blocked(b: State)
    requires S.Inv(b.sema) && Phases(b) && Covered(b)
    ensures Enabled(b, Producer) <==> !b.prod.Idle?
    ensures !Enabled(b, Consumer) && !b.cons.Free? ==>
              b.sema.waiter.Asleep? && (Queued(b.inner.q) == 0 || Enabled(b, Producer))
  {
  }
}
