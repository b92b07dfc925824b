/**
 A queue constructed for zero elements: its one block has a single slot, so it can never hold an element, and once
 the ring has grown the producer enters that block and the consumer's assertion on entering it fails.
 */
module SpscZeroRequest {
  import opened PowersOfTwo
  import opened SpscQueue
  import opened SpscRuns

  ghost predicate Reachable(s: State, requested: nat, maxBlock: nat)
    requires 2 <= maxBlock
  {
    exists run: seq<State>, acts: seq<Action> :: IsRun(run, acts, requested, maxBlock) && s == run[|run| - 1]
  }

  lemma Next(s: State, a: Action, requested: nat, maxBlock: nat) returns (t: State)
    requires 2 <= maxBlock && Reachable(s, requested, maxBlock) && Enabled(s, a)
    ensures t == Apply(s, a) && Reachable(t, requested, maxBlock)
  {
    var run: seq<State>, acts: seq<Action> :| IsRun(run, acts, requested, maxBlock) && s == run[|run| - 1];
    t := Apply(s, a);
    assert IsNext(s, a, t);
    assert IsRun(run + [t], acts + [a], requested, maxBlock);
  }

  lemma Produced(s: State, maxBlock: nat) returns (t: State)
    requires 2 <= maxBlock && Reachable(s, 0, maxBlock) && !s.prod.pc.PIdle?
    ensures t == Observe(ProdStep(s)) && Reachable(t, 0, maxBlock)
  {
    t := Next(s, Produce, 0, maxBlock);
  }

  lemma Consumed(s: State, maxBlock: nat) returns (t: State)
    requires 2 <= maxBlock && Reachable(s, 0, maxBlock) && !s.cons.pc.CIdle?
    ensures t == Observe(ConsStep(s)) && Reachable(t, 0, maxBlock)
  {
    t := Next(s, Consume, 0, maxBlock);
  }

  predicate Indices(b: Block, front: nat, localTail: nat, tail: nat, localFront: nat, next: nat, size: nat) {
    && b.front == front && b.localTail == localTail && b.tail == tail && b.localFront == localFront
    && b.next == next && b.size == |b.data| == size
  }

  /** A moment between calls, with the one-slot block 0 and a second block. */
  predicate Between(s: State, frontBlock: nat, tailBlock: nat) {
    && s.prod.pc.PIdle? && s.cons.pc.CIdle? && s.q.frontBlock == frontBlock && s.q.tailBlock == tailBlock
    && |s.q.blocks| == 2 && Indices(s.q.blocks[0], 0, 0, 0, 0, 1, 1)
  }

  lemma StartState(maxBlock: nat) returns (s: State)
    requires 2 <= maxBlock
    ensures Reachable(s, 0, maxBlock) && s.prod.pc.PIdle? && s.cons.pc.CIdle?
    ensures s.q.frontBlock == s.q.tailBlock == 0 && s.q.largest == 1 && s.q.maxBlock == maxBlock
    ensures |s.q.blocks| == 1 && Indices(s.q.blocks[0], 0, 0, 0, 0, 0, 1)
  {
    assert CeilToPow2(1) == 1;
    RingOfIsRing(1, 1, 0, maxBlock);
    s := Start(0, maxBlock);
    assert IsRun([s], [], 0, maxBlock);
  }

  lemma FirstEnqueueFull(maxBlock: nat) returns (s: State)
    requires 2 <= maxBlock
    ensures Reachable(s, 0, maxBlock) && s.prod.pc == PAlloc(0) && s.cons.pc.CIdle?
    ensures s.q.frontBlock == s.q.tailBlock == 0 && s.q.largest == 1 && s.q.maxBlock == maxBlock
    ensures |s.q.blocks| == 1 && Indices(s.q.blocks[0], 0, 0, 0, 0, 0, 1)
  {
    s := StartState(maxBlock);
    s := Next(s, CallEnqueue(7, true), 0, maxBlock);
    s := Produced(s, maxBlock);
    s := Produced(s, maxBlock);
    s := Produced(s, maxBlock);
    s := Produced(s, maxBlock);
    s := Produced(s, maxBlock);
  }

  lemma FirstEnqueueLinked(maxBlock: nat) returns (s: State)
    requires 2 <= maxBlock
    ensures Reachable(s, 0, maxBlock) && s.prod.pc == PStoreNext(0, 1) && s.cons.pc.CIdle?
    ensures s.q.frontBlock == s.q.tailBlock == 0
    ensures |s.q.blocks| == 2 && Indices(s.q.blocks[0], 0, 0, 0, 0, 0, 1) && Indices(s.q.blocks[1], 0, 1, 1, 0, 0, 2)
  {
    s := FirstEnqueueFull(maxBlock);
    s := Produced(s, maxBlock);
    s := Produced(s, maxBlock);
  }

  /** The first element goes to a new block of two slots. */
  lemma FirstEnqueue(maxBlock: nat) returns (s: State)
    requires 2 <= maxBlock
    ensures Reachable(s, 0, maxBlock) && Between(s, 0, 1) && Indices(s.q.blocks[1], 0, 1, 1, 0, 0, 2)
  {
    s := FirstEnqueueLinked(maxBlock);
    s := Produced(s, maxBlock);
    s := Produced(s, maxBlock);
  }

  lemma FirstDequeueStarted(maxBlock: nat) returns (s: State)
    requires 2 <= maxBlock
    ensures Reachable(s, 0, maxBlock) && s.cons.pc == CLoadTailBlock(0) && s.prod.pc.PIdle? && s.cons.kind.Dequeue?
    ensures |s.q.blocks| == 2 && Indices(s.q.blocks[0], 0, 0, 0, 0, 1, 1) && Indices(s.q.blocks[1], 0, 1, 1, 0, 0, 2)
    ensures s.q.frontBlock == 0 && s.q.tailBlock == 1
  {
    s := FirstEnqueue(maxBlock);
    s := Next(s, CallDequeue(Dequeue), 0, maxBlock);
    s := Consumed(s, maxBlock);
    s := Consumed(s, maxBlock);
    s := Consumed(s, maxBlock);
  }

  lemma FirstDequeueMidway(maxBlock: nat) returns (s: State)
    requires 2 <= maxBlock
    ensures Reachable(s, 0, maxBlock) && s.cons.pc == CReloadFront(0, 0) && s.prod.pc.PIdle? && s.cons.kind.Dequeue?
    ensures |s.q.blocks| == 2 && Indices(s.q.blocks[0], 0, 0, 0, 0, 1, 1) && Indices(s.q.blocks[1], 0, 1, 1, 0, 0, 2)
    ensures s.q.frontBlock == 0 && s.q.tailBlock == 1
  {
    s := FirstDequeueStarted(maxBlock);
    s := Consumed(s, maxBlock);
    s := Consumed(s, maxBlock);
    s := Consumed(s, maxBlock);
  }

  lemma FirstDequeueEntering(maxBlock: nat) returns (s: State)
    requires 2 <= maxBlock
    ensures Reachable(s, 0, maxBlock) && s.cons.pc == CStoreFrontBlock(1, 0) && s.prod.pc.PIdle? && s.cons.kind.Dequeue?
    ensures |s.q.blocks| == 2 && Indices(s.q.blocks[0], 0, 0, 0, 0, 1, 1) && Indices(s.q.blocks[1], 0, 1, 1, 0, 0, 2)
    ensures s.q.frontBlock == 0 && s.q.tailBlock == 1
  {
    s := FirstDequeueMidway(maxBlock);
    s := Consumed(s, maxBlock);
    s := Consumed(s, maxBlock);
    s := Consumed(s, maxBlock);
    s := Consumed(s, maxBlock);
  }

  lemma FirstDequeueEntered(maxBlock: nat) returns (s: State)
    requires 2 <= maxBlock
    ensures Reachable(s, 0, maxBlock) && s.cons.pc == CReadNext(1, 0) && s.prod.pc.PIdle? && s.cons.kind.Dequeue?
    ensures |s.q.blocks| == 2 && Indices(s.q.blocks[0], 0, 0, 0, 0, 1, 1) && Indices(s.q.blocks[1], 0, 1, 1, 0, 0, 2)
    ensures s.q.frontBlock == 1 && s.q.tailBlock == 1
  {
    s := FirstDequeueEntering(maxBlock);
    s := Consumed(s, maxBlock);
  }

  /** The consumer leaves the one-slot block. */
  lemma FirstDequeue(maxBlock: nat) returns (s: State)
    requires 2 <= maxBlock
    ensures Reachable(s, 0, maxBlock) && Between(s, 1, 1) && Indices(s.q.blocks[1], 1, 1, 1, 0, 0, 2)
  {
    s := FirstDequeueEntered(maxBlock);
    s := Consumed(s, maxBlock);
    s := Consumed(s, maxBlock);
  }

  lemma SecondEnqueue(maxBlock: nat) returns (s: State)
    requires 2 <= maxBlock
    ensures Reachable(s, 0, maxBlock) && Between(s, 1, 1) && Indices(s.q.blocks[1], 1, 1, 0, 1, 0, 2)
  {
    s := FirstDequeue(maxBlock);
    s := Next(s, CallEnqueue(8, true), 0, maxBlock);
    s := Produced(s, maxBlock);
    s := Produced(s, maxBlock);
    s := Produced(s, maxBlock);
    s := Produced(s, maxBlock);
    s := Produced(s, maxBlock);
  }

  lemma ThirdEnqueueMidway(maxBlock: nat) returns (s: State)
    requires 2 <= maxBlock
    ensures Reachable(s, 0, maxBlock) && s.prod.pc == PLoadNextFront(0) && s.cons.pc.CIdle?
    ensures |s.q.blocks| == 2 && Indices(s.q.blocks[0], 0, 0, 0, 0, 1, 1) && Indices(s.q.blocks[1], 1, 1, 0, 1, 0, 2)
    ensures s.q.frontBlock == 1 && s.q.tailBlock == 1
  {
    s := SecondEnqueue(maxBlock);
    s := Next(s, CallEnqueue(9, true), 0, maxBlock);
    s := Produced(s, maxBlock);
    s := Produced(s, maxBlock);
    s := Produced(s, maxBlock);
    s := Produced(s, maxBlock);
    s := Produced(s, maxBlock);
    s := Produced(s, maxBlock);
  }

  lemma ThirdEnqueueBuilt(maxBlock: nat) returns (s: State)
    requires 2 <= maxBlock
    ensures Reachable(s, 0, maxBlock) && s.prod.pc == PStoreNextTail(0, 0) && s.cons.pc.CIdle?
    ensures |s.q.blocks| == 2 && Indices(s.q.blocks[0], 0, 0, 0, 0, 1, 1) && Indices(s.q.blocks[1], 1, 1, 0, 1, 0, 2)
    ensures s.q.frontBlock == 1 && s.q.tailBlock == 1
  {
    s := ThirdEnqueueMidway(maxBlock);
    s := Produced(s, maxBlock);
    s := Produced(s, maxBlock);
    s := Produced(s, maxBlock);
  }

  /** The producer puts an element in the one-slot block, whose tail stays where it was. */
  lemma ThirdEnqueue(maxBlock: nat) returns (s: State)
    requires 2 <= maxBlock
    ensures Reachable(s, 0, maxBlock) && Between(s, 1, 0) && Indices(s.q.blocks[1], 1, 1, 0, 1, 0, 2)
  {
    s := ThirdEnqueueBuilt(maxBlock);
    s := Produced(s, maxBlock);
    s := Produced(s, maxBlock);
  }

  lemma SecondDequeue(maxBlock: nat) returns (s: State)
    requires 2 <= maxBlock
    ensures Reachable(s, 0, maxBlock) && Between(s, 1, 0) && Indices(s.q.blocks[1], 0, 0, 0, 1, 0, 2)
  {
    s := ThirdEnqueue(maxBlock);
    s := Next(s, CallDequeue(Dequeue), 0, maxBlock);
    s := Consumed(s, maxBlock);
    s := Consumed(s, maxBlock);
    s := Consumed(s, maxBlock);
    s := Consumed(s, maxBlock);
    s := Consumed(s, maxBlock);
  }

  lemma ThirdDequeueMidway(maxBlock: nat) returns (s: State)
    requires 2 <= maxBlock
    ensures Reachable(s, 0, maxBlock) && s.cons.pc == CReloadFront(1, 0)
    ensures |s.q.blocks| == 2 && Indices(s.q.blocks[0], 0, 0, 0, 0, 1, 1) && Indices(s.q.blocks[1], 0, 0, 0, 1, 0, 2)
    ensures s.q.frontBlock == 1 && s.q.tailBlock == 0
  {
    s := SecondDequeue(maxBlock);
    s := Next(s, CallDequeue(Dequeue), 0, maxBlock);
    s := Consumed(s, maxBlock);
    s := Consumed(s, maxBlock);
    s := Consumed(s, maxBlock);
    s := Consumed(s, maxBlock);
    s := Consumed(s, maxBlock);
    s := Consumed(s, maxBlock);
  }

  /** The consumer is about to enter the block and finds nothing in it. */
  lemma ThirdDequeue(maxBlock: nat) returns (s: State)
    requires 2 <= maxBlock
    ensures Reachable(s, 0, maxBlock) && !AssertionsHold(s)
  {
    s := ThirdDequeueMidway(maxBlock);
    s := Consumed(s, maxBlock);
    s := Consumed(s, maxBlock);
    s := Consumed(s, maxBlock);
  }

  /** The assertions of the source hold in every run if, and only if, at least one element is asked for. */
  lemma AssertionsNeedARequest(requested: nat, maxBlock: nat)
    requires 2 <= maxBlock
    ensures requested >= 1 <==> forall s: State :: Reachable(s, requested, maxBlock) ==> AssertionsHold(s)
  {
    if requested >= 1 {
      forall s: State | Reachable(s, requested, maxBlock) ensures AssertionsHold(s) {
        var run: seq<State>, acts: seq<Action> :| IsRun(run, acts, requested, maxBlock) && s == run[|run| - 1];
        AssertionsNeverFail(run, acts, requested, maxBlock, |run| - 1);
      }
    } else {
      var s := ThirdDequeue(maxBlock);
    }
  }
}
