/**
 The queue as the object it is, used by one thread at a time: what each method does between the steps of other calls.

 `q` is the queue of module SpscQueue with its history; the fields hold what the object stores. Any state between
 the calls of a concurrent run is a valid state of this object.
 */
module ReaderWriterQueue {
  import opened PowersOfTwo
  import opened SpscQueue
  import opened SpscRuns

  /** How many elements the blocks from place i on can hold. */
  function Slots(row: seq<Block>, i: nat): int
    decreases |row| - i
  {
    if i >= |row| then 0 else row[i].size - 1 + Slots(row, i + 1)
  }

  /** How many more elements fit without a new block: in the tail block and the empty blocks after it. */
  function Free(row: seq<Block>, ti: nat): int
    requires ti < |row|
  {
    row[ti].size - 1 - row[ti].Count() + Slots(row, ti + 1)
  }

  lemma {:induction false} SameSlots(row: seq<Block>, row': seq<Block>, i: nat)
    requires |row| == |row'| && forall j :: i <= j < |row| ==> row'[j].size == row[j].size
    ensures Slots(row', i) == Slots(row, i)
    decreases |row| - i
  {
    if i < |row| {
      SameSlots(row, row', i + 1);
    }
  }

  /** How many elements the first n blocks hold. */
  function Elements(row: seq<Block>, n: nat): int
    requires n <= |row|
  {
    if n == 0 then 0 else Elements(row, n - 1) + row[n - 1].Count()
  }

  lemma {:induction false} ElementsToTail(c: Chain, n: nat)
    requires RowShaped(c) && StreamOk(c) && n <= c.ti
    ensures Elements(c.row, n) == c.base[n] - |c.deq|
  {
    if n > 0 {
      ElementsToTail(c, n - 1);
      assert c.base[n] == c.base[n - 1] + c.row[n - 1].Count();
    }
  }

  /** All blocks together hold what is queued. */
  lemma {:induction false} ElementsAll(c: Chain, n: nat)
    requires ChainOk(c) && !c.pending && c.ti < n <= |c.row|
    ensures Elements(c.row, n) == |c.enq| - |c.deq|
  {
    if n == c.ti + 1 {
      ElementsToTail(c, c.ti);
    } else {
      ElementsAll(c, n - 1);
    }
  }

  /** In an empty queue the tail block is the front block, and all slots are free. */
  lemma EmptyIsFree(c: Chain)
    requires ChainOk(c) && |c.enq| == |c.deq|
    ensures c.ti == 0 && Free(c.row, c.ti) == Slots(c.row, 0)
  {
    if c.ti > 0 {
      ElementsToTail(c, c.ti);
      BaseGrows(c, 0, c.ti);
    }
  }

  lemma TakeFrontEffect(q: Queue, x: int)
    requires QueueOk(q) && Row(q)[0].Seen() >= 1 && Row(q)[0].data[Row(q)[0].front] == x
    ensures var r := StoreFront(q, q.frontBlock, q.blocks[q.frontBlock].front, x);
            && QueueOk(r) && q.enq[|q.deq|..] == [x] + r.enq[|r.deq|..]
            && Slots(Row(r), 0) == Slots(Row(q), 0) && Free(Row(r), r.ti) >= Free(Row(q), q.ti)
  {
    StoreFrontStep(q, x);
    TakenFirst(q.enq, q.deq, x);
    PopSlots(ChainOf(q), x);
  }

  lemma TakenFirst(enq: seq<int>, deq: seq<int>, x: int)
    requires |deq| < |enq| && x == enq[|deq|]
    ensures enq[|deq|..] == [x] + enq[|deq + [x]|..]
  {
  }

  lemma PopSlots(c: Chain, x: int)
    requires ChainOk(c) && c.row[0].Seen() >= 1
    ensures var d := Pop(c, x); Slots(d.row, 0) == Slots(c.row, 0) && Free(d.row, d.ti) >= Free(c.row, c.ti)
  {
    var d := Pop(c, x);
    SameSlots(c.row, d.row, 0);
    SameSlots(c.row, d.row, c.ti + 1);
  }

  /** What a completed enqueue of x does to the history and to the room that is left. */
  ghost predicate Enqueued(q: Queue, r: Queue, x: int)
    requires RingShape(q) && RingShape(r)
  {
    && |q.deq| <= |q.enq| && |r.deq| <= |r.enq| && !r.pending
    && r.enq[|r.deq|..] == q.enq[|q.deq|..] + [x]
  }

  lemma AppendedOne(q: Queue, r: Queue, x: int)
    requires RingShape(q) && RingShape(r) && |q.deq| <= |q.enq| && !r.pending && r.enq == q.enq + [x] && r.deq == q.deq
    ensures Enqueued(q, r, x)
  {
  }

  lemma NoMoreTaken(q: Queue)
    requires RingShape(q) && ChainOk(ChainOf(q))
    ensures |q.deq| <= |q.enq|
  {
  }

  /** An element stored in the tail block. */
  function InTail(q: Queue, x: int): Queue {
    var b := BlockAt(q, q.tailBlock);
    StoreTail(Put(q, q.tailBlock, WithSlot(b, b.tail, x)), q.tailBlock, b.tail, x)
  }

  lemma InTailEffect(q: Queue, x: int)
    requires QueueOk(q) && !q.pending && var b := Row(q)[q.ti]; b.Used() < b.size - 1
    ensures var r := InTail(q, x);
            && QueueOk(r) && Enqueued(q, r, x)
            && Slots(Row(r), 0) == Slots(Row(q), 0) && Free(Row(r), r.ti) == Free(Row(q), q.ti) - 1
  {
    InTailChain(q, x);
    NoMoreTaken(q);
    AppendedOne(q, InTail(q, x), x);
    PushSlots(ChainOf(q), x);
  }

  /** What both stores leave in memory. */
  lemma InTailMemory(q: Queue, x: int)
    requires QueueOk(q)
    ensures var r := InTail(q, x);
            && q.tailBlock < |q.blocks| && q.blocks[q.tailBlock].Shaped()
            && r == q.(blocks := r.blocks, enq := q.enq + [x])
            && var b := q.blocks[q.tailBlock];
            r.blocks == q.blocks[q.tailBlock := b.(data := b.data[b.tail := x], tail := Inc(b.tail, b.size))]
  {
    RowAt(q, q.ti);
  }

  lemma InTailChain(q: Queue, x: int)
    requires QueueOk(q) && !q.pending && var b := Row(q)[q.ti]; b.Used() < b.size - 1
    ensures var r, c := InTail(q, x), ChainOf(q);
            QueueOk(r) && ChainOf(r) == Push(Set(c, c.ti, WithSlot(c.row[c.ti], c.row[c.ti].tail, x)), x)
  {
    var b := q.blocks[q.tailBlock];
    RowAt(q, q.ti);
    ConstructStep(q, q.ti, x);
    var m := Put(q, q.tailBlock, WithSlot(b, b.tail, x));
    assert Row(m)[m.ti] == WithSlot(Row(q)[q.ti], b.tail, x) && m.blocks[m.tailBlock].tail == b.tail;
    StoreTailStep(m, x);
  }

  lemma PushSlots(c: Chain, x: int)
    requires ChainOk(c) && !c.row[c.ti].Full()
    ensures var d := Push(Set(c, c.ti, WithSlot(c.row[c.ti], c.row[c.ti].tail, x)), x);
            Slots(d.row, 0) == Slots(c.row, 0) && Free(d.row, d.ti) == Free(c.row, c.ti) - 1
  {
    var d := Push(Set(c, c.ti, WithSlot(c.row[c.ti], c.row[c.ti].tail, x)), x);
    SameSlots(c.row, d.row, 0);
    SameSlots(c.row, d.row, c.ti + 1);
  }

  /** An element built in the empty block after the tail block. */
  function NextBuilt(q: Queue, nb: nat, x: int): Queue {
    var b := BlockAt(q, nb);
    Put(Put(q, nb, RefreshFront(b)), nb, WithSlot(RefreshFront(b), b.tail, x))
  }

  /** The next block with its shadow refreshed, ready for an element. */
  lemma NextRefreshed(q: Queue)
    requires QueueOk(q) && !q.pending && q.ti + 1 < |q.ring|
    ensures var nb, p := Id(q, q.ti + 1), q.ti + 1;
            var m := Put(q, nb, RefreshFront(q.blocks[nb]));
            && QueueOk(m) && ChainOf(m) == Set(ChainOf(q), p, RefreshFront(Row(q)[p])) && m.ring == q.ring && m.ti == q.ti
            && m.blocks[nb] == RefreshFront(q.blocks[nb]) && !Row(m)[p].Full()
  {
    RefreshFrontStep(q, q.ti + 1);
    EmptyNotFull(ChainOf(q));
  }

  lemma EmptyNotFull(c: Chain)
    requires RowShaped(c) && SpanOk(c) && !c.pending && c.ti + 1 < |c.row|
    ensures !RefreshFront(c.row[c.ti + 1]).Full()
  {
    assert c.row[c.ti + 1].Count() == 0;
  }

  lemma SetTwice(c: Chain, p: nat, a: Block, b: Block)
    ensures Set(Set(c, p, a), p, b) == Set(c, p, b)
  {
  }

  lemma NextBuiltEffect(q: Queue, x: int)
    requires QueueOk(q) && !q.pending && q.ti + 1 < |q.ring|
    ensures var nb, p, c := Id(q, q.ti + 1), q.ti + 1, ChainOf(q);
            var r, b := NextBuilt(q, nb, x), c.row[p];
            QueueOk(r) && ChainOf(r) == Set(c, p, WithSlot(RefreshFront(b), b.tail, x))
  {
    var nb, p := Id(q, q.ti + 1), q.ti + 1;
    var b := Row(q)[p];
    RowAt(q, p);
    NextRefreshed(q);
    ConstructStep(Put(q, nb, RefreshFront(q.blocks[nb])), p, x);
    SetTwice(ChainOf(q), p, RefreshFront(b), WithSlot(RefreshFront(b), b.tail, x));
  }

  /** That element made visible: first its block's tail, then the tail block. */
  function InNext(q: Queue, nb: nat, x: int): Queue {
    StoreTailBlock(StoreNextTail(NextBuilt(q, nb, x), nb, BlockAt(q, nb).tail), nb, x)
  }

  lemma PublishEffect(q: Queue, x: int)
    requires QueueOk(q) && !q.pending && Row(q)[q.ti].Full() && q.ti + 1 < |q.ring|
    requires var b := Row(q)[q.ti + 1]; b.localFront == b.front && b.data[b.tail] == x
    ensures var nb, c := Id(q, q.ti + 1), ChainOf(q);
            var r := StoreTailBlock(StoreNextTail(q, nb, q.blocks[nb].tail), nb, x);
            QueueOk(r) && ChainOf(r) == Publish(Fill(c), x)
  {
    StoreNextTailStep(q);
    var m := StoreNextTail(q, Id(q, q.ti + 1), q.blocks[Id(q, q.ti + 1)].tail);
    assert Row(m)[m.ti + 1] == Fill(ChainOf(q)).row[q.ti + 1];
    assert Id(m, m.ti + 1) == Id(q, q.ti + 1);
    StoreTailBlockStep(m, x);
  }

  /** The chain with x stored in the block after the tail block. */
  function NextChain(c: Chain, x: int): Chain
    requires c.ti + 1 < |c.row|
  {
    var b := c.row[c.ti + 1];
    Publish(Fill(Set(c, c.ti + 1, WithSlot(RefreshFront(b), b.tail, x))), x)
  }

  lemma InNextChain(q: Queue, x: int)
    requires QueueOk(q) && !q.pending && Row(q)[q.ti].Full() && q.ti + 1 < |q.ring|
    ensures var r := InNext(q, Id(q, q.ti + 1), x); QueueOk(r) && ChainOf(r) == NextChain(ChainOf(q), x)
  {
    NextBuiltReady(q, x);
    PublishEffect(NextBuilt(q, Id(q, q.ti + 1), x), x);
  }

  /** With the element built in the next block, everything is there to publish it. */
  lemma NextBuiltReady(q: Queue, x: int)
    requires QueueOk(q) && !q.pending && Row(q)[q.ti].Full() && q.ti + 1 < |q.ring|
    ensures var nb, p, c := Id(q, q.ti + 1), q.ti + 1, ChainOf(q);
            var m, b := NextBuilt(q, nb, x), c.row[p];
            && QueueOk(m) && ChainOf(m) == Set(c, p, WithSlot(RefreshFront(b), b.tail, x))
            && m.ti == q.ti && |m.ring| == |q.ring| && Id(m, p) == nb && m.blocks[nb].tail == q.blocks[nb].tail
            && Row(m)[m.ti].Full() && Row(m)[p].localFront == Row(m)[p].front && Row(m)[p].data[Row(m)[p].tail] == x
  {
    RowAt(q, q.ti + 1);
    NextBuiltEffect(q, x);
  }

  lemma NextSlots(c: Chain, x: int)
    requires ChainOk(c) && c.row[c.ti].Full() && c.ti + 1 < |c.row| && !c.pending
    ensures var d := NextChain(c, x); Slots(d.row, 0) == Slots(c.row, 0) && Free(d.row, d.ti) == Free(c.row, c.ti) - 1
  {
    var d := NextChain(c, x);
    SameSlots(c.row, d.row, 0);
    SameSlots(c.row, d.row, c.ti + 2);
  }

  lemma InNextEffect(q: Queue, x: int)
    requires QueueOk(q) && !q.pending && Row(q)[q.ti].Full() && q.ti + 1 < |q.ring|
    ensures var r := InNext(q, Id(q, q.ti + 1), x);
            && QueueOk(r) && Enqueued(q, r, x)
            && Slots(Row(r), 0) == Slots(Row(q), 0) && Free(Row(r), r.ti) == Free(Row(q), q.ti) - 1
  {
    InNextChain(q, x);
    NoMoreTaken(q);
    AppendedOne(q, InNext(q, Id(q, q.ti + 1), x), x);
    NextSlots(ChainOf(q), x);
  }

  function NewBlock(q: Queue, x: int): Block {
    Block(0, 1, 1, 0, BlockAt(q, q.tailBlock).next, NewBlockSize(q), seq(NewBlockSize(q), _ => x))
  }

  /** A new block with the element, pointing to where the tail block points, but not yet linked in. */
  function BlockMade(q: Queue, x: int): Queue { LinkNew(MakeBlock(q, x), q.tailBlock, |q.blocks|) }

  lemma BlockMadeEffect(q: Queue, x: int)
    requires QueueOk(q)
    ensures var r := BlockMade(q, x);
            && QueueOk(r) && ChainOf(r) == ChainOf(q) && r.ring == q.ring && |q.blocks| !in r.ring && r.unit == q.unit
            && |r.blocks| == |q.blocks| + 1 && r.blocks[|q.blocks|] == NewBlock(q, x) && r.tailBlock == q.tailBlock
  {
    NewId(q);
    OutsideBlock(q, BlockMade(q, x));
  }

  /** The new block linked in and made the tail block. */
  function InNew(q: Queue, x: int): Queue {
    StoreTailBlock(StoreNext(BlockMade(q, x), q.tailBlock, |q.blocks|), |q.blocks|, x)
  }

  function NewChain(c: Chain, b: Block, x: int): Chain
    requires c.ti < |c.row|
  {
    Publish(Splice(c, b), x)
  }

  lemma LinkedEffect(q: Queue, nb: nat, x: int)
    requires QueueOk(q) && !q.pending && Row(q)[q.ti].Full() && nb < |q.blocks| && nb !in q.ring
    requires var b := q.blocks[nb]; b.Shaped() && b.Count() == 1 && q.unit < b.size && b.next == Id(q, Following(q, q.ti))
    requires var b := q.blocks[nb]; b.localFront == b.front && b.data[b.front] == x
    ensures var r := StoreTailBlock(StoreNext(q, q.tailBlock, nb), nb, x);
            QueueOk(r) && ChainOf(r) == NewChain(ChainOf(q), Bare(q.blocks[nb]), x)
  {
    var m, d := StoreNext(q, q.tailBlock, nb), Splice(ChainOf(q), Bare(q.blocks[nb]));
    StoreNextStep(q, nb);
    assert d.row[q.ti + 1] == Bare(q.blocks[nb]) && d.row[q.ti] == Row(q)[q.ti];
    assert Id(m, m.ti + 1) == nb;
    StoreTailBlockStep(m, x);
  }

  lemma NewSlots(c: Chain, b: Block, x: int)
    requires RowShaped(c) && c.ti == |c.row| - 1 && b.Shaped() && b.Count() == 1
    ensures var d := NewChain(c, b, x); Slots(d.row, 0) == Slots(c.row, 0) + b.size - 1 && Free(d.row, d.ti) == b.size - 2
  {
    var d := NewChain(c, b, x);
    assert d.row == c.row + [b];
    SlotsAppend(c.row, b, 0);
  }

  /** What making, filling and linking the block leave in memory. */
  lemma InNewMemory(q: Queue, x: int)
    requires q.tailBlock < |q.blocks|
    ensures var r, b := InNew(q, x), q.blocks[q.tailBlock];
            && r.blocks == (q.blocks + [NewBlock(q, x)])[q.tailBlock := b.(next := |q.blocks|)]
            && r.frontBlock == q.frontBlock && r.tailBlock == |q.blocks| && r.maxBlock == q.maxBlock && !r.pending
            && r.largest == NewBlockSize(q)
  {
  }

  lemma InNewEffect(q: Queue, x: int)
    requires QueueOk(q) && !q.pending && Row(q)[q.ti].Full() && q.ti + 1 == |q.ring|
    ensures var r, size := InNew(q, x), NewBlockSize(q);
            && QueueOk(r) && Enqueued(q, r, x)
            && Slots(Row(r), 0) == Slots(Row(q), 0) + size - 1 && Free(Row(r), r.ti) == size - 2
  {
    InNewChain(q, x);
    NoMoreTaken(q);
    AppendedOne(q, InNew(q, x), x);
    NewSlots(ChainOf(q), Bare(NewBlock(q, x)), x);
  }

  lemma InNewChain(q: Queue, x: int)
    requires QueueOk(q) && !q.pending && Row(q)[q.ti].Full()
    ensures QueueOk(InNew(q, x)) && ChainOf(InNew(q, x)) == NewChain(ChainOf(q), Bare(NewBlock(q, x)), x)
    ensures 2 <= NewBlockSize(q)
  {
    BlockMadeEffect(q, x);
    assert NextOf(q, q.ti) == Id(q, Following(q, q.ti));
    LinkedEffect(BlockMade(q, x), |q.blocks|, x);
  }

  /** There is room exactly if the tail block is not full or its next block is not the front block. */
  lemma RoomLeft(q: Queue)
    requires QueueOk(q) && !q.pending
    ensures Free(Row(q), q.ti) > 0 <==> !Row(q)[q.ti].Full() || q.blocks[q.tailBlock].next != q.frontBlock
    ensures Free(Row(q), q.ti) >= 0
    ensures q.blocks[q.tailBlock].next == q.frontBlock <==> q.ti + 1 == |q.ring|
    ensures q.ti + 1 < |q.ring| ==> q.blocks[q.tailBlock].next == Id(q, q.ti + 1)
  {
    assert NextOf(q, q.ti) == Id(q, Following(q, q.ti));
    SlotsNonNegative(Row(q), q.ti + 1);
    SlotsNonNegative(Row(q), q.ti + 2);
  }

  lemma {:induction false} SlotsNonNegative(row: seq<Block>, i: nat)
    requires forall j :: 0 <= j < |row| ==> row[j].Shaped()
    ensures Slots(row, i) >= 0
    decreases |row| - i
  {
    if i < |row| {
      SlotsNonNegative(row, i + 1);
    }
  }

  /** What all these stores leave in memory. */
  lemma InNextMemory(q: Queue, nb: nat, x: int)
    requires nb < |q.blocks| && q.blocks[nb].Shaped()
    ensures var b := q.blocks[nb];
            InNext(q, nb, x).blocks ==
            q.blocks[nb := b.(localFront := b.front, data := b.data[b.tail := x], tail := Inc(b.tail, b.size))]
    ensures InNext(q, nb, x) == q.(blocks := InNext(q, nb, x).blocks, tailBlock := nb, ti := q.ti + 1,
                                   base := q.base + [|q.enq|], enq := q.enq + [x], pending := false)
  {
  }

  lemma NextIsEmpty(q: Queue)
    requires QueueOk(q) && !q.pending && q.ti + 1 < |q.ring|
    ensures var nb := Id(q, q.ti + 1); nb < |q.blocks| && q.blocks[nb].Shaped() && q.blocks[nb].front == q.blocks[nb].tail
  {
    RowAt(q, q.ti + 1);
  }

  /** Everything about an element stored in the next block: before, in memory, and what it means. */
  lemma InNextAll(q: Queue, x: int)
    requires QueueOk(q) && !q.pending && Row(q)[q.ti].Full() && q.ti + 1 < |q.ring|
    ensures var nb, r := Id(q, q.ti + 1), InNext(q, Id(q, q.ti + 1), x);
            && nb < |q.blocks| && q.blocks[nb].Shaped() && q.blocks[nb].front == q.blocks[nb].tail
            && QueueOk(r) && Enqueued(q, r, x)
            && Slots(Row(r), 0) == Slots(Row(q), 0) && Free(Row(r), r.ti) == Free(Row(q), q.ti) - 1
            && r.frontBlock == q.frontBlock && r.tailBlock == nb && r.largest == q.largest && r.maxBlock == q.maxBlock
            && var b := q.blocks[nb];
            r.blocks == q.blocks[nb := b.(localFront := b.front, data := b.data[b.tail := x], tail := Inc(b.tail, b.size))]
  {
    NextIsEmpty(q);
    InNextEffect(q, x);
    InNextMemory(q, Id(q, q.ti + 1), x);
  }

  lemma SameRoom(c: Chain, p: nat, b: Block)
    requires RowShaped(c) && p < |c.row| && b.size == c.row[p].size && b.front == c.row[p].front && b.tail == c.row[p].tail
    ensures var d := Set(c, p, b); Slots(d.row, 0) == Slots(c.row, 0) && Free(d.row, d.ti) == Free(c.row, c.ti)
  {
    SameSlots(c.row, Set(c, p, b).row, 0);
    SameSlots(c.row, Set(c, p, b).row, c.ti + 1);
  }

  lemma RefreshFrontEffect(q: Queue)
    requires QueueOk(q)
    ensures var r := Put(q, q.tailBlock, RefreshFront(q.blocks[q.tailBlock]));
            && QueueOk(r) && ChainOf(r) == Set(ChainOf(q), q.ti, RefreshFront(Row(q)[q.ti]))
            && Slots(Row(r), 0) == Slots(Row(q), 0) && Free(Row(r), r.ti) == Free(Row(q), q.ti)
            && q.tailBlock < |q.blocks| && r == q.(blocks := q.blocks[q.tailBlock := RefreshFront(q.blocks[q.tailBlock])])
  {
    RefreshFrontStep(q, q.ti);
    SameRoom(ChainOf(q), q.ti, RefreshFront(Row(q)[q.ti]));
  }

  lemma RefreshTailEffect(q: Queue, p: nat)
    requires QueueOk(q) && p < |q.ring|
    ensures var r := Put(q, Id(q, p), RefreshTail(q.blocks[Id(q, p)]));
            && QueueOk(r) && ChainOf(r) == Set(ChainOf(q), p, RefreshTail(Row(q)[p]))
            && Slots(Row(r), 0) == Slots(Row(q), 0) && Free(Row(r), r.ti) == Free(Row(q), q.ti)
  {
    RefreshTailStep(q, p);
    SameRoom(ChainOf(q), p, RefreshTail(Row(q)[p]));
  }

  /** A front block that is not empty shows the first element. */
  lemma FrontShows(q: Queue)
    requires QueueOk(q) && Row(q)[0].Count() >= 1
    ensures var b := q.blocks[q.frontBlock];
            b.front < |b.data| && |q.deq| < |q.enq| && q.enq[|q.deq|..] != [] && b.data[b.front] == q.enq[|q.deq|..][0]
  {
    RowAt(q, 0);
    FirstElement(ChainOf(q));
  }

  /** Behind an empty front block that is not the tail block, the next block shows it. */
  lemma NextShows(q: Queue)
    requires QueueOk(q) && q.ti > 0 && Row(q)[0].Count() == 0
    ensures var nb := q.blocks[q.frontBlock].next;
            && nb == Id(q, 1) && nb < |q.blocks|
            && var b := q.blocks[nb];
            b.front < |b.data| && |q.deq| < |q.enq| && q.enq[|q.deq|..] != [] && b.data[b.front] == q.enq[|q.deq|..][0]
  {
    assert NextOf(q, 0) == Id(q, 1);
    RowAt(q, 1);
    NextElement(ChainOf(q));
  }

  /** The next block, with its shadow refreshed, has an element. */
  lemma NextNotEmpty(q: Queue)
    requires QueueOk(q) && q.ti > 0 && Row(q)[1].localTail == Row(q)[1].tail
    ensures 1 <= Row(q)[1].Seen() == Row(q)[1].Count() && Id(q, 1) < |q.blocks|
    ensures Row(q)[1] == Bare(q.blocks[Id(q, 1)]) && q.blocks[Id(q, 1)].front != q.blocks[Id(q, 1)].localTail
  {
    RowAt(q, 1);
    NotEmptyNext(ChainOf(q));
  }

  /** An empty front block that is the tail block is all there is. */
  lemma NothingLeft(q: Queue)
    requires QueueOk(q) && q.ti == 0 && Row(q)[0].Count() == 0
    ensures q.enq[|q.deq|..] == []
  {
    assert ChainOf(q).base[0] + Row(q)[0].Count() == |q.enq|;
  }

  /** The front block is the tail block exactly if it is so in the ring. */
  lemma FrontIsTail(q: Queue)
    requires QueueOk(q)
    ensures q.frontBlock == q.tailBlock <==> q.ti == 0
    ensures q.frontBlock < |q.blocks| && Row(q)[0] == Bare(q.blocks[q.frontBlock])
  {
    RowAt(q, 0);
  }

  lemma {:induction false} EqualSlots(row: seq<Block>, size: nat, i: nat)
    requires i <= |row| && forall j :: 0 <= j < |row| ==> row[j].size == size
    ensures Slots(row, i) == (|row| - i) * (size - 1)
    decreases |row| - i
  {
    if i < |row| {
      EqualSlots(row, size, i + 1);
      assert (|row| - i) * (size - 1) == (|row| - (i + 1)) * (size - 1) + (size - 1);
    }
  }

  /**
   What a queue made for so many elements can hold: those; in one block, one less than the smallest power of two above
   their number; in more, at least one block's worth more than asked for, but less than two.
   */
  ghost predicate SizedFor(size: nat, maxBlock: nat, capacity: int) {
    && size <= capacity
    && if CeilToPow2(size + 1) <= 2 * maxBlock then capacity <= 2 * size && exists k: nat :: capacity + 1 == Pow2(k)
       else size + (maxBlock - 1) <= capacity < size + 2 * (maxBlock - 1)
  }

  lemma OneBlockFits(size: nat, maxBlock: nat)
    requires 2 <= maxBlock && 1 <= size && CeilToPow2(size + 1) <= 2 * maxBlock
    ensures SizedFor(size, maxBlock, CeilToPow2(size + 1) - 1)
  {
    CeilIsPow2(size + 1);
  }

  lemma ManyBlocksFit(size: nat, maxBlock: nat)
    requires 2 <= maxBlock && 1 <= size && CeilToPow2(size + 1) > 2 * maxBlock
    ensures SizedFor(size, maxBlock, InitialBlocks(size, maxBlock) * (maxBlock - 1))
  {
    var n, m := InitialBlocks(size, maxBlock), maxBlock - 1;
    EnoughBlocks(size, maxBlock);
    NotTooManyBlocks(size, maxBlock);
    assert (n - 1) * m == n * m - m && (n - 2) * m == n * m - 2 * m;
  }

  /** All blocks are empty at first, so there is room for all they can hold. */
  lemma NewCapacity(size: nat, maxBlock: nat)
    requires 2 <= maxBlock && 1 <= size && QueueOk(NewQueue(size, maxBlock))
    ensures var q := NewQueue(size, maxBlock);
            SizedFor(size, maxBlock, Slots(Row(q), 0)) && Free(Row(q), q.ti) == Slots(Row(q), 0)
  {
    var many := CeilToPow2(size + 1) > 2 * maxBlock;
    if many { ManyBlocksFit(size, maxBlock); } else { OneBlockFits(size, maxBlock); }
    var n := if many then InitialBlocks(size, maxBlock) else 1;
    NewRow(size, maxBlock, n, if many then maxBlock else CeilToPow2(size + 1));
  }

  lemma NewRow(size: nat, maxBlock: nat, n: nat, largest: nat)
    requires 2 <= maxBlock && 1 <= size && 2 <= largest && 1 <= n && QueueOk(NewQueue(size, maxBlock))
    requires NewQueue(size, maxBlock) == RingOf(n, largest, size, maxBlock)
    ensures var q := NewQueue(size, maxBlock);
            Slots(Row(q), 0) == n * (largest - 1) && Free(Row(q), q.ti) == Slots(Row(q), 0)
  {
    var q := NewQueue(size, maxBlock);
    RingOfIsRing(n, largest, size, maxBlock);
    forall i | 0 <= i < n ensures Row(q)[i] == EmptyBlock(largest, 0) {
      assert Id(q, i) == i;
    }
    EqualSlots(Row(q), largest, 0);
  }

  /** All that the constructor has to establish, for the blocks it has made. */
  lemma Constructed(size: nat, maxBlock: nat, list: seq<Block>, largest: nat)
    requires 2 <= maxBlock
    requires var l := CeilToPow2(size + 1);
             && largest == (if l > 2 * maxBlock then maxBlock else l)
             && |list| == (if l > 2 * maxBlock then InitialBlocks(size, maxBlock) else 1)
    requires forall j :: 0 <= j < |list| ==> list[j] == EmptyBlock(largest, if j + 1 < |list| then j + 1 else 0)
    ensures var q := NewQueue(size, maxBlock);
            && q.blocks == list && q.frontBlock == q.tailBlock == 0 && q.largest == largest && q.maxBlock == maxBlock
            && !q.pending && q.enq[|q.deq|..] == [] && (1 <= size ==> QueueOk(q))
            && (1 <= size ==> SizedFor(size, maxBlock, Slots(Row(q), 0)) && Free(Row(q), q.ti) == Slots(Row(q), 0))
  {
    if CeilToPow2(size + 1) > 2 * maxBlock {
      EnoughBlocks(size, maxBlock);
    }
    RingOfIsRing(|list|, largest, size, maxBlock);
    if size >= 1 {
      StartKeeps(size, maxBlock);
      NewCapacity(size, maxBlock);
    }
  }

  /** Whatever the interleaving before, a moment between calls is a valid state of the object below. */
  lemma BetweenCalls(run: seq<State>, acts: seq<Action>, requested: nat, maxBlock: nat, k: nat)
    requires 2 <= maxBlock && 1 <= requested && IsRun(run, acts, requested, maxBlock) && k < |run|
    requires run[k].prod.pc.PIdle? && run[k].cons.pc.CIdle?
    ensures QueueOk(run[k].q) && !run[k].q.pending
  {
    RunKeepsInvariant(run, acts, requested, maxBlock, k);
  }

  class ReaderWriterQueue {
    var blocks: seq<Block>
    var frontBlock: nat
    var tailBlock: nat
    var largestBlockSize: nat
    const maxBlock: nat
    ghost var q: Queue

    ghost predicate Valid()
      reads this
    {
      && q.blocks == blocks && q.frontBlock == frontBlock && q.tailBlock == tailBlock
      && q.largest == largestBlockSize && q.maxBlock == maxBlock && !q.pending && QueueOk(q)
    }

    ghost function Contents(): seq<int>
      requires Valid()
      reads this
    {
      q.enq[|q.deq|..]
    }

    /** What max_capacity returns. */
    ghost function Capacity(): int
      requires Valid()
      reads this
    {
      Slots(Row(q), 0)
    }

    /** How many more elements try_enqueue takes. */
    ghost function Room(): int
      requires Valid()
      reads this
    {
      Free(Row(q), q.ti)
    }

    /** Empty blocks, each linked to the next one and the last to the first. */
    static method Ring(initialBlockCount: nat, largest: nat) returns (list: seq<Block>)
      ensures |list| == initialBlockCount
      ensures forall j :: 0 <= j < |list| ==> list[j] == EmptyBlock(largest, if j + 1 < |list| then j + 1 else 0)
    {
      list := [];
      var i := 0;
      while i != initialBlockCount
        invariant 0 <= i <= initialBlockCount && |list| == i
        invariant forall j :: 0 <= j < i ==> list[j] == EmptyBlock(largest, if j + 1 < i then j + 1 else 0)
        decreases initialBlockCount - i
      {
        if i > 0 {
          list := list[i - 1 := list[i - 1].(next := i)];
        }
        list := list + [EmptyBlock(largest, 0)];
        i := i + 1;
      }
    }

    constructor (size: nat, maxBlockSize: nat)
      requires 2 <= maxBlockSize && size < WORD / 2
      ensures q == NewQueue(size, maxBlockSize)
      ensures 1 <= size ==> Valid() && Contents() == []
      ensures 1 <= size ==> SizedFor(size, maxBlockSize, Capacity()) && Room() == Capacity()
    {
      maxBlock := maxBlockSize;
      var largest := CeilByBits(size + 1);
      var list: seq<Block>;
      if largest > maxBlockSize * 2 {
        var initialBlockCount := (size + maxBlockSize * 2 - 3) / (maxBlockSize - 1);
        EnoughBlocks(size, maxBlockSize);
        largest := maxBlockSize;
        list := Ring(initialBlockCount, largest);
      } else {
        list := [EmptyBlock(largest, 0)];
      }
      blocks := list;
      frontBlock := 0;
      tailBlock := 0;
      largestBlockSize := largest;
      q := NewQueue(size, maxBlockSize);
      Constructed(size, maxBlockSize, list, largest);
    }

    method RefreshFrontOfTail()
      requires Valid()
      modifies this
      ensures Valid() && Contents() == old(Contents()) && Capacity() == old(Capacity()) && Room() == old(Room())
      ensures ChainOf(q) == old(Set(ChainOf(q), q.ti, RefreshFront(Row(q)[q.ti])))
      ensures frontBlock == old(frontBlock) && tailBlock == old(tailBlock) && largestBlockSize == old(largestBlockSize)
    {
      RefreshFrontEffect(q);
      blocks := blocks[tailBlock := blocks[tailBlock].(localFront := blocks[tailBlock].front)];
      q := Put(q, tailBlock, RefreshFront(q.blocks[tailBlock]));
    }

    method PutInTail(element: int)
      requires Valid() && var b := Row(q)[q.ti]; b.Used() < b.size - 1
      modifies this
      ensures Valid() && Contents() == old(Contents()) + [element]
      ensures Capacity() == old(Capacity()) && Room() == old(Room()) - 1
    {
      ghost var r := InTail(q, element);
      InTailEffect(q, element);
      InTailMemory(q, element);
      var b := blocks[tailBlock];
      blocks := blocks[tailBlock := b.(data := b.data[b.tail := element])];
      blocks := blocks[tailBlock := blocks[tailBlock].(tail := Inc(b.tail, b.size))];
      q := r;
    }

    /** Builds the element in an empty block and makes its own tail pass it. */
    method FillBlock(block: nat, element: int)
      requires block < |blocks| && blocks[block].Shaped() && blocks[block].front == blocks[block].tail
      modifies this`blocks
      ensures var b := old(blocks[block]);
              blocks == old(blocks)[block := b.(localFront := b.front, data := b.data[b.tail := element], tail := Inc(b.tail, b.size))]
    {
      blocks := blocks[block := blocks[block].(localFront := blocks[block].front)];
      var nextBlockFront, nextBlockTail := blocks[block].localFront, blocks[block].tail;
      assert nextBlockFront == nextBlockTail;
      blocks := blocks[block := blocks[block].(localFront := nextBlockFront)];
      blocks := blocks[block := blocks[block].(data := blocks[block].data[nextBlockTail := element])];
      blocks := blocks[block := blocks[block].(tail := Inc(nextBlockTail, blocks[block].size))];
    }

    method PutInNext(tailBlockNext: nat, element: int)
      requires Valid() && Row(q)[q.ti].Full() && q.ti + 1 < |q.ring| && tailBlockNext == Id(q, q.ti + 1)
      modifies this
      ensures Valid() && Contents() == old(Contents()) + [element]
      ensures Capacity() == old(Capacity()) && Room() == old(Room()) - 1
    {
      ghost var r := InNext(q, tailBlockNext, element);
      InNextAll(q, element);
      FillBlock(tailBlockNext, element);
      tailBlock := tailBlockNext;
      q := r;
    }

    method PutInNewBlock(element: int)
      requires Valid() && Row(q)[q.ti].Full() && q.ti + 1 == |q.ring|
      modifies this
      ensures Valid() && Contents() == old(Contents()) + [element]
      ensures Capacity() == old(Capacity()) + largestBlockSize - 1 && Room() == largestBlockSize - 2
      ensures largestBlockSize == old(if largestBlockSize >= maxBlock then largestBlockSize else largestBlockSize * 2)
    {
      InNewEffect(q, element);
      InNewMemory(q, element);
      ghost var r := InNew(q, element);
      var newBlockSize := if largestBlockSize >= maxBlock then largestBlockSize else largestBlockSize * 2;
      var newBlock := |blocks|;
      largestBlockSize := newBlockSize;
      blocks := blocks + [Block(0, 1, 1, 0, blocks[tailBlock].next, newBlockSize, seq(newBlockSize, _ => element))];
      blocks := blocks[tailBlock := blocks[tailBlock].(next := newBlock)];
      tailBlock := newBlock;
      q := r;
    }

    /**
     try_enqueue does not allocate, enqueue does; `memory` tells whether an allocation succeeds. The element is
     refused exactly when there is no room left and no new block to be had.
     */
    method InnerEnqueue(element: int, canAlloc: bool, memory: bool) returns (ok: bool)
      requires Valid()
      modifies this
      ensures Valid() && (ok <==> old(Room()) > 0 || (canAlloc && memory))
      ensures Contents() == if ok then old(Contents()) + [element] else old(Contents())
      ensures old(Room()) > 0 || !ok ==> Capacity() == old(Capacity()) && Room() == old(Room()) - (if ok then 1 else 0)
      ensures old(Room()) <= 0 && ok ==> Capacity() == old(Capacity()) + Room() + 1
    {
      ok := true;
      var tailBlock_ := tailBlock;
      RowAt(q, q.ti);
      var blockFront := blocks[tailBlock_].localFront;
      var nextBlockTail := Inc(blocks[tailBlock_].tail, blocks[tailBlock_].size);
      if nextBlockTail == blockFront {
        RefreshFrontOfTail();
        RowAt(q, q.ti);
        blockFront := blocks[tailBlock_].localFront;
      }
      RoomLeft(q);
      if nextBlockTail != blockFront {
        PutInTail(element);
      } else if blocks[tailBlock_].next != frontBlock {
        PutInNext(blocks[tailBlock_].next, element);
      } else if canAlloc {
        if !memory {
          return false;
        }
        PutInNewBlock(element);
      } else {
        ok := false;
      }
    }

    /** Takes the element at the front of a non-empty front block. */
    method TakeFront() returns (result: int)
      requires Valid() && Row(q)[0].Seen() >= 1
      modifies this
      ensures Valid() && old(Contents()) == [result] + Contents() && Capacity() == old(Capacity())
      ensures Room() >= old(Room())
    {
      var frontBlock_ := frontBlock;
      var blockFront := blocks[frontBlock_].front;
      RowAt(q, 0);
      result := blocks[frontBlock_].data[blockFront];
      TakeFrontEffect(q, result);
      blockFront := Inc(blockFront, blocks[frontBlock_].size);
      blocks := blocks[frontBlock_ := blocks[frontBlock_].(front := blockFront)];
      q := StoreFront(q, frontBlock, q.blocks[frontBlock].front, result);
    }

    method RefreshTailOf(block: nat, ghost p: nat)
      requires Valid() && p < |q.ring| && block == Id(q, p)
      modifies this
      ensures Valid() && Contents() == old(Contents()) && Capacity() == old(Capacity()) && Room() == old(Room())
      ensures ChainOf(q) == old(Set(ChainOf(q), p, RefreshTail(Row(q)[p])))
      ensures frontBlock == old(frontBlock) && tailBlock == old(tailBlock) && q.ring == old(q.ring)
    {
      RefreshTailEffect(q, p);
      blocks := blocks[block := blocks[block].(localTail := blocks[block].tail)];
      q := Put(q, block, RefreshTail(q.blocks[block]));
    }

    /** Without a producer in between, a failing call means an empty queue. */
    method TryDequeue() returns (ok: bool, result: int)
      requires Valid()
      modifies this
      ensures Valid() && Capacity() == old(Capacity()) && Room() >= old(Room())
      ensures ok <==> old(Contents()) != []
      ensures if ok then old(Contents()) == [result] + Contents() else Contents() == []
    {
      ok, result := true, 0;
      var frontBlock_ := frontBlock;
      FrontIsTail(q);
      var blockTail := blocks[frontBlock_].localTail;
      var blockFront := blocks[frontBlock_].front;
      if blockFront == blockTail {
        RefreshTailOf(frontBlock_, 0);
        FrontIsTail(q);
        blockTail := blocks[frontBlock_].localTail;
      }
      if blockFront != blockTail {
        result := TakeFront();
      } else if frontBlock_ != tailBlock {
        result := DequeueFromNext();
      } else {
        NothingLeft(q);
        ok := false;
      }
    }

    /** Looks again whether the front block is empty, which it is with nobody else at work, and takes from the next one. */
    method DequeueFromNext() returns (result: int)
      requires Valid() && q.ti > 0 && Row(q)[0].Count() == 0
      modifies this
      ensures Valid() && old(Contents()) == [result] + Contents() && Capacity() == old(Capacity())
      ensures Room() >= old(Room())
    {
      var frontBlock_ := frontBlock;
      RefreshTailOf(frontBlock_, 0);
      FrontIsTail(q);
      assert blocks[frontBlock_].front == blocks[frontBlock_].localTail;
      NextShows(q);
      var nextBlock := blocks[frontBlock_].next;
      RefreshTailOf(nextBlock, 1);
      NextNotEmpty(q);
      assert blocks[nextBlock].front != blocks[nextBlock].localTail;
      Enter(nextBlock);
      result := TakeFront();
    }

    /** The first element, without taking it. */
    method Peek() returns (ok: bool, result: int)
      requires Valid()
      modifies this
      ensures Valid() && Contents() == old(Contents()) && Capacity() == old(Capacity()) && Room() == old(Room())
      ensures ok <==> Contents() != []
      ensures ok ==> result == Contents()[0]
    {
      ok, result := true, 0;
      var frontBlock_ := frontBlock;
      FrontIsTail(q);
      var blockTail := blocks[frontBlock_].localTail;
      var blockFront := blocks[frontBlock_].front;
      if blockFront == blockTail {
        RefreshTailOf(frontBlock_, 0);
        FrontIsTail(q);
        blockTail := blocks[frontBlock_].localTail;
      }
      if blockFront != blockTail {
        FrontShows(q);
        result := blocks[frontBlock_].data[blockFront];
      } else if frontBlock_ != tailBlock {
        RefreshTailOf(frontBlock_, 0);
        NextShows(q);
        var nextBlock := blocks[frontBlock_].next;
        result := blocks[nextBlock].data[blocks[nextBlock].front];
      } else {
        NothingLeft(q);
        ok := false;
      }
    }

    /** With nobody else at work the approximate size is exact. */
    method SizeApprox() returns (result: int)
      requires Valid()
      ensures result == |Contents()|
    {
      result := 0;
      var block := frontBlock;
      ghost var i := 0;
      while true
        invariant 0 <= i < |q.ring| && block == Id(q, i) && result == Elements(Row(q), i)
        decreases |q.ring| - i
      {
        RowAt(q, i);
        result := result + Dist(blocks[block].front, blocks[block].tail, blocks[block].size);
        assert NextOf(q, i) == Id(q, Following(q, i));
        block := blocks[block].next;
        i := i + 1;
        if block == frontBlock {
          break;
        }
      }
      ElementsAll(ChainOf(q), |q.ring|);
    }

    method MaxCapacity() returns (result: int)
      requires Valid()
      ensures result == Capacity()
    {
      result := 0;
      var block := frontBlock;
      ghost var i := 0;
      while true
        invariant 0 <= i < |q.ring| && block == Id(q, i) && result + Slots(Row(q), i) == Capacity()
        decreases |q.ring| - i
      {
        RowAt(q, i);
        result := result + (blocks[block].size - 1);
        assert NextOf(q, i) == Id(q, Following(q, i));
        block := blocks[block].next;
        i := i + 1;
        if block == frontBlock {
          break;
        }
      }
    }

    /** From an empty queue exactly max_capacity() consecutive try_enqueue calls succeed, whatever happened before. */
    method EnqueueUntilRefused(element: int) returns (accepted: int)
      requires Valid() && Contents() == []
      modifies this
      ensures Valid() && accepted == Capacity() == old(Capacity()) == |Contents()|
    {
      EmptyIsFree(ChainOf(q));
      RoomLeft(q);
      accepted := 0;
      var ok := InnerEnqueue(element, false, true);
      while ok
        invariant Valid() && Capacity() == old(Capacity()) && Room() >= 0
        invariant accepted + (if ok then 1 else 0) + Room() == old(Capacity())
        invariant |Contents()| == accepted + (if ok then 1 else 0)
        invariant !ok ==> Room() == 0
        decreases Room(), ok
      {
        accepted := accepted + 1;
        ok := InnerEnqueue(element, false, true);
        RoomLeft(q);
      }
    }

    /** The consumer leaves its empty front block for the next one. */
    method Enter(nextBlock: nat)
      requires Valid() && q.ti > 0 && Row(q)[0].Count() == 0 && nextBlock == Id(q, 1)
      requires 1 <= Row(q)[1].Seen() <= Row(q)[1].Count()
      modifies this
      ensures Valid() && Contents() == old(Contents()) && Capacity() == old(Capacity()) && Room() >= old(Room())
      ensures Row(q)[0].Seen() >= 1
    {
      StoreFrontBlockStep(q);
      ghost var before := q;
      frontBlock := nextBlock;
      q := StoreFrontBlock(q, nextBlock);
      RotatedSlots(Row(before), Row(q), before.ti);
    }
  }

  /** Moving the first block to the end. */
  lemma RotatedSlots(row: seq<Block>, row': seq<Block>, ti: nat)
    requires 0 < ti < |row| && row' == row[1..] + [row[0]] && forall i :: 0 <= i < |row| ==> row[i].Shaped()
    ensures Slots(row', 0) == Slots(row, 0)
    ensures Free(row', ti - 1) >= Free(row, ti)
  {
    SlotsAppend(row[1..], row[0], 0);
    SlotsAppend(row[1..], row[0], ti);
    SlotsTail(row, 1);
    SlotsTail(row, ti + 1);
  }

  lemma {:induction false} SlotsAppend(row: seq<Block>, b: Block, i: nat)
    requires i <= |row|
    ensures Slots(row + [b], i) == Slots(row, i) + b.size - 1
    decreases |row| - i
  {
    if i < |row| {
      SlotsAppend(row, b, i + 1);
    }
  }

  lemma {:induction false} SlotsTail(row: seq<Block>, i: nat)
    requires 1 <= i <= |row|
    ensures Slots(row[1..], i - 1) == Slots(row, i)
    decreases |row| - i
  {
    if i < |row| {
      SlotsTail(row, i + 1);
    }
  }
}
