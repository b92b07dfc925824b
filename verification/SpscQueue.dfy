/**
 The single-producer, single-consumer queue of blocks, as two programs whose atomic accesses interleave.

 Each thread advances by one atomic load or store (or one access to an element slot) at a time. Reads of
 `localFront` and `localTail`, which only their own thread touches, ride along with the next access.
 Memory is sequentially consistent. Elements are integers; nothing depends on what they are.
 */
module SpscQueue {

  // ----- Indices inside a block -----

  /** `(i + 1) & sizeMask` for a power-of-two size. */
  function Inc(i: nat, size: nat): nat {
    if i + 1 == size then 0 else i + 1
  }

  /** How many steps of `Inc` lead from a to b. */
  function Dist(a: nat, b: nat, size: nat): int {
    if a <= b then b - a else b - a + size
  }

  function Wrap(i: nat, size: nat): int {
    if i < size then i else i - size
  }

  // ----- State -----

  datatype Block = Block(front: nat, localTail: nat, tail: nat, localFront: nat, next: nat, size: nat, data: seq<int>)
  {
    predicate Shaped() {
      2 <= size == |data| && front < size && tail < size && localFront < size && localTail < size
    }

    function Count(): int { Dist(front, tail, size) }

    predicate Full() { Count() == size - 1 }

    /** The element k places behind the front. */
    function At(k: nat): int
      requires Shaped() && k < size
    {
      data[Wrap(front + k, size)]
    }

    /** How many elements there are as far as the producer knows; `Seen`, as far as the consumer knows. */
    function Used(): int { Dist(localFront, tail, size) }

    function Seen(): int { Dist(front, localTail, size) }
  }

  /**
   The shared memory. Pointers are indices into `blocks`.
   History: `ring` lists the blocks from the front block on, `ti` is where the tail block stands in it,
   `base[i]` is how many elements were enqueued before the first one in `ring[i]`; `enq` and `deq` are all
   elements enqueued and dequeued; `pending` tells that the block after the tail block already holds the element
   that is about to be published; `requested` is the constructor's argument, `unit` what each block can hold.
   */
  datatype Queue = Queue(
    blocks: seq<Block>, frontBlock: nat, tailBlock: nat, largest: nat, maxBlock: nat,
    ring: seq<nat>, ti: nat, base: seq<nat>, enq: seq<int>, deq: seq<int>, pending: bool, requested: nat, unit: nat)

  datatype ProdPc =
    | PIdle
    | PStart
    | PLoadTail(tb: nat)
    | PLoadFront(tb: nat, bt: nat)
    | PConstruct(tb: nat, bt: nat)
    | PStoreTail(tb: nat, bt: nat)
    | PLoadNext(tb: nat)
    | PLoadFrontBlock(tb: nat, next: nat)
    | PLoadNextAgain(tb: nat)
    | PLoadNextFront(nb: nat)
    | PLoadNextTail(nb: nat, nf: nat)
    | PConstructNext(nb: nat, nt: nat)
    | PStoreNextTail(nb: nat, nt: nat)
    | PStoreTailBlock(nb: nat)
    | PAlloc(tb: nat)
    | PLinkNew(tb: nat, nb: nat)
    | PStoreNext(tb: nat, nb: nat)

  /** The producer: its call's element and allocation mode, and what its last call returned. */
  datatype Prod = Prod(pc: ProdPc, elem: int, canAlloc: bool, ok: bool)

  datatype ConsPc =
    | CIdle
    | CStart
    | CLoadFront(fb: nat)
    | CLoadTail(fb: nat, bf: nat)
    | CRead(fb: nat, bf: nat)
    | CStoreFront(fb: nat, bf: nat)
    | CLoadTailBlock(fb: nat)
    | CReloadFrontBlock
    | CReloadTail(fb: nat)
    | CReloadFront(fb: nat, bt: nat)
    | CLoadNext(fb: nat)
    | CLoadNextFront(nb: nat)
    | CLoadNextTail(nb: nat, nf: nat)
    | CStoreFrontBlock(nb: nat, nf: nat)
    | CReadNext(nb: nat, nf: nat)
    | CStoreNextFront(nb: nat, nf: nat)

  datatype Kind = Dequeue | Peek

  /** The consumer: its call, and what its last call returned. `pop` is a Dequeue that drops the value. */
  datatype Cons = Cons(pc: ConsPc, kind: Kind, ok: bool, value: int)

  /**
   History: `emptySeen` and `fullSeen` tell whether the queue was empty, or held at least `requested` elements, at
   some moment of the current call of the consumer, or the producer.
   */
  datatype State = State(q: Queue, prod: Prod, cons: Cons, emptySeen: bool, fullSeen: bool)

  function Queued(q: Queue): int { |q.enq| - |q.deq| }

  function Observe(s: State): State {
    s.(emptySeen := s.emptySeen || Queued(s.q) == 0, fullSeen := s.fullSeen || Queued(s.q) >= s.q.requested)
  }

  // ----- Accesses to memory -----

  const NOWHERE := Block(0, 0, 0, 0, 0, 2, [0, 0])

  /** The block a pointer points to. */
  function BlockAt(q: Queue, b: nat): Block { if b < |q.blocks| then q.blocks[b] else NOWHERE }

  function Put(q: Queue, b: nat, block: Block): Queue { if b < |q.blocks| then q.(blocks := q.blocks[b := block]) else q }

  function WithSlot(b: Block, i: nat, x: int): Block { if i < |b.data| then b.(data := b.data[i := x]) else b }

  function Slot(b: Block, i: nat): int { if i < |b.data| then b.data[i] else 0 }

  function RefreshFront(b: Block): Block { b.(localFront := b.front) }

  function RefreshTail(b: Block): Block { b.(localTail := b.tail) }

  function StoreTail(q: Queue, tb: nat, bt: nat, elem: int): Queue {
    var b := BlockAt(q, tb);
    Put(q, tb, b.(tail := Inc(bt, b.size))).(enq := q.enq + [elem])
  }

  function StoreNextTail(q: Queue, nb: nat, nt: nat): Queue {
    var b := BlockAt(q, nb);
    Put(q, nb, b.(tail := Inc(nt, b.size))).(pending := true)
  }

  function StoreTailBlock(q: Queue, nb: nat, elem: int): Queue {
    q.(tailBlock := nb, ti := q.ti + 1, base := q.base + [|q.enq|], enq := q.enq + [elem], pending := false)
  }

  function NewBlockSize(q: Queue): nat { if q.largest >= q.maxBlock then q.largest else q.largest * 2 }

  /** Adds a block that already holds the element. */
  function MakeBlock(q: Queue, elem: int): Queue {
    var size := NewBlockSize(q);
    q.(blocks := q.blocks + [Block(0, 1, 1, 0, 0, size, seq(size, _ => elem))], largest := size)
  }

  /** `newBlock->next = tailBlock_->next` */
  function LinkNew(q: Queue, tb: nat, nb: nat): Queue { Put(q, nb, BlockAt(q, nb).(next := BlockAt(q, tb).next)) }

  /** `tailBlock_->next = newBlock` */
  function StoreNext(q: Queue, tb: nat, nb: nat): Queue {
    Put(q, tb, BlockAt(q, tb).(next := nb)).(
      ring := if q.ti < |q.ring| then q.ring[..q.ti + 1] + [nb] + q.ring[q.ti + 1..] else q.ring, pending := true)
  }

  function StoreFront(q: Queue, fb: nat, bf: nat, value: int): Queue {
    var b := BlockAt(q, fb);
    Put(q, fb, b.(front := Inc(bf, b.size))).(
      base := if q.base != [] then q.base[0 := q.base[0] + 1] else q.base, deq := q.deq + [value])
  }

  function StoreFrontBlock(q: Queue, nb: nat): Queue {
    q.(frontBlock := nb,
       ring := if q.ring != [] then q.ring[1..] + [q.ring[0]] else q.ring,
       ti := if q.ti > 0 then q.ti - 1 else 0,
       base := if q.base != [] then q.base[1..] else q.base)
  }

  // ----- Steps -----

  function AtP(s: State, pc: ProdPc): State { s.(prod := s.prod.(pc := pc)) }

  function AtC(s: State, pc: ConsPc): State { s.(cons := s.cons.(pc := pc)) }

  function EnqueueReturns(s: State, ok: bool): State { s.(prod := s.prod.(pc := PIdle, ok := ok)) }

  function DequeueReturns(s: State, ok: bool, value: int): State {
    s.(cons := s.cons.(pc := CIdle, ok := ok, value := value))
  }

  function LoadFront(s: State, tb: nat, bt: nat): State {
    var b := BlockAt(s.q, tb);
    AtP(s.(q := Put(s.q, tb, RefreshFront(b))), if Inc(bt, b.size) != b.front then PConstruct(tb, bt) else PLoadNext(tb))
  }

  // The producer's accesses to the block after the tail block, and to a new block.

  function LoadNextFront(s: State, nb: nat): State {
    var b := BlockAt(s.q, nb);
    AtP(s.(q := Put(s.q, nb, RefreshFront(b))), PLoadNextTail(nb, b.front))
  }

  function LoadNextTail(s: State, nb: nat, nf: nat): State {
    var b := BlockAt(s.q, nb);
    AtP(s.(q := Put(s.q, nb, b.(localFront := nf))), PConstructNext(nb, b.tail))
  }

  function ConstructNext(s: State, nb: nat, nt: nat): State {
    AtP(s.(q := Put(s.q, nb, WithSlot(BlockAt(s.q, nb), nt, s.prod.elem))), PStoreNextTail(nb, nt))
  }

  function FillNext(s: State, nb: nat, nt: nat): State { AtP(s.(q := StoreNextTail(s.q, nb, nt)), PStoreTailBlock(nb)) }

  function Alloc(s: State, tb: nat): State { AtP(s.(q := MakeBlock(s.q, s.prod.elem)), PLinkNew(tb, |s.q.blocks|)) }

  function Link(s: State, tb: nat, nb: nat): State { AtP(s.(q := LinkNew(s.q, tb, nb)), PStoreNext(tb, nb)) }

  function SpliceIn(s: State, tb: nat, nb: nat): State { AtP(s.(q := StoreNext(s.q, tb, nb)), PStoreTailBlock(nb)) }

  /** The producer's next atomic step, when an allocation does not fail. */
  function ProdStep(s: State): State {
    var q, x := s.q, s.prod.elem;
    match s.prod.pc
    case PIdle => s
    case PStart => AtP(s, PLoadTail(q.tailBlock))
    case PLoadTail(tb) =>
      var b := BlockAt(q, tb);
      AtP(s, if Inc(b.tail, b.size) != b.localFront then PConstruct(tb, b.tail) else PLoadFront(tb, b.tail))
    case PLoadFront(tb, bt) => LoadFront(s, tb, bt)
    case PConstruct(tb, bt) => AtP(s.(q := Put(q, tb, WithSlot(BlockAt(q, tb), bt, x))), PStoreTail(tb, bt))
    case PStoreTail(tb, bt) => EnqueueReturns(s.(q := StoreTail(q, tb, bt, x)), true)
    case PLoadNext(tb) => AtP(s, PLoadFrontBlock(tb, BlockAt(q, tb).next))
    case PLoadFrontBlock(tb, next) =>
      if next != q.frontBlock then AtP(s, PLoadNextAgain(tb))
      else if s.prod.canAlloc then AtP(s, PAlloc(tb))
      else EnqueueReturns(s, false)
    case PLoadNextAgain(tb) => AtP(s, PLoadNextFront(BlockAt(q, tb).next))
    case PLoadNextFront(nb) => LoadNextFront(s, nb)
    case PLoadNextTail(nb, nf) => LoadNextTail(s, nb, nf)
    case PConstructNext(nb, nt) => ConstructNext(s, nb, nt)
    case PStoreNextTail(nb, nt) => FillNext(s, nb, nt)
    case PStoreTailBlock(nb) => EnqueueReturns(s.(q := StoreTailBlock(q, nb, x)), true)
    case PAlloc(tb) => Alloc(s, tb)
    case PLinkNew(tb, nb) => Link(s, tb, nb)
    case PStoreNext(tb, nb) => SpliceIn(s, tb, nb)
  }

  function EnterNext(s: State, nb: nat, nf: nat): State {
    AtC(s.(q := Put(s.q, nb, RefreshTail(BlockAt(s.q, nb)))), CStoreFrontBlock(nb, nf))
  }

  /** The consumer's next atomic step. */
  function ConsStep(s: State): State {
    var q, dequeue, value := s.q, s.cons.kind.Dequeue?, s.cons.value;
    match s.cons.pc
    case CIdle => s
    case CStart => AtC(s, CLoadFront(q.frontBlock))
    case CLoadFront(fb) =>
      var b := BlockAt(q, fb);
      AtC(s, if b.front != b.localTail then CRead(fb, b.front) else CLoadTail(fb, b.front))
    case CLoadTail(fb, bf) =>
      var b := BlockAt(q, fb);
      AtC(s.(q := Put(q, fb, RefreshTail(b))), if bf != b.tail then CRead(fb, bf) else CLoadTailBlock(fb))
    case CRead(fb, bf) =>
      var x := Slot(BlockAt(q, fb), bf);
      if dequeue then AtC(s.(cons := s.cons.(value := x)), CStoreFront(fb, bf)) else DequeueReturns(s, true, x)
    case CStoreFront(fb, bf) => DequeueReturns(s.(q := StoreFront(q, fb, bf, value)), true, value)
    case CLoadTailBlock(fb) =>
      if fb != q.tailBlock then AtC(s, CReloadFrontBlock) else DequeueReturns(s, false, value)
    case CReloadFrontBlock => AtC(s, CReloadTail(q.frontBlock))
    case CReloadTail(fb) =>
      var b := BlockAt(q, fb);
      AtC(s.(q := Put(q, fb, RefreshTail(b))), CReloadFront(fb, b.tail))
    case CReloadFront(fb, bt) =>
      var b := BlockAt(q, fb);
      AtC(s, if b.front != bt then CRead(fb, b.front) else CLoadNext(fb))
    case CLoadNext(fb) => AtC(s, CLoadNextFront(BlockAt(q, fb).next))
    case CLoadNextFront(nb) => AtC(s, CLoadNextTail(nb, BlockAt(q, nb).front))
    case CLoadNextTail(nb, nf) =>
      if dequeue then EnterNext(s, nb, nf) else DequeueReturns(s, true, Slot(BlockAt(q, nb), nf))
    case CStoreFrontBlock(nb, nf) => AtC(s.(q := StoreFrontBlock(q, nb)), CReadNext(nb, nf))
    case CReadNext(nb, nf) => AtC(s.(cons := s.cons.(value := Slot(BlockAt(q, nb), nf))), CStoreNextFront(nb, nf))
    case CStoreNextFront(nb, nf) => DequeueReturns(s.(q := StoreFront(q, nb, nf, value)), true, value)
  }

  datatype Action =
    | CallEnqueue(elem: int, canAlloc: bool)
    | Produce
    | AllocFails
    | CallDequeue(kind: Kind)
    | Consume

  predicate Enabled(s: State, a: Action) {
    match a
    case CallEnqueue(_, _) => s.prod.pc.PIdle?
    case Produce => !s.prod.pc.PIdle?
    case AllocFails => s.prod.pc.PAlloc?
    case CallDequeue(_) => s.cons.pc.CIdle?
    case Consume => !s.cons.pc.CIdle?
  }

  function Apply(s: State, a: Action): State
    requires Enabled(s, a)
  {
    Observe(
      match a
      case CallEnqueue(elem, canAlloc) =>
        s.(prod := s.prod.(pc := PStart, elem := elem, canAlloc := canAlloc), fullSeen := false)
      case Produce => ProdStep(s)
      case AllocFails => EnqueueReturns(s, false)
      case CallDequeue(kind) => s.(cons := s.cons.(pc := CStart, kind := kind), emptySeen := false)
      case Consume => ConsStep(s))
  }

  // ----- The chain of blocks -----

  /** The blocks in ring order with what the history says about them: the queue without pointers. */
  datatype Chain = Chain(row: seq<Block>, ti: nat, base: seq<nat>, enq: seq<int>, deq: seq<int>, pending: bool)

  /** Block `b` holds the elements of `enq` from `base` on. */
  ghost predicate Holds(b: Block, enq: seq<int>, base: nat)
    requires b.Shaped()
  {
    && base + b.Count() <= |enq|
    && forall k :: 0 <= k < b.Count() ==> b.At(k) == enq[base + k]
  }

  ghost predicate RowShaped(c: Chain) {
    && c.ti < |c.row|
    && forall i :: 0 <= i < |c.row| ==> c.row[i].Shaped()
  }

  /** The blocks from front to tail hold, one after the other, what is enqueued and not yet dequeued. */
  ghost predicate StreamOk(c: Chain)
    requires RowShaped(c)
  {
    && |c.base| == c.ti + 1 && c.base[0] == |c.deq|
    && (forall i, j {:trigger c.base[i], c.base[j]} :: 0 <= i < c.ti && j == i + 1 ==> c.base[j] == c.base[i] + c.row[i].Count())
    && c.base[c.ti] + c.row[c.ti].Count() == |c.enq|
    && (forall i :: 0 <= i <= c.ti ==> Holds(c.row[i], c.enq, c.base[i]))
    && c.deq <= c.enq
  }

  /**
   Blocks strictly between front and tail are full, a tail block other than the front block is not empty, and
   blocks outside the span are empty but for one whose element is about to be published.
   */
  ghost predicate SpanOk(c: Chain)
    requires RowShaped(c)
  {
    && (forall i :: 0 < i < c.ti ==> c.row[i].Full())
    && (c.ti > 0 ==> c.row[c.ti].Count() > 0)
    && (forall i :: c.ti < i < |c.row| ==> c.row[i].Count() == if c.pending && i == c.ti + 1 then 1 else 0)
    && (c.pending ==> c.ti + 1 < |c.row|)
  }

  /** The shadow indices that are in use lag behind the real ones. */
  ghost predicate ShadowsOk(c: Chain)
    requires RowShaped(c)
  {
    c.row[c.ti].Count() <= c.row[c.ti].Used() && c.row[0].Seen() <= c.row[0].Count()
  }

  ghost predicate ChainOk(c: Chain) {
    RowShaped(c) && StreamOk(c) && SpanOk(c) && ShadowsOk(c)
  }

  function Set(c: Chain, p: nat, b: Block): Chain {
    if p < |c.row| then c.(row := c.row[p := b]) else c
  }

  lemma RefreshLocalFront(c: Chain, p: nat)
    requires ChainOk(c) && p < |c.row|
    ensures ChainOk(Set(c, p, c.row[p].(localFront := c.row[p].front)))
  {
    var d := Set(c, p, c.row[p].(localFront := c.row[p].front));
    SameContents(c, d);
  }

  lemma RefreshLocalTail(c: Chain, p: nat)
    requires ChainOk(c) && p < |c.row|
    ensures ChainOk(Set(c, p, c.row[p].(localTail := c.row[p].tail)))
  {
    var d := Set(c, p, c.row[p].(localTail := c.row[p].tail));
    SameContents(c, d);
  }

  predicate SameElements(b: Block, d: Block) { b.front == d.front && b.tail == d.tail && b.size == d.size && b.data == d.data }

  lemma SameHolds(b: Block, d: Block, enq: seq<int>, base: nat)
    requires b.Shaped() && d.Shaped() && SameElements(b, d) && Holds(b, enq, base)
    ensures d.Count() == b.Count() && Holds(d, enq, base)
  {
    assert forall k :: 0 <= k < d.Count() ==> d.At(k) == b.At(k);
  }

  lemma SameStream(c: Chain, d: Chain)
    requires RowShaped(c) && StreamOk(c) && d == c.(row := d.row) && |d.row| == |c.row| && RowShaped(d)
    requires forall i :: 0 <= i < |c.row| ==> SameElements(c.row[i], d.row[i])
    ensures StreamOk(d)
  {
    forall i | 0 <= i <= c.ti ensures d.row[i].Count() == c.row[i].Count() && Holds(d.row[i], d.enq, d.base[i]) {
      SameHolds(c.row[i], d.row[i], c.enq, c.base[i]);
    }
  }

  lemma SameSpan(c: Chain, d: Chain)
    requires RowShaped(c) && SpanOk(c) && d == c.(row := d.row) && |d.row| == |c.row| && RowShaped(d)
    requires forall i :: 0 <= i < |c.row| ==> SameElements(c.row[i], d.row[i])
    ensures SpanOk(d)
  {
  }

  /** The stream depends only on the indices front and tail and the slots of each block. */
  lemma SameContents(c: Chain, d: Chain)
    requires RowShaped(c) && StreamOk(c) && SpanOk(c) && d == c.(row := d.row) && |d.row| == |c.row| && RowShaped(d)
    requires forall i :: 0 <= i < |c.row| ==> SameElements(c.row[i], d.row[i])
    ensures StreamOk(d) && SpanOk(d)
  {
    SameStream(c, d);
    SameSpan(c, d);
  }

  function WithTail(b: Block): Block { b.(tail := Inc(b.tail, b.size)) }

  function WithFront(b: Block): Block { b.(front := Inc(b.front, b.size)) }

  // What single-block changes do to the elements a block holds.

  lemma ConstructHolds(b: Block, enq: seq<int>, base: nat, x: int)
    requires b.Shaped() && Holds(b, enq, base) && !b.Full()
    ensures Holds(b.(data := b.data[b.tail := x]), enq, base)
  {
    var d := b.(data := b.data[b.tail := x]);
    assert forall k :: 0 <= k < b.Count() ==> d.At(k) == b.At(k);
  }

  lemma PushHolds(b: Block, enq: seq<int>, base: nat, x: int)
    requires b.Shaped() && Holds(b, enq, base) && !b.Full() && base + b.Count() == |enq| && b.data[b.tail] == x
    ensures WithTail(b).Shaped() && WithTail(b).Count() == b.Count() + 1
    ensures Holds(WithTail(b), enq + [x], base)
  {
    var d := WithTail(b);
    assert forall k :: 0 <= k < b.Count() ==> d.At(k) == b.At(k);
    assert d.At(b.Count()) == x;
  }

  lemma PopHolds(b: Block, enq: seq<int>, base: nat)
    requires b.Shaped() && Holds(b, enq, base) && b.Count() >= 1
    ensures WithFront(b).Shaped() && WithFront(b).Count() == b.Count() - 1
    ensures b.At(0) == enq[base] && Holds(WithFront(b), enq, base + 1)
  {
    var d := WithFront(b);
    assert forall k :: 0 <= k < d.Count() ==> d.At(k) == b.At(k + 1);
  }

  lemma LongerHolds(b: Block, enq: seq<int>, base: nat, x: int)
    requires b.Shaped() && Holds(b, enq, base)
    ensures Holds(b, enq + [x], base)
  {
  }

  /** Building an element in a slot that holds no element of the block. */
  lemma ConstructKeeps(c: Chain, p: nat, x: int)
    requires ChainOk(c) && p < |c.row| && !c.row[p].Full()
    ensures ChainOk(Set(c, p, c.row[p].(data := c.row[p].data[c.row[p].tail := x])))
  {
    ConstructStream(c, p, x);
    ConstructSpan(c, p, x);
  }

  lemma ConstructStream(c: Chain, p: nat, x: int)
    requires RowShaped(c) && StreamOk(c) && p < |c.row| && !c.row[p].Full()
    ensures var d := Set(c, p, c.row[p].(data := c.row[p].data[c.row[p].tail := x])); RowShaped(d) && StreamOk(d)
  {
    var d := Set(c, p, c.row[p].(data := c.row[p].data[c.row[p].tail := x]));
    forall i | 0 <= i <= c.ti ensures d.row[i].Count() == c.row[i].Count() && Holds(d.row[i], d.enq, d.base[i]) {
      if i == p {
        ConstructHolds(c.row[p], c.enq, c.base[p], x);
      } else {
        assert d.row[i] == c.row[i];
      }
    }
  }

  lemma ConstructSpan(c: Chain, p: nat, x: int)
    requires RowShaped(c) && SpanOk(c) && ShadowsOk(c) && p < |c.row|
    ensures var d := Set(c, p, c.row[p].(data := c.row[p].data[c.row[p].tail := x]));
            RowShaped(d) && SpanOk(d) && ShadowsOk(d)
  {
  }

  /** The producer makes the element after the last one of the tail block visible. */
  function Push(c: Chain, x: int): Chain
    requires c.ti < |c.row|
  {
    c.(row := c.row[c.ti := WithTail(c.row[c.ti])], enq := c.enq + [x])
  }

  lemma PushKeeps(c: Chain, x: int)
    requires ChainOk(c)
    requires c.row[c.ti].Used() < c.row[c.ti].size - 1 && c.row[c.ti].data[c.row[c.ti].tail] == x
    ensures ChainOk(Push(c, x))
  {
    var d := Push(c, x);
    PushHolds(c.row[c.ti], c.enq, c.base[c.ti], x);
    forall i | 0 <= i < c.ti ensures Holds(d.row[i], d.enq, d.base[i]) {
      LongerHolds(c.row[i], c.enq, c.base[i], x);
    }
    assert forall i :: 0 <= i < |c.row| && i != c.ti ==> d.row[i] == c.row[i];
  }

  /** The producer stores an element in the empty block after the tail block. */
  function Fill(c: Chain): Chain
    requires c.ti + 1 < |c.row|
  {
    c.(row := c.row[c.ti + 1 := WithTail(c.row[c.ti + 1])], pending := true)
  }

  lemma FillKeeps(c: Chain)
    requires ChainOk(c) && !c.pending && c.ti + 1 < |c.row|
    ensures ChainOk(Fill(c)) && Fill(c).row[c.ti + 1].Count() == 1
  {
    var d := Fill(c);
    forall i | 0 <= i <= c.ti ensures Holds(d.row[i], d.enq, d.base[i]) {
      assert Holds(c.row[i], c.enq, c.base[i]);
    }
  }

  /** The producer splices in a block with one element behind the tail block. */
  function Splice(c: Chain, b: Block): Chain
    requires c.ti < |c.row|
  {
    c.(row := c.row[..c.ti + 1] + [b] + c.row[c.ti + 1..], pending := true)
  }

  lemma SpliceKeeps(c: Chain, b: Block)
    requires ChainOk(c) && !c.pending && b.Shaped() && b.Count() == 1
    ensures ChainOk(Splice(c, b))
  {
    SplicedRow(c, b);
    SplicedSpan(c, b);
    SplicedStream(c, Splice(c, b));
  }

  lemma SplicedRow(c: Chain, b: Block)
    requires c.ti < |c.row|
    ensures var row := Splice(c, b).row;
            && |row| == |c.row| + 1
            && forall i :: 0 <= i < |row| ==>
                 row[i] == if i <= c.ti then c.row[i] else if i == c.ti + 1 then b else c.row[i - 1]
  {
  }

  /** The stream does not depend on what follows the tail block. */
  lemma SplicedStream(c: Chain, d: Chain)
    requires RowShaped(c) && StreamOk(c) && RowShaped(d) && d == c.(row := d.row, pending := d.pending)
    requires forall i :: 0 <= i <= c.ti ==> d.row[i] == c.row[i]
    ensures StreamOk(d)
  {
    forall i | 0 <= i <= c.ti ensures Holds(d.row[i], d.enq, d.base[i]) {
      assert Holds(c.row[i], c.enq, c.base[i]);
    }
  }

  lemma SplicedSpan(c: Chain, b: Block)
    requires RowShaped(c) && SpanOk(c) && ShadowsOk(c) && !c.pending && b.Shaped() && b.Count() == 1
    ensures RowShaped(Splice(c, b)) && SpanOk(Splice(c, b)) && ShadowsOk(Splice(c, b))
  {
    SplicedRow(c, b);
  }

  /** The producer moves the tail to the next block and so makes its element visible. */
  function Publish(c: Chain, x: int): Chain {
    c.(ti := c.ti + 1, base := c.base + [|c.enq|], enq := c.enq + [x], pending := false)
  }

  lemma PublishKeeps(c: Chain, x: int)
    requires ChainOk(c) && c.pending && (c.ti > 0 ==> c.row[c.ti].Full())
    requires var b := c.row[c.ti + 1]; b.localFront == b.front && b.At(0) == x
    ensures ChainOk(Publish(c, x))
  {
    PublishedStream(c, x);
    PublishedSpan(c, x);
  }

  lemma PublishedStream(c: Chain, x: int)
    requires RowShaped(c) && StreamOk(c) && c.ti + 1 < |c.row| && c.row[c.ti + 1].Count() == 1 && c.row[c.ti + 1].At(0) == x
    ensures RowShaped(Publish(c, x)) && StreamOk(Publish(c, x))
  {
    var d := Publish(c, x);
    forall i | 0 <= i <= d.ti ensures Holds(d.row[i], d.enq, d.base[i]) {
      if i <= c.ti {
        LongerHolds(c.row[i], c.enq, c.base[i], x);
      }
    }
  }

  lemma PublishedSpan(c: Chain, x: int)
    requires RowShaped(c) && SpanOk(c) && ShadowsOk(c) && c.pending && (c.ti > 0 ==> c.row[c.ti].Full())
    requires var b := c.row[c.ti + 1]; b.localFront == b.front
    ensures RowShaped(Publish(c, x)) && SpanOk(Publish(c, x)) && ShadowsOk(Publish(c, x))
  {
  }

  /** The consumer gives up the first element. */
  function Pop(c: Chain, x: int): Chain
    requires c.row != [] && c.base != []
  {
    c.(row := c.row[0 := WithFront(c.row[0])], base := c.base[0 := c.base[0] + 1], deq := c.deq + [x])
  }

  lemma PopKeeps(c: Chain, x: int)
    requires ChainOk(c) && c.row[0].Seen() >= 1 && c.row[0].At(0) == x
    ensures |c.deq| < |c.enq| && x == c.enq[|c.deq|]
    ensures ChainOk(Pop(c, x))
  {
    assert Holds(c.row[0], c.enq, c.base[0]);
    PopHolds(c.row[0], c.enq, c.base[0]);
    PoppedStream(c, x);
    PoppedSpan(c, x);
  }

  lemma PoppedStream(c: Chain, x: int)
    requires RowShaped(c) && StreamOk(c) && c.row[0].Count() >= 1 && c.row[0].At(0) == x
    ensures RowShaped(Pop(c, x)) && StreamOk(Pop(c, x))
  {
    var d := Pop(c, x);
    assert Holds(c.row[0], c.enq, c.base[0]);
    PopHolds(c.row[0], c.enq, c.base[0]);
    assert forall i :: 0 < i < |c.row| ==> d.row[i] == c.row[i];
    assert forall i :: 0 < i <= c.ti ==> d.base[i] == c.base[i];
    forall i | 0 <= i <= d.ti ensures Holds(d.row[i], d.enq, d.base[i]) {
      assert i > 0 ==> Holds(c.row[i], c.enq, c.base[i]);
    }
  }

  lemma PoppedSpan(c: Chain, x: int)
    requires RowShaped(c) && SpanOk(c) && ShadowsOk(c) && c.row[0].Seen() >= 1 && c.base != []
    requires WithFront(c.row[0]).Shaped() && WithFront(c.row[0]).Count() == c.row[0].Count() - 1
    ensures RowShaped(Pop(c, x)) && SpanOk(Pop(c, x)) && ShadowsOk(Pop(c, x))
  {
    assert forall i :: 0 < i < |c.row| ==> Pop(c, x).row[i] == c.row[i];
  }

  /** The consumer leaves an empty front block. */
  function Rotate(c: Chain): Chain
    requires c.row != [] && c.base != [] && c.ti > 0
  {
    c.(row := c.row[1..] + [c.row[0]], ti := c.ti - 1, base := c.base[1..])
  }

  lemma RotateKeeps(c: Chain)
    requires ChainOk(c) && c.ti > 0 && c.row[0].Count() == 0 && c.row[1].Seen() <= c.row[1].Count()
    ensures ChainOk(Rotate(c))
  {
    RotatedStream(c);
    RotatedSpan(c);
  }

  lemma RotatedStream(c: Chain)
    requires RowShaped(c) && StreamOk(c) && c.ti > 0 && c.row[0].Count() == 0
    ensures RowShaped(Rotate(c)) && StreamOk(Rotate(c))
  {
    var d := Rotate(c);
    forall i | 0 <= i <= d.ti ensures Holds(d.row[i], d.enq, d.base[i]) {
      assert Holds(c.row[i + 1], c.enq, c.base[i + 1]);
    }
    assert c.base[1] == c.base[0] + c.row[0].Count();
    forall i, j | 0 <= i < d.ti && j == i + 1 ensures d.base[j] == d.base[i] + d.row[i].Count() {
      assert c.base[j + 1] == c.base[i + 1] + c.row[i + 1].Count();
    }
  }

  lemma RotatedSpan(c: Chain)
    requires RowShaped(c) && SpanOk(c) && ShadowsOk(c) && c.base != [] && c.ti > 0
    requires c.row[0].Count() == 0 && c.row[1].Seen() <= c.row[1].Count()
    ensures RowShaped(Rotate(c)) && SpanOk(Rotate(c)) && ShadowsOk(Rotate(c))
  {
  }

  // ----- What each thread knows about the chain -----

  /** Once the producer found the tail block full, it stays so unless it is the front block. */
  ghost predicate TailSeenFull(c: Chain, fullSeen: bool)
    requires RowShaped(c)
  {
    && (c.ti > 0 ==> c.row[c.ti].Full())
    && (|c.row| == 1 ==> fullSeen)
  }

  /** There is an empty block, refreshed by the producer, after the tail block. */
  ghost predicate NextEmpty(c: Chain)
    requires RowShaped(c)
  {
    && !c.pending && c.ti + 1 < |c.row|
    && var b := c.row[c.ti + 1]; b.tail == b.front == b.localFront
  }

  ghost predicate ProdChain(c: Chain, prod: Prod, fullSeen: bool)
    requires RowShaped(c)
  {
    var tail := c.row[c.ti];
    var room := tail.Used() < tail.size - 1;
    && (c.pending <==> prod.pc.PStoreTailBlock?)
    && match prod.pc
       case PIdle => true
       case PStart => true
       case PLoadTail(_) => true
       case PLoadFront(_, bt) => bt == tail.tail
       case PConstruct(_, bt) => bt == tail.tail && room
       case PStoreTail(_, bt) => bt == tail.tail && room && tail.data[bt] == prod.elem
       case PLoadNext(_) => TailSeenFull(c, fullSeen)
       case PLoadFrontBlock(_, _) => TailSeenFull(c, fullSeen)
       case PLoadNextAgain(_) => TailSeenFull(c, fullSeen) && c.ti + 1 < |c.row|
       case PLoadNextFront(_) => TailSeenFull(c, fullSeen) && c.ti + 1 < |c.row|
       case PLoadNextTail(_, nf) => TailSeenFull(c, fullSeen) && NextEmpty(c) && nf == c.row[c.ti + 1].tail
       case PConstructNext(_, nt) => TailSeenFull(c, fullSeen) && NextEmpty(c) && nt == c.row[c.ti + 1].tail
       case PStoreNextTail(_, nt) =>
         TailSeenFull(c, fullSeen) && NextEmpty(c) && nt == c.row[c.ti + 1].tail && c.row[c.ti + 1].data[nt] == prod.elem
       case PStoreTailBlock(_) =>
         && TailSeenFull(c, fullSeen) && c.ti + 1 < |c.row|
         && var b := c.row[c.ti + 1]; b.localFront == b.front && b.data[b.front] == prod.elem
       case PAlloc(_) => TailSeenFull(c, fullSeen)
       case PLinkNew(_, _) => TailSeenFull(c, fullSeen)
       case PStoreNext(_, _) => TailSeenFull(c, fullSeen)
  }

  ghost predicate ConsChain(c: Chain, cons: Cons, emptySeen: bool)
    requires RowShaped(c)
  {
    var front := c.row[0];
    var ready := front.Seen() >= 1;
    var left := c.ti > 0 && front.Count() == 0;
    match cons.pc
    case CIdle => true
    case CStart => true
    case CLoadFront(_) => true
    case CLoadTail(_, bf) => bf == front.front
    case CRead(_, bf) => bf == front.front && ready
    case CStoreFront(_, bf) => cons.kind.Dequeue? && bf == front.front && ready && cons.value == front.data[bf]
    case CLoadTailBlock(_) => c.ti == 0 ==> emptySeen
    case CReloadFrontBlock => c.ti > 0
    case CReloadTail(_) => c.ti > 0
    case CReloadFront(_, bt) => c.ti > 0 && bt == front.tail == front.localTail
    case CLoadNext(_) => left
    case CLoadNextFront(_) => left
    case CLoadNextTail(_, nf) => left && nf == c.row[1].front
    case CStoreFrontBlock(_, nf) =>
      cons.kind.Dequeue? && left && nf == c.row[1].front && 1 <= c.row[1].Seen() <= c.row[1].Count()
    case CReadNext(_, nf) => cons.kind.Dequeue? && nf == front.front && ready
    case CStoreNextFront(_, nf) => cons.kind.Dequeue? && nf == front.front && ready && cons.value == front.data[nf]
  }

  /** All the producer ever does to the blocks the consumer looks at. */
  ghost predicate ProducerMoves(c: Chain, d: Chain)
    requires RowShaped(c) && RowShaped(d)
  {
    && |c.row| <= |d.row| && c.ti <= d.ti
    && forall p :: 0 <= p <= c.ti ==>
         var b, e := c.row[p], d.row[p];
         && e.front == b.front && e.localTail == b.localTail && e.size == b.size && b.Count() <= e.Count()
         && (b.Count() >= 1 ==> e.data[b.front] == b.data[b.front])
         && (p < c.ti ==> e.tail == b.tail)
  }

  lemma ConsumerUndisturbed(c: Chain, d: Chain, cons: Cons, emptySeen: bool, emptySeen': bool)
    requires ChainOk(c) && RowShaped(d) && ProducerMoves(c, d) && (emptySeen ==> emptySeen')
    requires ConsChain(c, cons, emptySeen)
    ensures ConsChain(d, cons, emptySeen')
  {
  }

  /** All the consumer ever does to the blocks the producer looks at. */
  ghost predicate ConsumerMoves(c: Chain, d: Chain)
    requires RowShaped(c) && RowShaped(d)
  {
    && |d.row| == |c.row| && d.ti <= c.ti && d.pending == c.pending
    && (var b, e := c.row[c.ti], d.row[d.ti];
        && e.tail == b.tail && e.localFront == b.localFront && e.size == b.size && e.data == b.data
        && (d.ti > 0 ==> e.front == b.front))
    && (c.ti + 1 < |c.row| ==>
          && d.ti + 1 < |d.row|
          && var b, e := c.row[c.ti + 1], d.row[d.ti + 1];
          SameElements(b, e) && e.localFront == b.localFront)
  }

  lemma ProducerUndisturbed(c: Chain, d: Chain, prod: Prod, fullSeen: bool, fullSeen': bool)
    requires ChainOk(c) && RowShaped(d) && ConsumerMoves(c, d) && (fullSeen ==> fullSeen')
    requires ProdChain(c, prod, fullSeen)
    ensures ProdChain(d, prod, fullSeen')
  {
  }

  // ----- From pointers to the chain -----

  function Following(q: Queue, i: nat): nat { if i + 1 < |q.ring| then i + 1 else 0 }

  function Id(q: Queue, i: nat): nat
    requires i < |q.ring|
  {
    q.ring[i]
  }

  function NextOf(q: Queue, i: nat): nat
    requires i < |q.ring| && Id(q, i) < |q.blocks|
  {
    q.blocks[Id(q, i)].next
  }

  /** Everything about the ring except the next pointers. */
  ghost predicate RingShape(q: Queue) {
    && q.ti < |q.ring|
    && (forall i {:trigger Id(q, i)} :: 0 <= i < |q.ring| ==> Id(q, i) < |q.blocks|)
    && (forall i, j {:trigger Id(q, i), Id(q, j)} :: 0 <= i < j < |q.ring| ==> Id(q, i) != Id(q, j))
    && Id(q, 0) == q.frontBlock && Id(q, q.ti) == q.tailBlock
  }

  /** The ring of blocks: who is next to whom, and where the two ends are. */
  ghost predicate RingOk(q: Queue) {
    && RingShape(q)
    && (forall i {:trigger NextOf(q, i)} :: 0 <= i < |q.ring| && Id(q, i) < |q.blocks| ==>
          NextOf(q, i) == Id(q, Following(q, i)))
  }

  /** A block without its pointer. */
  function Bare(b: Block): Block { b.(next := 0) }

  ghost function Row(q: Queue): seq<Block>
    requires forall i {:trigger Id(q, i)} :: 0 <= i < |q.ring| ==> Id(q, i) < |q.blocks|
  {
    seq(|q.ring|, i requires 0 <= i < |q.ring| => Bare(q.blocks[Id(q, i)]))
  }

  ghost function ChainOf(q: Queue): Chain
    requires RingShape(q)
  {
    Chain(Row(q), q.ti, q.base, q.enq, q.deq, q.pending)
  }

  /** How much each block holds, and that all blocks but one hold what the constructor was asked for. */
  ghost predicate CapacityOk(q: Queue)
    requires RingShape(q)
  {
    && (forall i :: 0 <= i < |q.ring| ==> q.unit < Row(q)[i].size)
    && q.unit < q.largest && 2 <= q.largest
    && (if |q.ring| == 1 then q.unit >= q.requested else (|q.ring| - 1) * q.unit >= q.requested)
  }

  ghost predicate QueueOk(q: Queue) {
    RingOk(q) && ChainOk(ChainOf(q)) && CapacityOk(q)
  }

  /** Changing one block of the ring, but not its pointer, changes one block of the row. */
  lemma SetBlock(q: Queue, r: Queue, p: nat, b: Block)
    requires RingOk(q) && p < |q.ring| && b.next == NextOf(q, p)
    requires r.blocks == q.blocks[Id(q, p) := b] && r.ring == q.ring && r.ti == q.ti
    requires r.frontBlock == q.frontBlock && r.tailBlock == q.tailBlock
    ensures RingOk(r) && Row(r) == Row(q)[p := Bare(b)]
  {
    assert forall i {:trigger Id(r, i)} :: 0 <= i < |r.ring| ==> Id(r, i) == Id(q, i);
    forall i | 0 <= i < |r.ring| ensures NextOf(r, i) == Id(r, Following(r, i)) {
      assert NextOf(r, i) == NextOf(q, i);
    }
    assert forall i :: 0 <= i < |r.ring| ==> Row(r)[i] == Row(q)[p := Bare(b)][i];
  }

  /** Changing a block outside the ring, or adding one, changes nothing in the row. */
  lemma OutsideBlock(q: Queue, r: Queue)
    requires RingOk(q) && |q.blocks| <= |r.blocks| && r.ring == q.ring && r.ti == q.ti
    requires r.frontBlock == q.frontBlock && r.tailBlock == q.tailBlock
    requires forall i {:trigger Id(q, i)} :: 0 <= i < |q.ring| ==> r.blocks[Id(q, i)] == q.blocks[Id(q, i)]
    ensures RingOk(r) && Row(r) == Row(q)
  {
    assert forall i {:trigger Id(r, i)} :: 0 <= i < |r.ring| ==> Id(r, i) == Id(q, i);
    forall i | 0 <= i < |r.ring| ensures NextOf(r, i) == Id(r, Following(r, i)) {
      assert NextOf(r, i) == NextOf(q, i);
    }
    assert forall i :: 0 <= i < |r.ring| ==> Row(r)[i] == Row(q)[i];
  }

  /** r is q with block nb linked in behind the tail block. */
  ghost predicate Spliced(q: Queue, r: Queue, nb: nat) {
    && RingShape(q) && nb < |q.blocks| && nb !in q.ring
    && r.blocks == q.blocks[q.tailBlock := q.blocks[q.tailBlock].(next := nb)]
    && r.ring == q.ring[..q.ti + 1] + [nb] + q.ring[q.ti + 1..] && r.ti == q.ti
    && r.frontBlock == q.frontBlock && r.tailBlock == q.tailBlock
  }

  lemma SplicedIds(q: Queue, r: Queue, nb: nat)
    requires Spliced(q, r, nb)
    ensures forall i {:trigger Id(r, i)} :: 0 <= i < |r.ring| ==>
              Id(r, i) == if i <= q.ti then Id(q, i) else if i == q.ti + 1 then nb else Id(q, i - 1)
    ensures forall i {:trigger Id(q, i)} :: 0 <= i < |q.ring| ==> Id(q, i) != nb
  {
  }

  lemma SpliceRow(q: Queue, r: Queue, nb: nat)
    requires Spliced(q, r, nb) && RingShape(r)
    ensures Row(r) == Row(q)[..q.ti + 1] + [Bare(q.blocks[nb])] + Row(q)[q.ti + 1..]
  {
    SplicedIds(q, r, nb);
    var row := Row(q)[..q.ti + 1] + [Bare(q.blocks[nb])] + Row(q)[q.ti + 1..];
    assert forall i :: 0 <= i < |r.ring| ==> Row(r)[i] == row[i];
  }

  lemma SplicedNext(q: Queue, r: Queue, nb: nat, i: nat)
    requires RingOk(q) && Spliced(q, r, nb) && RingShape(r) && i < |r.ring|
    requires q.blocks[nb].next == Id(q, Following(q, q.ti))
    ensures NextOf(r, i) == Id(r, Following(r, i))
  {
    SplicedIds(q, r, nb);
    var j := if i <= q.ti then i else i - 1;
    assert NextOf(q, j) == Id(q, Following(q, j));
  }

  lemma SpliceRing(q: Queue, r: Queue, nb: nat)
    requires RingOk(q) && Spliced(q, r, nb) && q.blocks[nb].next == Id(q, Following(q, q.ti))
    ensures RingOk(r)
    ensures Row(r) == Row(q)[..q.ti + 1] + [Bare(q.blocks[nb])] + Row(q)[q.ti + 1..]
  {
    SplicedIds(q, r, nb);
    assert RingShape(r);
    SpliceRow(q, r, nb);
    forall i | 0 <= i < |r.ring| ensures NextOf(r, i) == Id(r, Following(r, i)) {
      SplicedNext(q, r, nb, i);
    }
  }

  lemma RotateRing(q: Queue, r: Queue)
    requires RingOk(q) && q.ti > 0
    requires r.blocks == q.blocks && r.ring == q.ring[1..] + [q.ring[0]] && r.ti == q.ti - 1
    requires r.frontBlock == Id(q, 1) && r.tailBlock == q.tailBlock
    ensures RingOk(r) && Row(r) == Row(q)[1..] + [Row(q)[0]]
  {
    assert forall i {:trigger Id(r, i)} :: 0 <= i < |r.ring| ==> Id(r, i) == Id(q, Following(q, i));
    assert RingShape(r);
    forall i | 0 <= i < |r.ring| ensures NextOf(r, i) == Id(r, Following(r, i)) {
      var j := Following(q, i);
      assert NextOf(q, j) == Id(q, Following(q, j));
    }
    RotateRow(q, r);
  }

  lemma RotateRow(q: Queue, r: Queue)
    requires RingShape(q) && RingShape(r) && r.blocks == q.blocks && r.ring == q.ring[1..] + [q.ring[0]]
    ensures Row(r) == Row(q)[1..] + [Row(q)[0]]
  {
    var row := Row(q)[1..] + [Row(q)[0]];
    assert forall i {:trigger Id(r, i)} :: 0 <= i < |r.ring| ==> Id(r, i) == Id(q, Following(q, i));
    assert forall i :: 0 <= i < |r.ring| ==> Row(r)[i] == row[i];
  }

  // ----- What each access to memory does to the chain -----

  lemma PutRing(q: Queue, r: Queue, p: nat, b: Block)
    requires RingOk(q) && CapacityOk(q) && p < |q.ring|
    requires b.next == NextOf(q, p) && b.size == q.blocks[Id(q, p)].size
    requires r == Put(q, Id(q, p), b).(base := r.base, enq := r.enq, deq := r.deq, pending := r.pending)
    ensures RingOk(r) && Row(r) == Row(q)[p := Bare(b)] && CapacityOk(r)
  {
    SetBlock(q, r, p, b);
  }

  /** The producer may change slots and shadow of the tail block or a later one. */
  lemma SetMovesProducer(c: Chain, p: nat, b: Block)
    requires RowShaped(c) && c.ti <= p < |c.row| && b.Shaped()
    requires b.front == c.row[p].front && b.tail == c.row[p].tail && b.size == c.row[p].size && b.localTail == c.row[p].localTail
    requires c.row[p].Count() >= 1 ==> b.data[b.front] == c.row[p].data[b.front]
    ensures ProducerMoves(c, Set(c, p, b))
  {
  }

  lemma PushMoves(c: Chain, x: int)
    requires RowShaped(c) && !c.row[c.ti].Full()
    ensures RowShaped(Push(c, x)) && ProducerMoves(c, Push(c, x))
  {
  }

  lemma FillMoves(c: Chain)
    requires RowShaped(c) && c.ti + 1 < |c.row|
    ensures RowShaped(Fill(c)) && ProducerMoves(c, Fill(c))
  {
  }

  lemma PublishMoves(c: Chain, x: int)
    requires RowShaped(c) && c.ti + 1 < |c.row|
    ensures ProducerMoves(c, Publish(c, x))
  {
  }

  lemma SpliceMoves(c: Chain, b: Block)
    requires RowShaped(c) && b.Shaped()
    ensures RowShaped(Splice(c, b)) && ProducerMoves(c, Splice(c, b))
  {
  }

  lemma RefreshTailMoves(c: Chain, p: nat)
    requires RowShaped(c) && p < |c.row|
    ensures ConsumerMoves(c, Set(c, p, RefreshTail(c.row[p])))
  {
  }

  lemma PopMoves(c: Chain, x: int)
    requires RowShaped(c) && c.base != []
    ensures RowShaped(Pop(c, x)) && ConsumerMoves(c, Pop(c, x))
  {
  }

  lemma RotateMoves(c: Chain)
    requires RowShaped(c) && c.base != [] && c.ti > 0
    ensures RowShaped(Rotate(c)) && ConsumerMoves(c, Rotate(c))
  {
  }

  lemma RefreshFrontStep(q: Queue, p: nat)
    requires QueueOk(q) && q.ti <= p < |q.ring|
    ensures var r := Put(q, Id(q, p), RefreshFront(q.blocks[Id(q, p)]));
            && QueueOk(r) && ChainOf(r) == Set(ChainOf(q), p, RefreshFront(Row(q)[p]))
            && ProducerMoves(ChainOf(q), ChainOf(r))
  {
    PutRing(q, Put(q, Id(q, p), RefreshFront(q.blocks[Id(q, p)])), p, RefreshFront(q.blocks[Id(q, p)]));
    RefreshLocalFront(ChainOf(q), p);
    SetMovesProducer(ChainOf(q), p, RefreshFront(Row(q)[p]));
  }

  lemma ConstructStep(q: Queue, p: nat, x: int)
    requires QueueOk(q) && q.ti <= p < |q.ring| && !Row(q)[p].Full()
    ensures var b := q.blocks[Id(q, p)];
            var r := Put(q, Id(q, p), WithSlot(b, b.tail, x));
            && QueueOk(r) && ChainOf(r) == Set(ChainOf(q), p, WithSlot(Row(q)[p], b.tail, x))
            && ProducerMoves(ChainOf(q), ChainOf(r))
  {
    var b, c := q.blocks[Id(q, p)], ChainOf(q);
    assert c.row[p] == Bare(b);
    var r := Put(q, Id(q, p), WithSlot(b, b.tail, x));
    PutRing(q, r, p, WithSlot(b, b.tail, x));
    var d := Set(c, p, WithSlot(c.row[p], b.tail, x));
    assert ChainOk(d) && ProducerMoves(c, d) by {
      ConstructKeeps(c, p, x);
      SetMovesProducer(c, p, WithSlot(c.row[p], b.tail, x));
    }
    assert ChainOf(r) == d;
  }

  lemma StoreTailStep(q: Queue, x: int)
    requires QueueOk(q)
    requires var b := Row(q)[q.ti]; b.Used() < b.size - 1 && b.data[b.tail] == x
    ensures var r := StoreTail(q, q.tailBlock, q.blocks[q.tailBlock].tail, x);
            QueueOk(r) && ChainOf(r) == Push(ChainOf(q), x) && ProducerMoves(ChainOf(q), ChainOf(r))
  {
    var b := q.blocks[q.tailBlock];
    assert Row(q)[q.ti] == Bare(b);
    PutRing(q, StoreTail(q, q.tailBlock, b.tail, x), q.ti, WithTail(b));
    PushKeeps(ChainOf(q), x);
    PushMoves(ChainOf(q), x);
  }

  lemma StoreNextTailStep(q: Queue)
    requires QueueOk(q) && !q.pending && q.ti + 1 < |q.ring|
    ensures var nb := Id(q, q.ti + 1);
            var r := StoreNextTail(q, nb, q.blocks[nb].tail);
            QueueOk(r) && ChainOf(r) == Fill(ChainOf(q)) && ProducerMoves(ChainOf(q), ChainOf(r))
  {
    var b := q.blocks[Id(q, q.ti + 1)];
    assert Row(q)[q.ti + 1] == Bare(b);
    PutRing(q, StoreNextTail(q, Id(q, q.ti + 1), b.tail), q.ti + 1, WithTail(b));
    FillKeeps(ChainOf(q));
    FillMoves(ChainOf(q));
  }

  lemma StoreTailBlockStep(q: Queue, x: int)
    requires QueueOk(q) && q.pending && (q.ti > 0 ==> Row(q)[q.ti].Full())
    requires q.ti + 1 < |q.ring| && var b := Row(q)[q.ti + 1]; b.localFront == b.front && b.data[b.front] == x
    ensures var r := StoreTailBlock(q, Id(q, q.ti + 1), x);
            QueueOk(r) && ChainOf(r) == Publish(ChainOf(q), x) && ProducerMoves(ChainOf(q), ChainOf(r))
  {
    PublishRing(q, StoreTailBlock(q, Id(q, q.ti + 1), x));
    PublishKeeps(ChainOf(q), x);
    PublishMoves(ChainOf(q), x);
  }

  lemma PublishRing(q: Queue, r: Queue)
    requires RingOk(q) && CapacityOk(q) && q.ti + 1 < |q.ring|
    requires r == q.(tailBlock := Id(q, q.ti + 1), ti := q.ti + 1, base := r.base, enq := r.enq, pending := r.pending)
    ensures RingOk(r) && Row(r) == Row(q) && CapacityOk(r)
  {
    assert forall i {:trigger Id(r, i)} :: 0 <= i < |r.ring| ==> Id(r, i) == Id(q, i);
    forall i | 0 <= i < |r.ring| ensures NextOf(r, i) == Id(r, Following(r, i)) {
      assert NextOf(r, i) == NextOf(q, i);
    }
    assert forall i :: 0 <= i < |r.ring| ==> Row(r)[i] == Row(q)[i];
  }

  lemma StoreNextStep(q: Queue, nb: nat)
    requires QueueOk(q) && !q.pending && nb < |q.blocks| && nb !in q.ring
    requires var b := q.blocks[nb]; b.Shaped() && b.Count() == 1 && q.unit < b.size && b.next == Id(q, Following(q, q.ti))
    ensures var r := StoreNext(q, q.tailBlock, nb);
            QueueOk(r) && ChainOf(r) == Splice(ChainOf(q), Bare(q.blocks[nb])) && ProducerMoves(ChainOf(q), ChainOf(r))
  {
    var r := StoreNext(q, q.tailBlock, nb);
    SpliceRing(q, r, nb);
    SpliceCapacity(q, r, nb);
    SpliceKeeps(ChainOf(q), Bare(q.blocks[nb]));
    SpliceMoves(ChainOf(q), Bare(q.blocks[nb]));
  }

  lemma SpliceCapacity(q: Queue, r: Queue, nb: nat)
    requires RingShape(q) && RingShape(r) && CapacityOk(q) && nb < |q.blocks| && q.unit < q.blocks[nb].size
    requires Row(r) == Row(q)[..q.ti + 1] + [Bare(q.blocks[nb])] + Row(q)[q.ti + 1..]
    requires r.unit == q.unit && r.largest == q.largest && r.requested == q.requested
    ensures CapacityOk(r)
  {
    assert |Row(r)| == |q.ring| + 1;
    assert |q.ring| * q.unit == (|q.ring| - 1) * q.unit + q.unit;
  }

  lemma RefreshTailStep(q: Queue, p: nat)
    requires QueueOk(q) && p < |q.ring|
    ensures var r := Put(q, Id(q, p), RefreshTail(q.blocks[Id(q, p)]));
            && QueueOk(r) && ChainOf(r) == Set(ChainOf(q), p, RefreshTail(Row(q)[p]))
            && ConsumerMoves(ChainOf(q), ChainOf(r))
  {
    PutRing(q, Put(q, Id(q, p), RefreshTail(q.blocks[Id(q, p)])), p, RefreshTail(q.blocks[Id(q, p)]));
    RefreshLocalTail(ChainOf(q), p);
    RefreshTailMoves(ChainOf(q), p);
  }

  lemma StoreFrontStep(q: Queue, x: int)
    requires QueueOk(q) && Row(q)[0].Seen() >= 1 && Row(q)[0].data[Row(q)[0].front] == x
    ensures var r := StoreFront(q, q.frontBlock, q.blocks[q.frontBlock].front, x);
            && QueueOk(r) && ChainOf(r) == Pop(ChainOf(q), x) && ConsumerMoves(ChainOf(q), ChainOf(r))
            && |q.deq| < |q.enq| && x == q.enq[|q.deq|]
  {
    var b := q.blocks[q.frontBlock];
    assert Row(q)[0] == Bare(b);
    PutRing(q, StoreFront(q, q.frontBlock, b.front, x), 0, WithFront(b));
    PopKeeps(ChainOf(q), x);
    PopMoves(ChainOf(q), x);
  }

  lemma StoreFrontBlockStep(q: Queue)
    requires QueueOk(q) && q.ti > 0 && Row(q)[0].Count() == 0 && Row(q)[1].Seen() <= Row(q)[1].Count()
    ensures var r := StoreFrontBlock(q, Id(q, 1));
            QueueOk(r) && ChainOf(r) == Rotate(ChainOf(q)) && ConsumerMoves(ChainOf(q), ChainOf(r))
  {
    var r := StoreFrontBlock(q, Id(q, 1));
    RotateRing(q, r);
    RotateCapacity(q, r);
    RotateKeeps(ChainOf(q));
    RotateMoves(ChainOf(q));
  }

  lemma RotateCapacity(q: Queue, r: Queue)
    requires RingShape(q) && RingShape(r) && CapacityOk(q) && Row(r) == Row(q)[1..] + [Row(q)[0]]
    requires r.unit == q.unit && r.largest == q.largest && r.requested == q.requested
    ensures CapacityOk(r)
  {
    assert |Row(r)| == |Row(q)|;
  }

  // ----- The invariant -----

  /** A block outside the ring that holds just the element being enqueued. */
  ghost predicate FreshBlock(q: Queue, nb: nat, elem: int) {
    && nb < |q.blocks| && nb !in q.ring
    && var b := q.blocks[nb];
    && b.Shaped() && b.front == b.localFront == 0 && b.tail == 1 && q.unit < b.size && b.data[0] == elem
  }

  /** The blocks the producer holds pointers to are the ones it believes. */
  ghost predicate ProdIds(q: Queue, prod: Prod)
    requires RingShape(q)
  {
    var nextId := Id(q, Following(q, q.ti));
    match prod.pc
    case PIdle => true
    case PStart => true
    case PLoadTail(tb) => tb == q.tailBlock
    case PLoadFront(tb, _) => tb == q.tailBlock
    case PConstruct(tb, _) => tb == q.tailBlock
    case PStoreTail(tb, _) => tb == q.tailBlock
    case PLoadNext(tb) => tb == q.tailBlock
    case PLoadFrontBlock(tb, next) => tb == q.tailBlock && next == nextId
    case PLoadNextAgain(tb) => tb == q.tailBlock
    case PLoadNextFront(nb) => nb == nextId
    case PLoadNextTail(nb, _) => nb == nextId
    case PConstructNext(nb, _) => nb == nextId
    case PStoreNextTail(nb, _) => nb == nextId
    case PStoreTailBlock(nb) => nb == nextId
    case PAlloc(tb) => tb == q.tailBlock
    case PLinkNew(tb, nb) => tb == q.tailBlock && FreshBlock(q, nb, prod.elem)
    case PStoreNext(tb, nb) => tb == q.tailBlock && FreshBlock(q, nb, prod.elem) && q.blocks[nb].next == nextId
  }

  ghost predicate ConsIds(q: Queue, cons: Cons)
    requires RingShape(q)
  {
    var next := if q.ti > 0 then Id(q, 1) else q.frontBlock;
    match cons.pc
    case CIdle => true
    case CStart => true
    case CLoadFront(fb) => fb == q.frontBlock
    case CLoadTail(fb, _) => fb == q.frontBlock
    case CRead(fb, _) => fb == q.frontBlock
    case CStoreFront(fb, _) => fb == q.frontBlock
    case CLoadTailBlock(fb) => fb == q.frontBlock
    case CReloadFrontBlock => true
    case CReloadTail(fb) => fb == q.frontBlock
    case CReloadFront(fb, _) => fb == q.frontBlock
    case CLoadNext(fb) => fb == q.frontBlock
    case CLoadNextFront(nb) => nb == next
    case CLoadNextTail(nb, _) => nb == next
    case CStoreFrontBlock(nb, _) => nb == next
    case CReadNext(nb, _) => nb == q.frontBlock
    case CStoreNextFront(nb, _) => nb == q.frontBlock
  }

  ghost predicate ProdOk(q: Queue, prod: Prod, fullSeen: bool)
    requires RingShape(q) && RowShaped(ChainOf(q))
  {
    ProdIds(q, prod) && ProdChain(ChainOf(q), prod, fullSeen)
  }

  ghost predicate ConsOk(q: Queue, cons: Cons, emptySeen: bool)
    requires RingShape(q) && RowShaped(ChainOf(q))
  {
    ConsIds(q, cons) && ConsChain(ChainOf(q), cons, emptySeen)
  }

  ghost predicate SeenOk(s: State) {
    && (!s.cons.pc.CIdle? && Queued(s.q) == 0 ==> s.emptySeen)
    && (!s.prod.pc.PIdle? && Queued(s.q) >= s.q.requested ==> s.fullSeen)
  }

  ghost predicate Inv(s: State) {
    && QueueOk(s.q) && SeenOk(s)
    && ProdOk(s.q, s.prod, s.fullSeen) && ConsOk(s.q, s.cons, s.emptySeen)
  }

  // ----- Producer steps keep the invariant -----

  /** What a producer step establishes itself. */
  ghost predicate ProducerStepped(s: State, t: State)
    requires QueueOk(s.q)
  {
    && QueueOk(t.q) && ProdOk(t.q, t.prod, t.fullSeen)
    && ProducerMoves(ChainOf(s.q), ChainOf(t.q))
    && t.q.frontBlock == s.q.frontBlock && (s.q.ti > 0 ==> Id(t.q, 1) == Id(s.q, 1))
    && t.cons == s.cons && t.emptySeen == s.emptySeen && t.fullSeen == s.fullSeen
  }

  lemma ConsumerIdsKept(s: State, t: State)
    requires QueueOk(s.q) && ConsOk(s.q, s.cons, s.emptySeen) && ProducerStepped(s, t)
    ensures ConsIds(t.q, s.cons)
  {
  }

  /** The consumer's side follows. */
  lemma CloseProducer(s: State, t: State)
    requires QueueOk(s.q) && ConsOk(s.q, s.cons, s.emptySeen) && ProducerStepped(s, t)
    ensures Inv(Observe(t))
  {
    ConsumerIdsKept(s, t);
    ConsumerUndisturbed(ChainOf(s.q), ChainOf(t.q), s.cons, s.emptySeen, Observe(t).emptySeen);
    ProducerMoreSeen(ChainOf(t.q), t.prod, t.fullSeen, Observe(t).fullSeen);
  }

  lemma ProducerMoreSeen(c: Chain, prod: Prod, fullSeen: bool, fullSeen': bool)
    requires RowShaped(c) && ProdChain(c, prod, fullSeen) && (fullSeen ==> fullSeen')
    ensures ProdChain(c, prod, fullSeen')
  {
  }

  lemma RowAt(q: Queue, p: nat)
    requires RingShape(q) && p < |q.ring|
    ensures Row(q)[p] == Bare(BlockAt(q, Id(q, p))) == Bare(q.blocks[Id(q, p)])
  {
  }

  lemma NoMoves(c: Chain)
    requires RowShaped(c)
    ensures ProducerMoves(c, c) && ConsumerMoves(c, c)
  {
  }

  /** A load: only what the producer knows changes. */
  lemma ProduceOnly(s: State, t: State)
    requires QueueOk(s.q) && t == s.(prod := t.prod) && ProdOk(s.q, t.prod, s.fullSeen)
    ensures ProducerStepped(s, t)
  {
    NoMoves(ChainOf(s.q));
  }

  lemma ProduceStart(s: State)
    requires QueueOk(s.q) && ProdOk(s.q, s.prod, s.fullSeen) && s.prod.pc.PStart?
    ensures ProducerStepped(s, ProdStep(s))
  {
    ProduceOnly(s, ProdStep(s));
  }

  lemma TailRead(q: Queue, prod: Prod, fullSeen: bool)
    requires QueueOk(q) && ProdOk(q, prod, fullSeen) && prod.pc.PLoadTail?
    ensures var b := BlockAt(q, prod.pc.tb);
            var full := Inc(b.tail, b.size) == b.localFront;
            var pc := if full then PLoadFront(prod.pc.tb, b.tail) else PConstruct(prod.pc.tb, b.tail);
            ProdOk(q, prod.(pc := pc), fullSeen)
  {
    RowAt(q, q.ti);
  }

  lemma ProduceLoadTail(s: State)
    requires QueueOk(s.q) && ProdOk(s.q, s.prod, s.fullSeen) && s.prod.pc.PLoadTail?
    ensures ProducerStepped(s, ProdStep(s))
  {
    TailRead(s.q, s.prod, s.fullSeen);
    ProduceOnly(s, ProdStep(s));
  }

  lemma ProduceLoadNext(s: State)
    requires QueueOk(s.q) && ProdOk(s.q, s.prod, s.fullSeen) && (s.prod.pc.PLoadNext? || s.prod.pc.PLoadNextAgain?)
    ensures ProducerStepped(s, ProdStep(s))
  {
    assert NextOf(s.q, s.q.ti) == Id(s.q, Following(s.q, s.q.ti));
    ProduceOnly(s, ProdStep(s));
  }

  lemma ProduceLoadFrontBlock(s: State)
    requires QueueOk(s.q) && ProdOk(s.q, s.prod, s.fullSeen) && s.prod.pc.PLoadFrontBlock?
    ensures ProducerStepped(s, ProdStep(s))
  {
    ProduceOnly(s, ProdStep(s));
  }

  /** A single block that is full holds what was asked for. */
  lemma FullAlone(q: Queue)
    requires RingShape(q) && ChainOk(ChainOf(q)) && CapacityOk(q) && |q.ring| == 1 && Row(q)[0].Full()
    ensures Queued(q) >= q.requested
  {
    assert ChainOf(q).base[0] == |q.deq|;
  }

  function AfterFrontRead(pc: ProdPc, b: Block): ProdPc
    requires pc.PLoadFront?
  {
    if Inc(pc.bt, b.size) != b.front then PConstruct(pc.tb, pc.bt) else PLoadNext(pc.tb)
  }

  lemma FrontReadKnown(c: Chain, prod: Prod, fullSeen: bool)
    requires ChainOk(c) && ProdChain(c, prod, fullSeen) && prod.pc.PLoadFront? && (|c.row| == 1 && c.row[0].Full() ==> fullSeen)
    ensures var b := c.row[c.ti];
            ProdChain(Set(c, c.ti, RefreshFront(b)), prod.(pc := AfterFrontRead(prod.pc, b)), fullSeen)
  {
  }

  lemma TailNow(q: Queue, prod: Prod, fullSeen: bool)
    requires RingShape(q) && RowShaped(ChainOf(q)) && ProdOk(q, prod, fullSeen) && prod.pc.PLoadFront?
    ensures prod.pc.tb == Id(q, q.ti) && BlockAt(q, prod.pc.tb) == q.blocks[prod.pc.tb]
    ensures Row(q)[q.ti] == Bare(q.blocks[prod.pc.tb])
  {
  }

  lemma FrontReadProd(q: Queue, r: Queue, prod: Prod, fullSeen: bool)
    requires RingShape(q) && ChainOk(ChainOf(q)) && ProdOk(q, prod, fullSeen) && prod.pc.PLoadFront?
    requires |q.ring| == 1 && Row(q)[0].Full() ==> fullSeen
    requires RingShape(r) && r.ti == q.ti && r.tailBlock == q.tailBlock
    requires ChainOf(r) == Set(ChainOf(q), q.ti, RefreshFront(Row(q)[q.ti])) && RowShaped(ChainOf(r))
    ensures ProdOk(r, prod.(pc := AfterFrontRead(prod.pc, BlockAt(q, prod.pc.tb))), fullSeen)
  {
    TailNow(q, prod, fullSeen);
    FrontReadKnown(ChainOf(q), prod, fullSeen);
  }

  lemma FrontRead(q: Queue, prod: Prod, fullSeen: bool)
    requires QueueOk(q) && ProdOk(q, prod, fullSeen) && prod.pc.PLoadFront? && (Queued(q) >= q.requested ==> fullSeen)
    ensures var b := BlockAt(q, prod.pc.tb);
            var r := Put(q, prod.pc.tb, RefreshFront(b));
            && QueueOk(r) && ProducerMoves(ChainOf(q), ChainOf(r))
            && ProdOk(r, prod.(pc := AfterFrontRead(prod.pc, b)), fullSeen)
  {
    TailNow(q, prod, fullSeen);
    if |q.ring| == 1 && Row(q)[0].Full() {
      FullAlone(q);
    }
    RefreshFrontStep(q, q.ti);
    FrontReadProd(q, Put(q, prod.pc.tb, RefreshFront(BlockAt(q, prod.pc.tb))), prod, fullSeen);
  }

  lemma ProduceLoadFront(s: State)
    requires QueueOk(s.q) && ProdOk(s.q, s.prod, s.fullSeen) && SeenOk(s) && s.prod.pc.PLoadFront?
    ensures ProducerStepped(s, LoadFront(s, s.prod.pc.tb, s.prod.pc.bt))
  {
    FrontRead(s.q, s.prod, s.fullSeen);
  }

  lemma ProduceConstruct(s: State)
    requires QueueOk(s.q) && ProdOk(s.q, s.prod, s.fullSeen) && s.prod.pc.PConstruct?
    ensures ProducerStepped(s, ProdStep(s))
  {
    RowAt(s.q, s.q.ti);
    assert !Row(s.q)[s.q.ti].Full();
    ConstructStep(s.q, s.q.ti, s.prod.elem);
  }

  // What the producer knows after each access to the block after the tail block.

  lemma NextFrontKnown(c: Chain, prod: Prod, fullSeen: bool)
    requires ChainOk(c) && ProdChain(c, prod, fullSeen) && prod.pc.PLoadNextFront?
    ensures var b := c.row[c.ti + 1];
            ProdChain(Set(c, c.ti + 1, RefreshFront(b)), prod.(pc := PLoadNextTail(prod.pc.nb, b.front)), fullSeen)
  {
  }

  lemma NextTailKnown(c: Chain, prod: Prod, fullSeen: bool)
    requires ChainOk(c) && ProdChain(c, prod, fullSeen) && prod.pc.PLoadNextTail?
    ensures var b := c.row[c.ti + 1];
            && prod.pc.nf == b.front == b.tail
            && ProdChain(Set(c, c.ti + 1, RefreshFront(b)), prod.(pc := PConstructNext(prod.pc.nb, b.tail)), fullSeen)
  {
  }

  lemma NextConstructKnown(c: Chain, prod: Prod, fullSeen: bool)
    requires ChainOk(c) && ProdChain(c, prod, fullSeen) && prod.pc.PConstructNext?
    ensures var b := c.row[c.ti + 1];
            && prod.pc.nt == b.tail && !b.Full()
            && ProdChain(Set(c, c.ti + 1, WithSlot(b, b.tail, prod.elem)), prod.(pc := PStoreNextTail(prod.pc.nb, prod.pc.nt)), fullSeen)
  {
  }

  lemma NextFillKnown(c: Chain, prod: Prod, fullSeen: bool)
    requires ChainOk(c) && ProdChain(c, prod, fullSeen) && prod.pc.PStoreNextTail?
    ensures prod.pc.nt == c.row[c.ti + 1].tail
    ensures ProdChain(Fill(c), prod.(pc := PStoreTailBlock(prod.pc.nb)), fullSeen)
  {
  }

  // The accesses to the block after the tail block, on the queue alone.

  function NextBlock(pc: ProdPc): nat
    requires pc.PLoadNextFront? || pc.PLoadNextTail? || pc.PConstructNext? || pc.PStoreNextTail?
  {
    pc.nb
  }

  lemma NextNow(q: Queue, prod: Prod, fullSeen: bool)
    requires RingShape(q) && RowShaped(ChainOf(q)) && ProdOk(q, prod, fullSeen)
    requires prod.pc.PLoadNextFront? || prod.pc.PLoadNextTail? || prod.pc.PConstructNext? || prod.pc.PStoreNextTail?
    ensures q.ti + 1 < |q.ring| && NextBlock(prod.pc) == Id(q, q.ti + 1) < |q.blocks|
    ensures Row(q)[q.ti + 1] == Bare(q.blocks[NextBlock(prod.pc)])
  {
  }

  /** The producer's pointer to the next block stays right while the ring does. */
  lemma NextIds(q: Queue, r: Queue, prod: Prod, pc: ProdPc)
    requires RingShape(q) && RingShape(r) && r.ring == q.ring && r.ti == q.ti && ProdIds(q, prod)
    requires prod.pc.PLoadNextFront? || prod.pc.PLoadNextTail? || prod.pc.PConstructNext? || prod.pc.PStoreNextTail?
    requires pc.PLoadNextTail? || pc.PConstructNext? || pc.PStoreNextTail? || pc.PStoreTailBlock?
    requires pc.nb == NextBlock(prod.pc)
    ensures ProdIds(r, prod.(pc := pc))
  {
  }

  lemma NextFrontProd(q: Queue, r: Queue, prod: Prod, fullSeen: bool)
    requires RingShape(q) && ChainOk(ChainOf(q)) && ProdOk(q, prod, fullSeen) && prod.pc.PLoadNextFront?
    requires q.ti + 1 < |q.ring| && RingShape(r) && r.ring == q.ring && r.ti == q.ti
    requires ChainOf(r) == Set(ChainOf(q), q.ti + 1, RefreshFront(Row(q)[q.ti + 1])) && RowShaped(ChainOf(r))
    ensures ProdOk(r, prod.(pc := PLoadNextTail(prod.pc.nb, q.blocks[prod.pc.nb].front)), fullSeen)
  {
    NextNow(q, prod, fullSeen);
    NextFrontKnown(ChainOf(q), prod, fullSeen);
    NextIds(q, r, prod, PLoadNextTail(prod.pc.nb, q.blocks[prod.pc.nb].front));
  }

  lemma NextFrontLoaded(q: Queue, prod: Prod, fullSeen: bool)
    requires QueueOk(q) && ProdOk(q, prod, fullSeen) && prod.pc.PLoadNextFront?
    ensures var b := q.blocks[prod.pc.nb];
            var r := Put(q, prod.pc.nb, RefreshFront(b));
            && QueueOk(r) && ProducerMoves(ChainOf(q), ChainOf(r))
            && ProdOk(r, prod.(pc := PLoadNextTail(prod.pc.nb, b.front)), fullSeen)
  {
    NextNow(q, prod, fullSeen);
    RefreshFrontStep(q, q.ti + 1);
    NextFrontProd(q, Put(q, prod.pc.nb, RefreshFront(q.blocks[prod.pc.nb])), prod, fullSeen);
  }

  lemma ProduceLoadNextFront(s: State)
    requires QueueOk(s.q) && ProdOk(s.q, s.prod, s.fullSeen) && s.prod.pc.PLoadNextFront?
    ensures ProducerStepped(s, LoadNextFront(s, s.prod.pc.nb))
  {
    NextNow(s.q, s.prod, s.fullSeen);
    NextFrontLoaded(s.q, s.prod, s.fullSeen);
  }

  lemma NextTailProd(q: Queue, r: Queue, prod: Prod, fullSeen: bool)
    requires RingShape(q) && ChainOk(ChainOf(q)) && ProdOk(q, prod, fullSeen) && prod.pc.PLoadNextTail?
    requires q.ti + 1 < |q.ring| && RingShape(r) && r.ring == q.ring && r.ti == q.ti
    requires ChainOf(r) == Set(ChainOf(q), q.ti + 1, RefreshFront(Row(q)[q.ti + 1])) && RowShaped(ChainOf(r))
    ensures var b := q.blocks[prod.pc.nb];
            prod.pc.nf == b.tail == b.front && ProdOk(r, prod.(pc := PConstructNext(prod.pc.nb, b.tail)), fullSeen)
  {
    NextNow(q, prod, fullSeen);
    NextTailKnown(ChainOf(q), prod, fullSeen);
    NextIds(q, r, prod, PConstructNext(prod.pc.nb, q.blocks[prod.pc.nb].tail));
  }

  lemma NextTailLoaded(q: Queue, prod: Prod, fullSeen: bool)
    requires QueueOk(q) && ProdOk(q, prod, fullSeen) && prod.pc.PLoadNextTail?
    ensures var b := q.blocks[prod.pc.nb];
            var r := Put(q, prod.pc.nb, b.(localFront := prod.pc.nf));
            && prod.pc.nf == b.tail && QueueOk(r) && ProducerMoves(ChainOf(q), ChainOf(r))
            && ProdOk(r, prod.(pc := PConstructNext(prod.pc.nb, b.tail)), fullSeen)
  {
    NextNow(q, prod, fullSeen);
    RefreshFrontStep(q, q.ti + 1);
    NextTailProd(q, Put(q, prod.pc.nb, RefreshFront(q.blocks[prod.pc.nb])), prod, fullSeen);
  }

  /** Here the assertion that the next block is empty holds: the front just loaded equals its tail. */
  lemma ProduceLoadNextTail(s: State)
    requires QueueOk(s.q) && ProdOk(s.q, s.prod, s.fullSeen) && s.prod.pc.PLoadNextTail?
    ensures s.prod.pc.nf == BlockAt(s.q, s.prod.pc.nb).tail
    ensures ProducerStepped(s, LoadNextTail(s, s.prod.pc.nb, s.prod.pc.nf))
  {
    NextNow(s.q, s.prod, s.fullSeen);
    NextTailLoaded(s.q, s.prod, s.fullSeen);
  }

  lemma NextConstructProd(q: Queue, r: Queue, prod: Prod, fullSeen: bool)
    requires RingShape(q) && ChainOk(ChainOf(q)) && ProdOk(q, prod, fullSeen) && prod.pc.PConstructNext?
    requires q.ti + 1 < |q.ring| && RingShape(r) && r.ring == q.ring && r.ti == q.ti
    requires var b := Row(q)[q.ti + 1]; ChainOf(r) == Set(ChainOf(q), q.ti + 1, WithSlot(b, b.tail, prod.elem))
    requires RowShaped(ChainOf(r))
    ensures ProdOk(r, prod.(pc := PStoreNextTail(prod.pc.nb, prod.pc.nt)), fullSeen)
  {
    NextConstructKnown(ChainOf(q), prod, fullSeen);
    NextIds(q, r, prod, PStoreNextTail(prod.pc.nb, prod.pc.nt));
  }

  lemma NextConstructAt(q: Queue, prod: Prod, fullSeen: bool)
    requires RingShape(q) && ChainOk(ChainOf(q)) && ProdOk(q, prod, fullSeen) && prod.pc.PConstructNext?
    ensures q.ti + 1 < |q.ring| && prod.pc.nb == Id(q, q.ti + 1) && prod.pc.nt == q.blocks[prod.pc.nb].tail
    ensures !Row(q)[q.ti + 1].Full() && Row(q)[q.ti + 1].tail == q.blocks[prod.pc.nb].tail
  {
    NextNow(q, prod, fullSeen);
    NextConstructKnown(ChainOf(q), prod, fullSeen);
  }

  lemma NextConstructed(q: Queue, prod: Prod, fullSeen: bool)
    requires QueueOk(q) && ProdOk(q, prod, fullSeen) && prod.pc.PConstructNext?
    ensures var r := Put(q, prod.pc.nb, WithSlot(q.blocks[prod.pc.nb], prod.pc.nt, prod.elem));
            && QueueOk(r) && ProducerMoves(ChainOf(q), ChainOf(r))
            && ProdOk(r, prod.(pc := PStoreNextTail(prod.pc.nb, prod.pc.nt)), fullSeen)
  {
    NextConstructAt(q, prod, fullSeen);
    ConstructStep(q, q.ti + 1, prod.elem);
    NextConstructProd(q, Put(q, prod.pc.nb, WithSlot(q.blocks[prod.pc.nb], prod.pc.nt, prod.elem)), prod, fullSeen);
  }

  lemma ProduceConstructNext(s: State)
    requires QueueOk(s.q) && ProdOk(s.q, s.prod, s.fullSeen) && s.prod.pc.PConstructNext?
    ensures ProducerStepped(s, ConstructNext(s, s.prod.pc.nb, s.prod.pc.nt))
  {
    NextConstructed(s.q, s.prod, s.fullSeen);
  }

  lemma NextFilled(q: Queue, prod: Prod, fullSeen: bool)
    requires QueueOk(q) && ProdOk(q, prod, fullSeen) && prod.pc.PStoreNextTail?
    ensures var r := StoreNextTail(q, prod.pc.nb, q.blocks[prod.pc.nb].tail);
            && prod.pc.nt == q.blocks[prod.pc.nb].tail && QueueOk(r) && ProducerMoves(ChainOf(q), ChainOf(r))
            && ProdOk(r, prod.(pc := PStoreTailBlock(prod.pc.nb)), fullSeen)
  {
    var r := StoreNextTail(q, prod.pc.nb, q.blocks[prod.pc.nb].tail);
    NextNow(q, prod, fullSeen);
    NextFillKnown(ChainOf(q), prod, fullSeen);
    StoreNextTailStep(q);
    NextIds(q, r, prod, PStoreTailBlock(prod.pc.nb));
  }

  lemma ProduceStoreNextTail(s: State)
    requires QueueOk(s.q) && ProdOk(s.q, s.prod, s.fullSeen) && s.prod.pc.PStoreNextTail?
    ensures ProducerStepped(s, FillNext(s, s.prod.pc.nb, s.prod.pc.nt))
  {
    NextFilled(s.q, s.prod, s.fullSeen);
  }

  lemma NextReady(q: Queue, prod: Prod, fullSeen: bool)
    requires RingShape(q) && RowShaped(ChainOf(q)) && ProdOk(q, prod, fullSeen) && prod.pc.PStoreTailBlock?
    ensures q.pending && (q.ti > 0 ==> Row(q)[q.ti].Full()) && q.ti + 1 < |q.ring| && prod.pc.nb == Id(q, q.ti + 1)
    ensures var b := Row(q)[q.ti + 1]; b.localFront == b.front && b.data[b.front] == prod.elem
  {
  }

  lemma IdleOk(q: Queue, prod: Prod, fullSeen: bool)
    requires RingShape(q) && RowShaped(ChainOf(q)) && prod.pc.PIdle? && !q.pending
    ensures ProdOk(q, prod, fullSeen)
  {
  }

  lemma TailBlockStored(q: Queue, prod: Prod, fullSeen: bool)
    requires QueueOk(q) && ProdOk(q, prod, fullSeen) && prod.pc.PStoreTailBlock?
    ensures var r := StoreTailBlock(q, prod.pc.nb, prod.elem);
            && QueueOk(r) && ProducerMoves(ChainOf(q), ChainOf(r)) && ProdOk(r, prod.(pc := PIdle, ok := true), fullSeen)
            && (q.ti > 0 ==> Id(r, 1) == Id(q, 1))
  {
    NextReady(q, prod, fullSeen);
    StoreTailBlockStep(q, prod.elem);
    IdleOk(StoreTailBlock(q, prod.pc.nb, prod.elem), prod.(pc := PIdle, ok := true), fullSeen);
  }

  lemma ProduceStoreTailBlock(s: State)
    requires QueueOk(s.q) && ProdOk(s.q, s.prod, s.fullSeen) && s.prod.pc.PStoreTailBlock?
    ensures ProducerStepped(s, ProdStep(s))
  {
    TailBlockStored(s.q, s.prod, s.fullSeen);
  }

  /** A new block changes nothing in the ring, and holds the element. */
  lemma BlockMade(q: Queue, elem: int)
    requires QueueOk(q)
    ensures var r := MakeBlock(q, elem);
            QueueOk(r) && ChainOf(r) == ChainOf(q) && FreshBlock(r, |q.blocks|, elem)
  {
    var r := MakeBlock(q, elem);
    NewId(q);
    OutsideBlock(q, r);
    SameCapacity(q, r);
  }

  lemma SameCapacity(q: Queue, r: Queue)
    requires RingShape(q) && RingShape(r) && CapacityOk(q) && Row(r) == Row(q) && q.largest <= r.largest
    requires r.unit == q.unit && r.requested == q.requested
    ensures CapacityOk(r)
  {
    assert |Row(r)| == |r.ring|;
  }

  lemma ProduceAlloc(s: State)
    requires QueueOk(s.q) && ProdOk(s.q, s.prod, s.fullSeen) && s.prod.pc.PAlloc?
    ensures ProducerStepped(s, Alloc(s, s.prod.pc.tb))
  {
    BlockMade(s.q, s.prod.elem);
    NoMoves(ChainOf(s.q));
  }

  lemma NewId(q: Queue)
    requires RingShape(q)
    ensures |q.blocks| !in q.ring
  {
    assert forall i :: 0 <= i < |q.ring| ==> q.ring[i] == Id(q, i);
  }

  /** Linking the new block to the next one changes nothing in the ring either. */
  lemma BlockLinked(q: Queue, nb: nat, elem: int)
    requires QueueOk(q) && FreshBlock(q, nb, elem)
    ensures var r := LinkNew(q, q.tailBlock, nb);
            && QueueOk(r) && ChainOf(r) == ChainOf(q) && FreshBlock(r, nb, elem)
            && r.blocks[nb].next == Id(q, Following(q, q.ti))
  {
    var r := LinkNew(q, q.tailBlock, nb);
    assert NextOf(q, q.ti) == Id(q, Following(q, q.ti));
    OutsideBlock(q, r);
    SameCapacity(q, r);
  }

  lemma LinkedProd(q: Queue, r: Queue, prod: Prod, fullSeen: bool)
    requires RingShape(q) && RowShaped(ChainOf(q)) && ProdOk(q, prod, fullSeen) && prod.pc.PLinkNew?
    requires RingShape(r) && ChainOf(r) == ChainOf(q) && FreshBlock(r, prod.pc.nb, prod.elem) && r.tailBlock == q.tailBlock
    requires r.blocks[prod.pc.nb].next == Id(r, Following(r, r.ti))
    ensures ProdOk(r, prod.(pc := PStoreNext(prod.pc.tb, prod.pc.nb)), fullSeen)
  {
  }

  lemma NewLinked(q: Queue, prod: Prod, fullSeen: bool)
    requires QueueOk(q) && ProdOk(q, prod, fullSeen) && prod.pc.PLinkNew?
    ensures var r := LinkNew(q, prod.pc.tb, prod.pc.nb);
            && QueueOk(r) && ProducerMoves(ChainOf(q), ChainOf(r))
            && ProdOk(r, prod.(pc := PStoreNext(prod.pc.tb, prod.pc.nb)), fullSeen)
            && r.frontBlock == q.frontBlock && r.ring == q.ring
  {
    BlockLinked(q, prod.pc.nb, prod.elem);
    LinkedProd(q, LinkNew(q, prod.pc.tb, prod.pc.nb), prod, fullSeen);
    NoMoves(ChainOf(q));
  }

  lemma ProduceLinkNew(s: State)
    requires QueueOk(s.q) && ProdOk(s.q, s.prod, s.fullSeen) && s.prod.pc.PLinkNew?
    ensures ProducerStepped(s, Link(s, s.prod.pc.tb, s.prod.pc.nb))
  {
    NewLinked(s.q, s.prod, s.fullSeen);
  }

  lemma SpliceKnown(c: Chain, b: Block, prod: Prod, fullSeen: bool)
    requires ChainOk(c) && ProdChain(c, prod, fullSeen) && prod.pc.PStoreNext? && b.Shaped()
    requires b.localFront == b.front && b.data[b.front] == prod.elem
    ensures RowShaped(Splice(c, b)) && ProdChain(Splice(c, b), prod.(pc := PStoreTailBlock(prod.pc.nb)), fullSeen)
  {
  }

  lemma FreshFacts(q: Queue, prod: Prod)
    requires RingShape(q) && ProdIds(q, prod) && prod.pc.PStoreNext?
    ensures var nb := prod.pc.nb;
            && nb < |q.blocks| && nb !in q.ring && prod.pc.tb == q.tailBlock
            && var b := q.blocks[nb];
            && b.Shaped() && b.Count() == 1 && q.unit < b.size && b.next == Id(q, Following(q, q.ti))
            && b.localFront == b.front && b.data[b.front] == prod.elem
  {
  }

  lemma SplicedId(q: Queue, nb: nat)
    requires RingShape(q) && nb < |q.blocks| && q.ti + 1 <= |q.ring|
    ensures var r := StoreNext(q, q.tailBlock, nb);
            && q.ti + 1 < |r.ring| && Id(r, q.ti + 1) == nb && r.ti == q.ti && r.frontBlock == q.frontBlock
            && (q.ti > 0 ==> Id(r, 1) == Id(q, 1))
  {
  }

  lemma NextLinkedProd(q: Queue, r: Queue, prod: Prod, fullSeen: bool)
    requires RingShape(q) && ChainOk(ChainOf(q)) && ProdOk(q, prod, fullSeen) && prod.pc.PStoreNext?
    requires prod.pc.nb < |q.blocks| && ChainOf(q).ti < |Row(q)| && RingShape(r) && RowShaped(ChainOf(r))
    requires ChainOf(r) == Splice(ChainOf(q), Bare(q.blocks[prod.pc.nb]))
    requires q.ti + 1 < |r.ring| && Id(r, q.ti + 1) == prod.pc.nb && r.ti == q.ti
    ensures ProdOk(r, prod.(pc := PStoreTailBlock(prod.pc.nb)), fullSeen)
  {
    FreshFacts(q, prod);
    SpliceKnown(ChainOf(q), Bare(q.blocks[prod.pc.nb]), prod, fullSeen);
  }

  lemma NextLinked(q: Queue, prod: Prod, fullSeen: bool)
    requires QueueOk(q) && ProdOk(q, prod, fullSeen) && prod.pc.PStoreNext?
    ensures var r := StoreNext(q, prod.pc.tb, prod.pc.nb);
            && QueueOk(r) && ProducerMoves(ChainOf(q), ChainOf(r))
            && ProdOk(r, prod.(pc := PStoreTailBlock(prod.pc.nb)), fullSeen)
            && r.frontBlock == q.frontBlock && (q.ti > 0 ==> Id(r, 1) == Id(q, 1))
  {
    FreshFacts(q, prod);
    StoreNextStep(q, prod.pc.nb);
    SplicedId(q, prod.pc.nb);
    NextLinkedProd(q, StoreNext(q, prod.pc.tb, prod.pc.nb), prod, fullSeen);
  }

  lemma ProduceStoreNext(s: State)
    requires QueueOk(s.q) && ProdOk(s.q, s.prod, s.fullSeen) && s.prod.pc.PStoreNext?
    ensures ProducerStepped(s, SpliceIn(s, s.prod.pc.tb, s.prod.pc.nb))
  {
    NextLinked(s.q, s.prod, s.fullSeen);
  }

  lemma ProduceStoreTail(s: State)
    requires QueueOk(s.q) && ProdOk(s.q, s.prod, s.fullSeen) && s.prod.pc.PStoreTail?
    ensures ProducerStepped(s, ProdStep(s))
  {
    StoreTailStep(s.q, s.prod.elem);
  }

  /** The steps up to the decision which block to fill. */
  predicate InTailBlock(pc: ProdPc) {
    pc.PStart? || pc.PLoadTail? || pc.PLoadFront? || pc.PConstruct? || pc.PStoreTail?
    || pc.PLoadNext? || pc.PLoadFrontBlock? || pc.PLoadNextAgain?
  }

  lemma ProduceInTailBlock(s: State)
    requires QueueOk(s.q) && ProdOk(s.q, s.prod, s.fullSeen) && SeenOk(s) && InTailBlock(s.prod.pc)
    ensures ProducerStepped(s, ProdStep(s))
  {
    match s.prod.pc {
      case PStart => ProduceStart(s);
      case PLoadTail(_) => ProduceLoadTail(s);
      case PLoadFront(_, _) => ProduceLoadFront(s);
      case PConstruct(_, _) => ProduceConstruct(s);
      case PStoreTail(_, _) => ProduceStoreTail(s);
      case PLoadNext(_) => ProduceLoadNext(s);
      case PLoadFrontBlock(_, _) => ProduceLoadFrontBlock(s);
      case PLoadNextAgain(_) => ProduceLoadNext(s);
    }
  }

  lemma ProduceInNextBlock(s: State)
    requires QueueOk(s.q) && ProdOk(s.q, s.prod, s.fullSeen) && !s.prod.pc.PIdle? && !InTailBlock(s.prod.pc)
    ensures ProducerStepped(s, ProdStep(s))
  {
    match s.prod.pc {
      case PLoadNextFront(_) => ProduceLoadNextFront(s);
      case PLoadNextTail(_, _) => ProduceLoadNextTail(s);
      case PConstructNext(_, _) => ProduceConstructNext(s);
      case PStoreNextTail(_, _) => ProduceStoreNextTail(s);
      case PStoreTailBlock(_) => ProduceStoreTailBlock(s);
      case PAlloc(_) => ProduceAlloc(s);
      case PLinkNew(_, _) => ProduceLinkNew(s);
      case PStoreNext(_, _) => ProduceStoreNext(s);
    }
  }

  lemma KeptByProduce(s: State)
    requires Inv(s) && Enabled(s, Produce)
    ensures Inv(Apply(s, Produce))
  {
    if InTailBlock(s.prod.pc) {
      ProduceInTailBlock(s);
    } else {
      ProduceInNextBlock(s);
    }
    CloseProducer(s, ProdStep(s));
  }

  // ----- Consumer steps keep the invariant -----

  /** What the consumer leaves alone of what the producer's pointers depend on. */
  ghost predicate SamePlaces(q: Queue, r: Queue)
    requires RingShape(q) && RingShape(r)
  {
    && r.tailBlock == q.tailBlock && r.unit == q.unit && |r.blocks| == |q.blocks|
    && Id(r, Following(r, r.ti)) == Id(q, Following(q, q.ti))
    && (forall b: nat {:trigger r.blocks[b]} :: b < |q.blocks| && b !in q.ring ==> b !in r.ring && r.blocks[b] == q.blocks[b])
  }

  /** What a consumer step establishes itself. */
  ghost predicate ConsumerStepped(s: State, t: State)
    requires QueueOk(s.q)
  {
    && QueueOk(t.q) && ConsOk(t.q, t.cons, t.emptySeen)
    && ConsumerMoves(ChainOf(s.q), ChainOf(t.q)) && SamePlaces(s.q, t.q)
    && t.prod == s.prod && t.emptySeen == s.emptySeen && t.fullSeen == s.fullSeen
  }

  lemma ProducerIdsKept(q: Queue, r: Queue, prod: Prod)
    requires RingShape(q) && RingShape(r) && ProdIds(q, prod) && SamePlaces(q, r)
    ensures ProdIds(r, prod)
  {
    if prod.pc.PLinkNew? || prod.pc.PStoreNext? {
      assert r.blocks[prod.pc.nb] == q.blocks[prod.pc.nb];
    }
  }

  lemma ConsumerMoreSeen(c: Chain, cons: Cons, emptySeen: bool, emptySeen': bool)
    requires RowShaped(c) && ConsChain(c, cons, emptySeen) && (emptySeen ==> emptySeen')
    ensures ConsChain(c, cons, emptySeen')
  {
  }

  /** The producer's side follows. */
  lemma CloseConsumer(s: State, t: State)
    requires QueueOk(s.q) && ProdOk(s.q, s.prod, s.fullSeen) && ConsumerStepped(s, t)
    ensures Inv(Observe(t))
  {
    ProducerIdsKept(s.q, t.q, s.prod);
    ProducerUndisturbed(ChainOf(s.q), ChainOf(t.q), s.prod, s.fullSeen, Observe(t).fullSeen);
    ConsumerMoreSeen(ChainOf(t.q), t.cons, t.emptySeen, Observe(t).emptySeen);
  }

  lemma SamePlacesNow(q: Queue)
    requires RingShape(q)
    ensures SamePlaces(q, q)
  {
  }

  /** A store into a block of the ring. */
  lemma SamePlacesPut(q: Queue, p: nat, b: Block)
    requires RingShape(q) && p < |q.ring|
    ensures var r := Put(q, Id(q, p), b); RingShape(r) && SamePlaces(q, r)
  {
    var r := Put(q, Id(q, p), b);
    assert forall i {:trigger Id(r, i)} :: 0 <= i < |r.ring| ==> Id(r, i) == Id(q, i);
    assert Id(q, p) in q.ring;
  }

  /** A load, or a read of a slot: only what the consumer knows changes. */
  lemma ConsumeOnly(s: State, t: State)
    requires QueueOk(s.q) && t == s.(cons := t.cons) && ConsOk(s.q, t.cons, s.emptySeen)
    ensures ConsumerStepped(s, t)
  {
    NoMoves(ChainOf(s.q));
    SamePlacesNow(s.q);
  }

  lemma ConsumeStart(s: State)
    requires QueueOk(s.q) && ConsOk(s.q, s.cons, s.emptySeen) && (s.cons.pc.CStart? || s.cons.pc.CLoadFront?)
    ensures ConsumerStepped(s, ConsStep(s))
  {
    RowAt(s.q, 0);
    ConsumeOnly(s, ConsStep(s));
  }

  lemma ReadKnown(c: Chain, cons: Cons, emptySeen: bool)
    requires RowShaped(c) && ConsChain(c, cons, emptySeen) && cons.pc.CRead? && cons.kind.Dequeue?
    ensures var x := Slot(c.row[0], cons.pc.bf);
            ConsChain(c, cons.(pc := CStoreFront(cons.pc.fb, cons.pc.bf), value := x), emptySeen)
  {
  }

  lemma ReadNextKnown(c: Chain, cons: Cons, emptySeen: bool)
    requires RowShaped(c) && ConsChain(c, cons, emptySeen) && cons.pc.CReadNext?
    ensures var x := Slot(c.row[0], cons.pc.nf);
            ConsChain(c, cons.(pc := CStoreNextFront(cons.pc.nb, cons.pc.nf), value := x), emptySeen)
  {
  }

  lemma ConsumeRead(s: State)
    requires QueueOk(s.q) && ConsOk(s.q, s.cons, s.emptySeen) && s.cons.pc.CRead?
    ensures ConsumerStepped(s, ConsStep(s))
  {
    RowAt(s.q, 0);
    if s.cons.kind.Dequeue? {
      ReadKnown(ChainOf(s.q), s.cons, s.emptySeen);
    }
    ConsumeOnly(s, ConsStep(s));
  }

  lemma ConsumeReadNext(s: State)
    requires QueueOk(s.q) && ConsOk(s.q, s.cons, s.emptySeen) && s.cons.pc.CReadNext?
    ensures ConsumerStepped(s, ConsStep(s))
  {
    RowAt(s.q, 0);
    ReadNextKnown(ChainOf(s.q), s.cons, s.emptySeen);
    ConsumeOnly(s, ConsStep(s));
  }

  lemma ConsumeLoadTailBlock(s: State)
    requires QueueOk(s.q) && ConsOk(s.q, s.cons, s.emptySeen)
    requires s.cons.pc.CLoadTailBlock? || s.cons.pc.CReloadFrontBlock?
    ensures ConsumerStepped(s, ConsStep(s))
  {
    ConsumeOnly(s, ConsStep(s));
  }

  lemma ConsumeReloadFront(s: State)
    requires QueueOk(s.q) && ConsOk(s.q, s.cons, s.emptySeen) && s.cons.pc.CReloadFront?
    ensures ConsumerStepped(s, ConsStep(s))
  {
    RowAt(s.q, 0);
    ConsumeOnly(s, ConsStep(s));
  }

  lemma ConsumeLoadNext(s: State)
    requires QueueOk(s.q) && ConsOk(s.q, s.cons, s.emptySeen) && s.cons.pc.CLoadNext?
    ensures ConsumerStepped(s, ConsStep(s))
  {
    assert NextOf(s.q, 0) == Id(s.q, 1);
    ConsumeOnly(s, ConsStep(s));
  }

  lemma ConsumeLoadNextFront(s: State)
    requires QueueOk(s.q) && ConsOk(s.q, s.cons, s.emptySeen) && s.cons.pc.CLoadNextFront?
    ensures ConsumerStepped(s, ConsStep(s))
  {
    RowAt(s.q, 1);
    ConsumeOnly(s, ConsStep(s));
  }

  // What the consumer knows after it refreshed a shadow.

  lemma TailKnown(c: Chain, cons: Cons, emptySeen: bool)
    requires ChainOk(c) && ConsChain(c, cons, emptySeen) && (|c.enq| == |c.deq| ==> emptySeen) && cons.pc.CLoadTail?
    ensures var d := Set(c, 0, RefreshTail(c.row[0]));
            var pc := if cons.pc.bf != c.row[0].tail then CRead(cons.pc.fb, cons.pc.bf) else CLoadTailBlock(cons.pc.fb);
            ConsChain(d, cons.(pc := pc), emptySeen)
  {
  }

  lemma ReloadKnown(c: Chain, cons: Cons, emptySeen: bool)
    requires ChainOk(c) && ConsChain(c, cons, emptySeen) && cons.pc.CReloadTail?
    ensures ConsChain(Set(c, 0, RefreshTail(c.row[0])), cons.(pc := CReloadFront(cons.pc.fb, c.row[0].tail)), emptySeen)
  {
  }

  lemma NextLoadedKnown(c: Chain, cons: Cons, emptySeen: bool)
    requires ChainOk(c) && ConsChain(c, cons, emptySeen) && cons.pc.CLoadNextTail? && cons.kind.Dequeue?
    ensures ConsChain(Set(c, 1, RefreshTail(c.row[1])), cons.(pc := CStoreFrontBlock(cons.pc.nb, cons.pc.nf)), emptySeen)
  {
  }

  lemma RotatedKnown(c: Chain, cons: Cons, emptySeen: bool)
    requires ChainOk(c) && ConsChain(c, cons, emptySeen) && cons.pc.CStoreFrontBlock?
    ensures ConsChain(Rotate(c), cons.(pc := CReadNext(cons.pc.nb, cons.pc.nf)), emptySeen)
  {
  }

  // The consumer's accesses that change the queue, on the queue alone.

  /** The consumer's block is the front block. */
  lemma FrontNow(q: Queue, cons: Cons, emptySeen: bool)
    requires RingShape(q) && RowShaped(ChainOf(q)) && ConsOk(q, cons, emptySeen) && (cons.pc.CLoadTail? || cons.pc.CReloadTail?)
    ensures cons.pc.fb == Id(q, 0) && Row(q)[0] == Bare(q.blocks[cons.pc.fb])
  {
  }

  /** What the consumer does to a block's shadow, and leaves alone. */
  lemma TailRefreshed(q: Queue, p: nat)
    requires QueueOk(q) && p < |q.ring|
    ensures var r := Put(q, Id(q, p), RefreshTail(q.blocks[Id(q, p)]));
            && QueueOk(r) && ChainOf(r) == Set(ChainOf(q), p, RefreshTail(Row(q)[p]))
            && ConsumerMoves(ChainOf(q), ChainOf(r)) && SamePlaces(q, r)
  {
    RefreshTailStep(q, p);
    SamePlacesPut(q, p, RefreshTail(q.blocks[Id(q, p)]));
  }

  lemma TailLoaded(q: Queue, cons: Cons, emptySeen: bool)
    requires QueueOk(q) && ConsOk(q, cons, emptySeen) && (|q.enq| == |q.deq| ==> emptySeen) && cons.pc.CLoadTail?
    ensures var b := q.blocks[cons.pc.fb];
            var r := Put(q, cons.pc.fb, RefreshTail(b));
            && cons.pc.fb < |q.blocks| && QueueOk(r) && ConsumerMoves(ChainOf(q), ChainOf(r)) && SamePlaces(q, r)
            && var pc := if cons.pc.bf != b.tail then CRead(cons.pc.fb, cons.pc.bf) else CLoadTailBlock(cons.pc.fb);
            ConsOk(r, cons.(pc := pc), emptySeen)
  {
    FrontNow(q, cons, emptySeen);
    TailRefreshed(q, 0);
    TailKnown(ChainOf(q), cons, emptySeen);
  }

  lemma ConsumeLoadTail(s: State)
    requires QueueOk(s.q) && ConsOk(s.q, s.cons, s.emptySeen) && SeenOk(s) && s.cons.pc.CLoadTail?
    ensures ConsumerStepped(s, ConsStep(s))
  {
    TailLoaded(s.q, s.cons, s.emptySeen);
  }

  lemma TailReloaded(q: Queue, cons: Cons, emptySeen: bool)
    requires QueueOk(q) && ConsOk(q, cons, emptySeen) && cons.pc.CReloadTail?
    ensures var b := q.blocks[cons.pc.fb];
            var r := Put(q, cons.pc.fb, RefreshTail(b));
            && cons.pc.fb < |q.blocks| && QueueOk(r) && ConsumerMoves(ChainOf(q), ChainOf(r)) && SamePlaces(q, r)
            && ConsOk(r, cons.(pc := CReloadFront(cons.pc.fb, b.tail)), emptySeen)
  {
    FrontNow(q, cons, emptySeen);
    TailRefreshed(q, 0);
    ReloadKnown(ChainOf(q), cons, emptySeen);
  }

  lemma ConsumeReloadTail(s: State)
    requires QueueOk(s.q) && ConsOk(s.q, s.cons, s.emptySeen) && s.cons.pc.CReloadTail?
    ensures ConsumerStepped(s, ConsStep(s))
  {
    TailReloaded(s.q, s.cons, s.emptySeen);
  }

  lemma NextLoaded(q: Queue, cons: Cons, emptySeen: bool)
    requires QueueOk(q) && ConsOk(q, cons, emptySeen) && cons.pc.CLoadNextTail? && cons.kind.Dequeue?
    ensures var b := q.blocks[cons.pc.nb];
            var r := Put(q, cons.pc.nb, RefreshTail(b));
            && cons.pc.nb < |q.blocks| && QueueOk(r) && ConsumerMoves(ChainOf(q), ChainOf(r)) && SamePlaces(q, r)
            && ConsOk(r, cons.(pc := CStoreFrontBlock(cons.pc.nb, cons.pc.nf)), emptySeen)
  {
    SecondNow(q, cons, emptySeen);
    TailRefreshed(q, 1);
    NextLoadedKnown(ChainOf(q), cons, emptySeen);
  }

  lemma SecondNow(q: Queue, cons: Cons, emptySeen: bool)
    requires RingShape(q) && RowShaped(ChainOf(q)) && ConsOk(q, cons, emptySeen) && cons.pc.CLoadNextTail?
    ensures q.ti > 0 && cons.pc.nb == Id(q, 1) && Row(q)[1] == Bare(q.blocks[cons.pc.nb])
  {
  }

  lemma ConsumeLoadNextTail(s: State)
    requires QueueOk(s.q) && ConsOk(s.q, s.cons, s.emptySeen) && s.cons.pc.CLoadNextTail? && s.cons.kind.Dequeue?
    ensures ConsumerStepped(s, EnterNext(s, s.cons.pc.nb, s.cons.pc.nf))
  {
    NextLoaded(s.q, s.cons, s.emptySeen);
  }

  lemma ConsumePeekNext(s: State)
    requires QueueOk(s.q) && ConsOk(s.q, s.cons, s.emptySeen) && s.cons.pc.CLoadNextTail? && s.cons.kind.Peek?
    ensures ConsumerStepped(s, ConsStep(s))
  {
    ConsumeOnly(s, ConsStep(s));
  }

  lemma SamePlacesRotated(q: Queue)
    requires RingShape(q) && q.ti > 0
    ensures var r := StoreFrontBlock(q, Id(q, 1)); RingShape(r) && SamePlaces(q, r)
  {
    var r := StoreFrontBlock(q, Id(q, 1));
    assert forall i {:trigger Id(r, i)} :: 0 <= i < |r.ring| ==> Id(r, i) == Id(q, Following(q, i));
    assert RingShape(r);
  }

  lemma FrontBlockStored(q: Queue, cons: Cons, emptySeen: bool)
    requires QueueOk(q) && ConsOk(q, cons, emptySeen) && cons.pc.CStoreFrontBlock?
    ensures var r := StoreFrontBlock(q, cons.pc.nb);
            && QueueOk(r) && ConsumerMoves(ChainOf(q), ChainOf(r)) && SamePlaces(q, r)
            && ConsOk(r, cons.(pc := CReadNext(cons.pc.nb, cons.pc.nf)), emptySeen)
  {
    RotatedKnown(ChainOf(q), cons, emptySeen);
    StoreFrontBlockStep(q);
    SamePlacesRotated(q);
  }

  lemma ConsumeStoreFrontBlock(s: State)
    requires QueueOk(s.q) && ConsOk(s.q, s.cons, s.emptySeen) && s.cons.pc.CStoreFrontBlock?
    ensures ConsumerStepped(s, ConsStep(s))
  {
    FrontBlockStored(s.q, s.cons, s.emptySeen);
  }

  lemma FrontStored(q: Queue, x: int)
    requires QueueOk(q) && Row(q)[0].Seen() >= 1 && Row(q)[0].data[Row(q)[0].front] == x
    ensures var r := StoreFront(q, q.frontBlock, q.blocks[q.frontBlock].front, x);
            && QueueOk(r) && ConsumerMoves(ChainOf(q), ChainOf(r)) && SamePlaces(q, r)
            && |q.deq| < |q.enq| && x == q.enq[|q.deq|]
  {
    StoreFrontStep(q, x);
    SamePlacesPut(q, 0, WithFront(q.blocks[q.frontBlock]));
  }

  /** Both stores of a front index come after the element was read from the front block. */
  lemma FrontTaken(q: Queue, cons: Cons, emptySeen: bool)
    requires RingShape(q) && RowShaped(ChainOf(q)) && ConsOk(q, cons, emptySeen)
    requires cons.pc.CStoreFront? || cons.pc.CStoreNextFront?
    ensures var b := q.blocks[q.frontBlock];
            && (cons.pc == CStoreFront(q.frontBlock, b.front) || cons.pc == CStoreNextFront(q.frontBlock, b.front))
            && Row(q)[0].Seen() >= 1 && Row(q)[0].data[Row(q)[0].front] == cons.value
  {
    RowAt(q, 0);
  }

  lemma ConsumeStoreFront(s: State)
    requires QueueOk(s.q) && ConsOk(s.q, s.cons, s.emptySeen) && (s.cons.pc.CStoreFront? || s.cons.pc.CStoreNextFront?)
    ensures ConsumerStepped(s, ConsStep(s))
    ensures |s.q.deq| < |s.q.enq| && s.cons.value == s.q.enq[|s.q.deq|]
  {
    FrontTaken(s.q, s.cons, s.emptySeen);
    FrontStored(s.q, s.cons.value);
    StoredState(s);
  }

  lemma StoredState(s: State)
    requires s.cons.pc.CStoreFront? || s.cons.pc.CStoreNextFront?
    ensures var pc, v := s.cons.pc, s.cons.value;
            var fb, bf := if pc.CStoreFront? then pc.fb else pc.nb, if pc.CStoreFront? then pc.bf else pc.nf;
            ConsStep(s) == DequeueReturns(s.(q := StoreFront(s.q, fb, bf, v)), true, v)
  {
  }

  /** The steps up to the decision which block to take from, and those that take from the block found first. */
  predicate InFrontBlock(pc: ConsPc) {
    pc.CStart? || pc.CLoadFront? || pc.CLoadTail? || pc.CRead? || pc.CStoreFront? || pc.CLoadTailBlock?
    || pc.CReloadFrontBlock? || pc.CReloadTail? || pc.CReloadFront?
  }

  lemma ConsumeInFrontBlock(s: State)
    requires QueueOk(s.q) && ConsOk(s.q, s.cons, s.emptySeen) && SeenOk(s) && InFrontBlock(s.cons.pc)
    ensures ConsumerStepped(s, ConsStep(s))
  {
    match s.cons.pc {
      case CStart => ConsumeStart(s);
      case CLoadFront(_) => ConsumeStart(s);
      case CLoadTail(_, _) => ConsumeLoadTail(s);
      case CRead(_, _) => ConsumeRead(s);
      case CStoreFront(_, _) => ConsumeStoreFront(s);
      case CLoadTailBlock(_) => ConsumeLoadTailBlock(s);
      case CReloadFrontBlock => ConsumeLoadTailBlock(s);
      case CReloadTail(_) => ConsumeReloadTail(s);
      case CReloadFront(_, _) => ConsumeReloadFront(s);
    }
  }

  lemma ConsumeInNextBlock(s: State)
    requires QueueOk(s.q) && ConsOk(s.q, s.cons, s.emptySeen) && !s.cons.pc.CIdle? && !InFrontBlock(s.cons.pc)
    ensures ConsumerStepped(s, ConsStep(s))
  {
    match s.cons.pc {
      case CLoadNext(_) => ConsumeLoadNext(s);
      case CLoadNextFront(_) => ConsumeLoadNextFront(s);
      case CLoadNextTail(_, _) => if s.cons.kind.Dequeue? { ConsumeLoadNextTail(s); } else { ConsumePeekNext(s); }
      case CStoreFrontBlock(_, _) => ConsumeStoreFrontBlock(s);
      case CReadNext(_, _) => ConsumeReadNext(s);
      case CStoreNextFront(_, _) => ConsumeStoreFront(s);
    }
  }

  lemma ConsumeKept(s: State)
    requires QueueOk(s.q) && ConsOk(s.q, s.cons, s.emptySeen) && SeenOk(s) && !s.cons.pc.CIdle?
    ensures ConsumerStepped(s, ConsStep(s))
  {
    if InFrontBlock(s.cons.pc) {
      ConsumeInFrontBlock(s);
    } else {
      ConsumeInNextBlock(s);
    }
  }

  lemma KeptByConsume(s: State)
    requires Inv(s) && Enabled(s, Consume)
    ensures Inv(Apply(s, Consume))
  {
    ConsumeKept(s);
    CloseConsumer(s, ConsStep(s));
  }

  // ----- Calls, and every run -----

  lemma KeptByCall(s: State, a: Action)
    requires Inv(s) && Enabled(s, a) && (a.CallEnqueue? || a.CallDequeue? || a.AllocFails?)
    ensures Inv(Apply(s, a))
  {
  }

  lemma KeptByStep(s: State, a: Action)
    requires Inv(s) && Enabled(s, a)
    ensures Inv(Apply(s, a))
  {
    match a {
      case Produce => KeptByProduce(s);
      case Consume => KeptByConsume(s);
      case CallEnqueue(_, _) => KeptByCall(s, a);
      case CallDequeue(_) => KeptByCall(s, a);
      case AllocFails => KeptByCall(s, a);
    }
  }
}
