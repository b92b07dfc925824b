/**
 The shared-write protocol: many senders, one ring, one receiver.

 A sender reserves a span of the unbounded byte stream by fetch-and-add on the remote tail, waits
 until its cached copy of the head says the span is free, and writes into the ring. The receiver
 rebuilds the stream offset of each message from the 32-bit ring offset in the completion and frees
 messages in any order.

 Fields marked "history" record what happened; no step decides anything by them.
 */
module SharedWrite {
  import opened Bytes
  import opened Modular

  /** How far a reservation has come. `done` bytes of a Writing one have reached the ring. */
  datatype Phase = Waiting | Writing(done: nat) | Arrived | Held | Freed

  datatype Reservation = Reservation(start: nat, msg: seq<Byte>, sender: nat, phase: Phase)
  {
    function End(): nat { start + |msg| }

    /** The number of leading bytes of the message the ring must hold. */
    function Landed(): nat {
      match phase
      case Waiting => 0
      case Writing(done) => done
      case Arrived => |msg|
      case Held => |msg|
      case Freed => 0
    }

    /** Written to the ring, at least in part, and not freed. */
    predicate Live() { phase.Writing? || phase.Arrived? || phase.Held? }
  }

  datatype SenderPc =
    | Idle
    | AtGate(tail: nat, msg: seq<Byte>)
    | Posted(off: nat, msg: seq<Byte>, done: nat)

  /** One connection: `cachedHead` is its copy of the head. History: `slot` is its newest reservation. */
  datatype Sender = Sender(cachedHead: nat, pc: SenderPc, slot: nat)

  /** A write-with-immediate completion. History: `slot`. */
  datatype Completion = Completion(imm: nat, byteLen: nat, slot: nat)

  datatype Region = Region(context: nat, off: nat, len: nat)

  /** The receiver's bookkeeping; `published` is the head that senders can read. */
  datatype Instance = Instance(head: nat, freed: map<nat, nat>, published: nat)

  /** History: `log` lists all reservations, `headSlot` and `segs` are `head` and `freed` as indices into it. */
  datatype State = State(
    size: nat, useDm: bool,
    mem: seq<Byte>, tail: nat, inst: Instance, cq: seq<Completion>, senders: seq<Sender>, held: map<nat, Region>,
    log: seq<Reservation>, headSlot: nat, segs: map<nat, nat>)

  // ----- The receiver's computations -----

  /** `acked_head_`: initialised to zero and never assigned. */
  const ACKED_HEAD: nat := 0
  const DM_UPDATE_DISTANCE: nat := 10 * 1024

  function Publish(useDm: bool, published: nat, head: nat): nat {
    if !useDm then head
    else if ACKED_HEAD + DM_UPDATE_DISTANCE < head then head
    else published
  }

  /** Follows and removes the chain of freed entries that starts at `end`. */
  function Merge(freed: map<nat, nat>, end: nat): (r: (map<nat, nat>, nat))
    decreases |freed|
  {
    if end in freed then Merge(freed - {end}, freed[end]) else (freed, end)
  }

  function FreeRegion(inst: Instance, useDm: bool, start: nat, len: nat): Instance {
    var (freed, end) := Merge(inst.freed, start + len);
    if start == inst.head then
      Instance(end, freed, Publish(useDm, inst.published, end))
    else
      inst.(freed := freed[start := end])
  }

  /** The stream offset rebuilt from a ring offset and the current head. */
  function GlobalOffset(head: nat, size: nat, localOff: nat): nat
    requires 0 < size
  {
    if head % size <= localOff then head / size * size + localOff
    else (head / size + 1) * size + localOff
  }

  predicate GateOpen(size: nat, sender: Sender)
    requires sender.pc.AtGate?
  {
    sender.cachedHead + size > sender.pc.tail + |sender.pc.msg|
  }

  // ----- Steps -----

  datatype Action =
    | Reserve(i: nat, msg: seq<Byte>)
    | ReadHead(i: nat)
    | Post(i: nat)
    | Land(i: nat)
    | Complete(i: nat)
    | Receive
    | Free(slot: nat)

  predicate Enabled(s: State, a: Action) {
    match a
    case Reserve(i, msg) => i < |s.senders| && s.senders[i].pc.Idle? && 0 < |msg| < s.size
    case ReadHead(i) => i < |s.senders| && s.senders[i].pc.AtGate? && !GateOpen(s.size, s.senders[i])
    case Post(i) => i < |s.senders| && s.senders[i].pc.AtGate? && GateOpen(s.size, s.senders[i])
    case Land(i) => i < |s.senders| && s.senders[i].pc.Posted? && s.senders[i].pc.done < |s.senders[i].pc.msg|
    case Complete(i) => i < |s.senders| && s.senders[i].pc.Posted? && s.senders[i].pc.done == |s.senders[i].pc.msg|
    case Receive => s.cq != []
    case Free(slot) => slot in s.held
  }

  /** Moves a reservation to another phase. */
  function Mark(log: seq<Reservation>, slot: nat, phase: Phase): seq<Reservation> {
    if slot < |log| then log[slot := log[slot].(phase := phase)] else log
  }

  function Apply(s: State, a: Action): State
    requires 0 < s.size == |s.mem| && Enabled(s, a)
  {
    match a
    case Reserve(i, msg) =>
      s.(tail := s.tail + |msg|,
         senders := s.senders[i := s.senders[i].(pc := AtGate(s.tail, msg), slot := |s.log|)],
         log := s.log + [Reservation(s.tail, msg, i, Waiting)])
    case ReadHead(i) =>
      s.(senders := s.senders[i := s.senders[i].(cachedHead := s.inst.published)])
    case Post(i) =>
      var pc := s.senders[i].pc;
      s.(senders := s.senders[i := s.senders[i].(pc := Posted(pc.tail % s.size, pc.msg, 0))],
         log := Mark(s.log, s.senders[i].slot, Writing(0)))
    case Land(i) =>
      var pc := s.senders[i].pc;
      s.(mem := s.mem[(pc.off + pc.done) % s.size := pc.msg[pc.done]],
         senders := s.senders[i := s.senders[i].(pc := pc.(done := pc.done + 1))],
         log := Mark(s.log, s.senders[i].slot, Writing(pc.done + 1)))
    case Complete(i) =>
      var pc := s.senders[i].pc;
      s.(cq := s.cq + [Completion(pc.off, |pc.msg|, s.senders[i].slot)],
         senders := s.senders[i := s.senders[i].(pc := Idle)],
         log := Mark(s.log, s.senders[i].slot, Arrived))
    case Receive =>
      var wc := s.cq[0];
      s.(cq := s.cq[1..],
         held := s.held[wc.slot := Region(GlobalOffset(s.inst.head, s.size, wc.imm), wc.imm, wc.byteLen)],
         log := Mark(s.log, wc.slot, Held))
    case Free(slot) =>
      var region := s.held[slot];
      var (segs, next) := Merge(s.segs, slot + 1);
      s.(inst := FreeRegion(s.inst, s.useDm, region.context, region.len),
         held := s.held - {slot},
         log := Mark(s.log, slot, Phase.Freed),
         headSlot := if slot == s.headSlot then next else s.headSlot,
         segs := if slot == s.headSlot then segs else segs[slot := next])
  }

  ghost predicate Init(s: State) {
    && 0 < s.size == |s.mem|
    && s.tail == 0 && s.inst == Instance(0, map[], 0) && s.cq == [] && s.held == map[]
    && (forall i :: 0 <= i < |s.senders| ==> s.senders[i] == Sender(0, Idle, 0))
    && s.log == [] && s.headSlot == 0 && s.segs == map[]
  }

  ghost predicate Next(s: State, t: State)
    requires 0 < s.size == |s.mem|
  {
    exists a :: Enabled(s, a) && t == Apply(s, a)
  }

  // ----- The invariant -----

  /** The stream offset where slot i starts; one past the last slot, the tail. */
  function Boundary(s: State, i: nat): nat {
    if i < |s.log| then s.log[i].start else s.tail
  }

  ghost predicate Increasing(s: State) {
    forall i, j :: 0 <= i < j <= |s.log| ==> Boundary(s, i) < Boundary(s, j)
  }

  /** The reservations follow one another from 0 to the tail. */
  ghost predicate LogTiles(s: State) {
    && Boundary(s, 0) == 0
    && (forall i :: 0 <= i < |s.log| ==> 0 < |s.log[i].msg| < s.size)
    && (forall i, j {:trigger s.log[i], Boundary(s, j)} ::
          0 <= i < |s.log| && j == i + 1 ==> s.log[i].End() == Boundary(s, j))
  }

  ghost predicate Covered(segs: map<nat, nat>, x: nat) {
    exists i :: i in segs && i <= x < segs[i]
  }

  /** Segments are non-empty and pairwise disjoint. */
  ghost predicate SegsDisjoint(segs: map<nat, nat>) {
    && (forall i :: i in segs ==> i < segs[i])
    && (forall i, j :: i in segs && j in segs && i < j ==> segs[i] <= j)
  }

  /** The first n slots are freed, and the next one is not. */
  ghost predicate PrefixFreed(log: seq<Reservation>, n: nat) {
    && n <= |log|
    && (forall x :: 0 <= x < n ==> log[x].phase.Freed?)
    && (n < |log| ==> !log[n].phase.Freed?)
  }

  ghost predicate SegsInside(segs: map<nat, nat>, low: nat, high: nat) {
    forall i :: i in segs ==> low < i && segs[i] <= high
  }

  /** From slot `from` on, the slots covered are those freed. */
  ghost predicate CoveredAreFreed(log: seq<Reservation>, segs: map<nat, nat>, from: nat) {
    forall x {:trigger Covered(segs, x)} :: from <= x < |log| ==> (log[x].phase.Freed? <==> Covered(segs, x))
  }

  /** `headSlot` is the first slot not freed, and the segments are exactly the freed slots behind it. */
  ghost predicate FreedTracked(s: State) {
    && PrefixFreed(s.log, s.headSlot) && s.inst.head == Boundary(s, s.headSlot)
    && SegsDisjoint(s.segs) && SegsInside(s.segs, s.headSlot, |s.log|) && CoveredAreFreed(s.log, s.segs, s.headSlot)
  }

  /** `freed` is `segs` with slots replaced by the stream offsets where they start. */
  ghost predicate Corresponds(s: State, freed: map<nat, nat>, segs: map<nat, nat>) {
    && (forall i {:trigger i in segs} {:trigger segs[i]} :: i in segs ==>
          i < segs[i] <= |s.log| && Boundary(s, i) in freed
          && freed[Boundary(s, i)] == Boundary(s, segs[i]))
    && (forall k {:trigger StartsSegment(s, segs, k)} :: k in freed ==> StartsSegment(s, segs, k))
  }

  ghost predicate StartsSegment(s: State, segs: map<nat, nat>, k: nat) {
    exists i :: i in segs && Boundary(s, i) == k
  }

  ghost predicate HeadPublished(s: State) {
    && s.inst.published <= s.inst.head
    && (!s.useDm ==> s.inst.published == s.inst.head)
    && (s.useDm ==> s.inst.published == if s.inst.head > DM_UPDATE_DISTANCE then s.inst.head else 0)
  }

  ghost predicate SenderOk(s: State, i: nat)
    requires i < |s.senders| && 0 < s.size
  {
    var snd := s.senders[i];
    && snd.cachedHead <= s.inst.published
    && match snd.pc
       case Idle => true
       case AtGate(tail, msg) => snd.slot < |s.log| && s.log[snd.slot] == Reservation(tail, msg, i, Waiting)
       case Posted(off, msg, done) =>
         && snd.slot < |s.log| && done <= |msg|
         && s.log[snd.slot] == Reservation(s.log[snd.slot].start, msg, i, Writing(done))
         && off == s.log[snd.slot].start % s.size
  }

  ghost predicate SendersOk(s: State)
    requires 0 < s.size
  {
    forall i :: 0 <= i < |s.senders| ==> SenderOk(s, i)
  }

  /** Every live message lies inside the window of `size` bytes that starts at the head. */
  ghost predicate LiveInWindow(s: State) {
    forall k :: 0 <= k < |s.log| && s.log[k].Live() ==> s.log[k].End() < s.inst.head + s.size
  }

  ghost predicate LandedIntact(s: State)
    requires 0 < s.size == |s.mem|
  {
    forall k :: 0 <= k < |s.log| ==>
      s.log[k].Landed() <= |s.log[k].msg| && Holds(s.mem, s.log[k].start, s.log[k].msg[..s.log[k].Landed()])
  }

  /** The ring holds `msg` from stream offset `start` on. */
  ghost predicate Holds(mem: seq<Byte>, start: nat, msg: seq<Byte>)
    requires 0 < |mem|
  {
    forall b :: 0 <= b < |msg| ==> mem[(start + b) % |mem|] == msg[b]
  }

  ghost predicate CompletionsOk(s: State)
    requires 0 < s.size
  {
    && (forall c :: 0 <= c < |s.cq| ==>
          var wc := s.cq[c];
          && wc.slot < |s.log| && s.log[wc.slot].phase.Arrived?
          && wc.imm == s.log[wc.slot].start % s.size && wc.byteLen == |s.log[wc.slot].msg|)
    && (forall c, d :: 0 <= c < d < |s.cq| ==> s.cq[c].slot != s.cq[d].slot)
  }

  ghost predicate HeldOk(s: State)
    requires 0 < s.size
  {
    && (forall k :: k in s.held ==>
          k < |s.log| && s.held[k] == Region(s.log[k].start, s.log[k].start % s.size, |s.log[k].msg|))
    && (forall k :: 0 <= k < |s.log| ==> (s.log[k].phase.Held? <==> k in s.held))
  }

  /** What ties the receiver's bookkeeping to the log. */
  ghost predicate Tracked(s: State) {
    && LogTiles(s) && Increasing(s)
    && FreedTracked(s)
    && Corresponds(s, s.inst.freed, s.segs)
    && HeadPublished(s)
  }

  /** What ties senders, ring, completions and held regions to the log. */
  ghost predicate Delivering(s: State)
    requires 0 < s.size == |s.mem|
  {
    && SendersOk(s)
    && LiveInWindow(s)
    && LandedIntact(s)
    && CompletionsOk(s)
    && HeldOk(s)
  }

  ghost predicate Inv(s: State) {
    && 0 < s.size == |s.mem|
    && Tracked(s)
    && Delivering(s)
  }

  // ----- Merging freed regions -----

  /** `rest` is `segs` without the chain of segments that starts at `x` and ends at `next`. */
  ghost predicate MergedTo(segs: map<nat, nat>, x: nat, rest: map<nat, nat>, next: nat) {
    && x <= next && next !in segs
    && (forall i :: i in rest ==> i in segs && rest[i] == segs[i])
    && (forall i :: i in segs ==> i in rest || (x <= i && segs[i] <= next))
    && (forall i :: i in rest && x <= i ==> next < i)
    && (forall y :: x <= y < next ==> Covered(segs, y))
  }

  lemma {:induction false} MergeChain(segs: map<nat, nat>, x: nat)
    requires SegsDisjoint(segs)
    ensures MergedTo(segs, x, Merge(segs, x).0, Merge(segs, x).1)
    decreases |segs|
  {
    if x in segs {
      MergeChain(segs - {x}, segs[x]);
      MergedFirst(segs, x, Merge(segs, x).0, Merge(segs, x).1);
    }
  }

  /** The chain of the segments after the first, with the first. */
  lemma MergedFirst(segs: map<nat, nat>, x: nat, rest: map<nat, nat>, next: nat)
    requires SegsDisjoint(segs) && x in segs && MergedTo(segs - {x}, segs[x], rest, next)
    ensures MergedTo(segs, x, rest, next)
  {
    forall y | x <= y < next ensures Covered(segs, y) {
      if y >= segs[x] {
        CoveredByLess(segs, x, y);
      }
    }
  }

  lemma CoveredByLess(segs: map<nat, nat>, x: nat, y: nat)
    requires Covered(segs - {x}, y)
    ensures Covered(segs, y)
  {
    var i :| i in segs - {x} && i <= y < (segs - {x})[i];
    assert i in segs;
  }

  lemma {:induction false} MergeCorresponds(s: State, freed: map<nat, nat>, segs: map<nat, nat>, x: nat)
    requires Increasing(s) && Corresponds(s, freed, segs) && x <= |s.log|
    ensures var (rest, next) := Merge(segs, x);
            var (freed', end) := Merge(freed, Boundary(s, x));
            next <= |s.log| && end == Boundary(s, next) && Corresponds(s, freed', rest)
    decreases |segs|
  {
    if x in segs {
      assert Boundary(s, x) in freed;
      CorrespondsLess(s, freed, segs, x);
      MergeCorresponds(s, freed - {Boundary(s, x)}, segs - {x}, segs[x]);
    } else {
      assert !StartsSegment(s, segs, Boundary(s, x));
    }
  }

  lemma CorrespondsLess(s: State, freed: map<nat, nat>, segs: map<nat, nat>, x: nat)
    requires Increasing(s) && Corresponds(s, freed, segs) && x in segs
    ensures Corresponds(s, freed - {Boundary(s, x)}, segs - {x})
  {
    var freed', segs' := freed - {Boundary(s, x)}, segs - {x};
    forall k | k in freed' ensures StartsSegment(s, segs', k) {
      assert StartsSegment(s, segs, k);
      var i :| i in segs && Boundary(s, i) == k;
      assert i in segs';
    }
    forall i | i in segs' ensures Boundary(s, i) in freed' && freed'[Boundary(s, i)] == Boundary(s, segs'[i]) {
      assert Boundary(s, i) in freed;
    }
  }

  // ----- Every step keeps the invariant -----

  lemma ReserveExtendsLog(s: State, i: nat, msg: seq<Byte>)
    requires 0 < s.size == |s.mem| && Tracked(s) && Enabled(s, Reserve(i, msg))
    ensures Tracked(Apply(s, Reserve(i, msg)))
  {
    LogExtended(s, Apply(s, Reserve(i, msg)), Reservation(s.tail, msg, i, Waiting));
  }

  /** The log and the tail have grown by one reservation. */
  predicate Grown(s: State, t: State, r: Reservation) {
    && 0 < |r.msg| < s.size && r.start == s.tail && !r.phase.Freed?
    && t == s.(tail := s.tail + |r.msg|, senders := t.senders, log := s.log + [r])
  }

  lemma LogExtended(s: State, t: State, r: Reservation)
    requires Tracked(s) && Grown(s, t, r)
    ensures Tracked(t)
  {
    assert forall j :: 0 <= j <= |s.log| ==> Boundary(t, j) == Boundary(s, j);
    SameBoundariesCorrespond(s, t, s.inst.freed, s.segs);
    ExtendedTiles(s, t, r);
    ExtendedTracks(s, t, r);
  }

  lemma ExtendedTiles(s: State, t: State, r: Reservation)
    requires LogTiles(s) && Increasing(s) && Grown(s, t, r)
    ensures LogTiles(t) && Increasing(t)
  {
    assert forall j :: 0 <= j <= |s.log| ==> Boundary(t, j) == Boundary(s, j);
    assert Boundary(t, |s.log| + 1) == Boundary(s, |s.log|) + |r.msg|;
    assert forall j :: 0 <= j < |s.log| ==> Boundary(s, j) < Boundary(s, |s.log|);
  }

  lemma ExtendedTracks(s: State, t: State, r: Reservation)
    requires FreedTracked(s) && Grown(s, t, r) && Boundary(t, s.headSlot) == Boundary(s, s.headSlot)
    ensures FreedTracked(t)
  {
    forall x | t.headSlot <= x < |t.log| ensures t.log[x].phase.Freed? <==> Covered(t.segs, x) {
      assert x < |s.log| ==> (s.log[x].phase.Freed? <==> Covered(s.segs, x));
    }
  }

  lemma ReserveKeepsDelivering(s: State, i: nat, msg: seq<Byte>)
    requires 0 < s.size == |s.mem| && Delivering(s) && Enabled(s, Reserve(i, msg))
    ensures Delivering(Apply(s, Reserve(i, msg)))
  {
    var t := Apply(s, Reserve(i, msg));
    forall j | 0 <= j < |t.senders| ensures SenderOk(t, j) {
      assert SenderOk(s, j);
    }
  }

  lemma ReadHeadKeepsDelivering(s: State, i: nat)
    requires 0 < s.size == |s.mem| && Delivering(s) && Enabled(s, ReadHead(i))
    ensures Delivering(Apply(s, ReadHead(i)))
  {
    var t := Apply(s, ReadHead(i));
    forall j | 0 <= j < |t.senders| ensures SenderOk(t, j) {
      assert SenderOk(s, j);
    }
  }

  /** Correspondence depends only on where slots start. */
  lemma SameBoundariesCorrespond(s: State, t: State, freed: map<nat, nat>, segs: map<nat, nat>)
    requires Corresponds(s, freed, segs)
    requires |s.log| <= |t.log| && forall j :: 0 <= j <= |s.log| ==> Boundary(t, j) == Boundary(s, j)
    ensures Corresponds(t, freed, segs)
  {
    forall k | k in freed ensures StartsSegment(t, segs, k) {
      assert StartsSegment(s, segs, k);
      var j :| j in segs && Boundary(s, j) == k;
      assert Boundary(t, j) == k;
    }
    forall i | i in segs ensures Boundary(t, i) in freed && freed[Boundary(t, i)] == Boundary(t, segs[i]) {
      assert Boundary(t, i) == Boundary(s, i) && Boundary(t, segs[i]) == Boundary(s, segs[i]);
    }
  }

  /** Moving a slot that is not freed to another such phase leaves the tracking alone. */
  lemma MarkKeepsTracked(s: State, t: State, slot: nat, phase: Phase)
    requires Tracked(s) && slot < |s.log| && !s.log[slot].phase.Freed? && !phase.Freed?
    requires t.log == Mark(s.log, slot, phase) && t.size == s.size && t.useDm == s.useDm && t.tail == s.tail
    requires t.inst == s.inst && t.headSlot == s.headSlot && t.segs == s.segs
    ensures Tracked(t)
  {
    assert forall j :: 0 <= j <= |s.log| ==> Boundary(t, j) == Boundary(s, j);
    SameBoundariesCorrespond(s, t, s.inst.freed, s.segs);
    forall x | t.headSlot <= x < |t.log|
      ensures t.log[x].phase.Freed? <==> Covered(t.segs, x)
    {
      assert s.log[x].phase.Freed? <==> Covered(s.segs, x);
    }
  }

  lemma SameLogKeepsTracked(s: State, t: State)
    requires Tracked(s) && t == s.(senders := t.senders)
    ensures Tracked(t)
  {
    assert forall j :: 0 <= j <= |s.log| ==> Boundary(t, j) == Boundary(s, j);
    SameBoundariesCorrespond(s, t, s.inst.freed, s.segs);
  }

  /** A step of sender i on its own slot leaves the other senders' states in order. */
  lemma OwnSlotSparesSenders(s: State, t: State, i: nat, phase: Phase)
    requires 0 < s.size == t.size && SendersOk(s) && i < |s.senders| && |t.senders| == |s.senders|
    requires !s.senders[i].pc.Idle? && t.log == Mark(s.log, s.senders[i].slot, phase) && t.inst == s.inst
    requires forall j :: 0 <= j < |s.senders| && j != i ==> t.senders[j] == s.senders[j]
    requires SenderOk(t, i)
    ensures SendersOk(t)
  {
    assert SenderOk(s, i);
    forall j | 0 <= j < |t.senders| ensures SenderOk(t, j) {
      assert SenderOk(s, j);
    }
  }

  lemma PostKeepsDelivering(s: State, i: nat)
    requires 0 < s.size == |s.mem| && Delivering(s) && Enabled(s, Post(i)) && s.inst.published <= s.inst.head
    ensures Delivering(Apply(s, Post(i)))
  {
    assert SenderOk(s, i);
    OwnSlotSparesSenders(s, Apply(s, Post(i)), i, Writing(0));
  }

  lemma CompleteKeepsDelivering(s: State, i: nat)
    requires 0 < s.size == |s.mem| && Delivering(s) && Enabled(s, Complete(i))
    ensures Delivering(Apply(s, Complete(i)))
  {
    assert SenderOk(s, i);
    OwnSlotSparesSenders(s, Apply(s, Complete(i)), i, Arrived);
    CompletionAdded(s, i);
    CompleteKeepsBytes(s, i);
  }

  lemma CompletionAdded(s: State, i: nat)
    requires 0 < s.size == |s.mem| && CompletionsOk(s) && Enabled(s, Complete(i)) && SenderOk(s, i)
    ensures CompletionsOk(Apply(s, Complete(i)))
  {
  }

  lemma CompleteKeepsBytes(s: State, i: nat)
    requires 0 < s.size == |s.mem| && LiveInWindow(s) && LandedIntact(s) && HeldOk(s) && Enabled(s, Complete(i)) && SenderOk(s, i)
    ensures var t := Apply(s, Complete(i)); LiveInWindow(t) && LandedIntact(t) && HeldOk(t)
  {
  }

  /** The cell of the byte b bytes after a stream offset. */
  function Place(start: nat, b: nat, n: nat): nat
    requires 0 < n
  {
    (start + b) % n
  }

  /** The ring cell of byte b of slot k. */
  function Cell(s: State, k: nat, b: nat): nat
    requires k < |s.log| && 0 < s.size
  {
    Place(s.log[k].start, b, s.size)
  }

  lemma LandKeepsBytes(s: State, i: nat)
    requires 0 < s.size == |s.mem| && Enabled(s, Land(i)) && SenderOk(s, i) && LandedIntact(s)
    requires forall k, b {:trigger Cell(s, k, b)} :: 0 <= k < |s.log| && 0 <= b < s.log[k].Landed() ==>
               Cell(s, k, b) != (s.senders[i].pc.off + s.senders[i].pc.done) % s.size
    ensures LandedIntact(Apply(s, Land(i)))
  {
    var t := Apply(s, Land(i));
    var pc, slot := s.senders[i].pc, s.senders[i].slot;
    AddToReduced(s.log[slot].start, pc.done, s.size);
    forall k | 0 <= k < |t.log|
      ensures t.log[k].Landed() <= |t.log[k].msg| && Holds(t.mem, t.log[k].start, t.log[k].msg[..t.log[k].Landed()])
    {
      SlotElsewhere(s, k, (pc.off + pc.done) % s.size, pc.msg[pc.done]);
      if k == slot {
        HoldsOneMore(t.mem, pc.msg, s.log[k].start, pc.done);
      }
    }
  }

  /** A byte landing at another cell than those of slot k leaves its bytes alone. */
  lemma SlotElsewhere(s: State, k: nat, at: nat, byte: Byte)
    requires 0 < s.size == |s.mem| && LandedIntact(s) && k < |s.log| && at < s.size
    requires forall b {:trigger Cell(s, k, b)} :: 0 <= b < s.log[k].Landed() ==> Cell(s, k, b) != at
    ensures s.log[k].Landed() <= |s.log[k].msg|
    ensures Holds(s.mem[at := byte], s.log[k].start, s.log[k].msg[..s.log[k].Landed()])
  {
    forall b {:trigger Place(s.log[k].start, b, s.size)} | 0 <= b < s.log[k].Landed()
      ensures Place(s.log[k].start, b, s.size) != at
    {
      assert Cell(s, k, b) != at;
    }
    HoldsElsewhere(s.mem, s.log[k].start, s.log[k].msg[..s.log[k].Landed()], at, byte);
  }

  lemma HoldsElsewhere(mem: seq<Byte>, start: nat, msg: seq<Byte>, at: nat, byte: Byte)
    requires 0 < |mem| && at < |mem| && Holds(mem, start, msg)
    requires forall b {:trigger Place(start, b, |mem|)} :: 0 <= b < |msg| ==> Place(start, b, |mem|) != at
    ensures Holds(mem[at := byte], start, msg)
  {
    forall b | 0 <= b < |msg| ensures mem[at := byte][Place(start, b, |mem|)] == msg[b] {
    }
  }

  lemma HoldsOneMore(mem: seq<Byte>, msg: seq<Byte>, start: nat, done: nat)
    requires 0 < |mem| && done < |msg| && Holds(mem, start, msg[..done]) && mem[(start + done) % |mem|] == msg[done]
    ensures Holds(mem, start, msg[..done + 1])
  {
    forall b | 0 <= b < done + 1 ensures mem[Place(start, b, |mem|)] == msg[..done + 1][b] {
      if b < done {
        assert msg[..done][b] == msg[b];
      }
    }
  }

  lemma KeptByLand(s: State, i: nat)
    requires Inv(s) && Enabled(s, Land(i))
    ensures Inv(Apply(s, Land(i)))
  {
    var t, next := Apply(s, Land(i)), Writing(s.senders[i].pc.done + 1);
    assert SenderOk(s, i);
    MarkKeepsTracked(s, t, s.senders[i].slot, next);
    LandSparesAll(s, i);
    LandKeepsBytes(s, i);
    LandKeepsTheRest(s, i);
  }

  lemma LandKeepsTheRest(s: State, i: nat)
    requires 0 < s.size == |s.mem| && Delivering(s) && Enabled(s, Land(i))
    ensures var t := Apply(s, Land(i)); SendersOk(t) && LiveInWindow(t) && CompletionsOk(t) && HeldOk(t)
  {
    assert SenderOk(s, i);
    OwnSlotSparesSenders(s, Apply(s, Land(i)), i, Writing(s.senders[i].pc.done + 1));
  }

  lemma LandSparesAll(s: State, i: nat)
    requires Inv(s) && Enabled(s, Land(i))
    ensures forall k, b {:trigger Cell(s, k, b)} :: 0 <= k < |s.log| && 0 <= b < s.log[k].Landed() ==>
              Cell(s, k, b) != (s.senders[i].pc.off + s.senders[i].pc.done) % s.size
  {
    forall k, b | 0 <= k < |s.log| && 0 <= b < s.log[k].Landed()
      ensures Cell(s, k, b) != (s.senders[i].pc.off + s.senders[i].pc.done) % s.size
    {
      assert SenderOk(s, i);
      LandSparesOthers(s, i, k, b);
    }
  }

  /** The byte that lands hits no cell that holds a byte of any live message, its own earlier ones included. */
  lemma LandSparesOthers(s: State, i: nat, k: nat, b: nat)
    requires Inv(s) && Enabled(s, Land(i)) && k < |s.log| && s.log[k].Live()
    requires b < if k == s.senders[i].slot then s.senders[i].pc.done else |s.log[k].msg|
    ensures Cell(s, k, b) != (s.senders[i].pc.off + s.senders[i].pc.done) % s.size
  {
    LandingSender(s, i);
    LiveInside(s, s.senders[i].slot, s.senders[i].pc.done);
    LiveInside(s, k, b);
    PlacesApart(s, s.senders[i].slot, k, s.senders[i].pc.done, b);
  }

  lemma LandingSender(s: State, i: nat)
    requires Inv(s) && Enabled(s, Land(i))
    ensures var pc, slot := s.senders[i].pc, s.senders[i].slot;
            && slot < |s.log| && s.log[slot].Live() && pc.done < |s.log[slot].msg| && pc.off == s.log[slot].start % s.size
  {
    assert SenderOk(s, i);
  }

  lemma PlacesApart(s: State, slot: nat, k: nat, done: nat, b: nat)
    requires LogTiles(s) && Increasing(s) && slot < |s.log| && k < |s.log| && 0 < s.size
    requires done < |s.log[slot].msg| && b < (if k == slot then done else |s.log[k].msg|)
    requires s.inst.head <= s.log[slot].start + done < s.inst.head + s.size
    requires s.inst.head <= s.log[k].start + b < s.inst.head + s.size
    ensures Cell(s, k, b) != (s.log[slot].start % s.size + done) % s.size
  {
    if k != slot { SlotsDisjoint(s, k, slot); }
    CellsApart(s.log[slot].start, done, s.log[k].start + b, s.inst.head, s.size);
  }

  lemma CellsApart(start: nat, done: nat, other: nat, low: nat, n: nat)
    requires 0 < n && low <= start + done < low + n && low <= other < low + n && other != start + done
    ensures other % n != (start % n + done) % n
  {
    AddToReduced(start, done, n);
    DifferentCells(other, start + done, low, n);
  }

  lemma LiveInside(s: State, k: nat, b: nat)
    requires Inv(s) && k < |s.log| && s.log[k].Live() && b < |s.log[k].msg|
    ensures s.inst.head <= s.log[k].start + b < s.inst.head + s.size
  {
    AfterHead(s, k);
  }

  lemma AfterHead(s: State, k: nat)
    requires Tracked(s) && k < |s.log| && !s.log[k].phase.Freed?
    ensures s.headSlot <= k && s.inst.head <= s.log[k].start
  {
    assert Boundary(s, k) == s.log[k].start;
  }

  lemma SlotsDisjoint(s: State, j: nat, k: nat)
    requires LogTiles(s) && Increasing(s) && j < |s.log| && k < |s.log| && j != k
    ensures s.log[j].End() <= s.log[k].start || s.log[k].End() <= s.log[j].start
  {
    var low, high := if j < k then j else k, if j < k then k else j;
    assert s.log[low].End() == Boundary(s, low + 1);
    assert Boundary(s, low + 1) <= Boundary(s, high) == s.log[high].start;
  }

  // ----- Rebuilding the 64-bit offset -----

  lemma GlobalOffsetExact(head: nat, size: nat, start: nat)
    requires 0 < size && head <= start < head + size
    ensures GlobalOffset(head, size, start % size) == start
  {
    var q, r := head / size, head % size;
    assert head == size * q + r;
    if r + (start - head) < size {
      UniqueRemainder(start, q, r + (start - head), size);
    } else {
      assert size * (q + 1) == size * q + size;
      UniqueRemainder(start, q + 1, r + (start - head) - size, size);
    }
  }

  lemma ReceiveKeepsDelivering(s: State)
    requires 0 < s.size == |s.mem| && Delivering(s) && Enabled(s, Receive)
    requires GlobalOffset(s.inst.head, s.size, s.cq[0].imm) == s.log[s.cq[0].slot].start
    ensures Delivering(Apply(s, Receive))
  {
    var t := Apply(s, Receive);
    forall j | 0 <= j < |t.senders| ensures SenderOk(t, j) {
      assert SenderOk(s, j);
    }
  }

  // ----- Freeing -----

  /** Which slots are covered once `slot` is freed: as before, and `slot` itself. */
  lemma FreeCovers(segs: map<nat, nat>, slot: nat, rest: map<nat, nat>, next: nat, x: nat)
    requires SegsDisjoint(segs) && !Covered(segs, slot) && MergedTo(segs, slot + 1, rest, next)
    ensures Covered(rest[slot := next], x) <==> x == slot || Covered(segs, x)
    ensures next <= x ==> (Covered(rest, x) <==> Covered(segs, x))
    ensures !Covered(segs, next)
    ensures slot < x < next ==> Covered(segs, x)
  {
    var more := rest[slot := next];
    assert slot in more && more[slot] == next;
    assert slot !in segs;
    if Covered(segs, x) {
      var i :| i in segs && i <= x < segs[i];
      assert i in rest ==> i in more && more[i] == segs[i];
    }
    if Covered(rest, x) {
      var i :| i in rest && i <= x < rest[i];
      assert i in segs;
    }
    if Covered(more, x) {
      var i :| i in more && i <= x < more[i];
      assert i != slot ==> i in segs && more[i] == segs[i];
      assert i == slot && slot < x ==> Covered(segs, x);
    }
  }

  lemma FreeKeepsDisjoint(segs: map<nat, nat>, slot: nat, rest: map<nat, nat>, next: nat)
    requires SegsDisjoint(segs) && !Covered(segs, slot) && MergedTo(segs, slot + 1, rest, next)
    ensures SegsDisjoint(rest) && SegsDisjoint(rest[slot := next])
  {
    assert slot !in segs;
    assert forall i :: i in segs && i <= slot ==> segs[i] <= slot;
  }

  lemma CorrespondsMore(s: State, freed: map<nat, nat>, segs: map<nat, nat>, slot: nat, next: nat)
    requires Increasing(s) && Corresponds(s, freed, segs) && slot < next <= |s.log|
    ensures Corresponds(s, freed[Boundary(s, slot) := Boundary(s, next)], segs[slot := next])
  {
    var freed', segs' := freed[Boundary(s, slot) := Boundary(s, next)], segs[slot := next];
    forall k | k in freed' ensures StartsSegment(s, segs', k) {
      if k == Boundary(s, slot) {
        assert slot in segs';
      } else {
        assert StartsSegment(s, segs, k);
        var i :| i in segs && Boundary(s, i) == k;
        assert i in segs';
      }
    }
  }

  /** Merging on offsets does what merging on slots does. */
  lemma FreeRegionTracks(s: State, slot: nat, rest: map<nat, nat>, next: nat, freed: map<nat, nat>, end: nat)
    requires s.headSlot <= slot < |s.log| && s.inst.head == Boundary(s, s.headSlot)
    requires Increasing(s) && Corresponds(s, s.inst.freed, s.segs)
    requires Merge(s.segs, slot + 1) == (rest, next) && slot < next
    requires Merge(s.inst.freed, Boundary(s, slot + 1)) == (freed, end)
    ensures next <= |s.log| && end == Boundary(s, next)
    ensures Corresponds(s, freed, rest)
    ensures Corresponds(s, freed[Boundary(s, slot) := end], rest[slot := next])
    ensures Boundary(s, slot) == s.inst.head <==> slot == s.headSlot
  {
    MergeCorresponds(s, s.inst.freed, s.segs, slot + 1);
    CorrespondsMore(s, freed, rest, slot, next);
  }

  lemma KeptByFree(s: State, slot: nat)
    requires Inv(s) && Enabled(s, Free(slot))
    ensures Inv(Apply(s, Free(slot)))
  {
    FreeKeepsTracked(s, slot);
    FreeKeepsDelivering(s, slot);
  }

  lemma FreeKeepsTracked(s: State, slot: nat)
    requires Inv(s) && Enabled(s, Free(slot))
    ensures var t := Apply(s, Free(slot));
            Tracked(t) && s.inst.head <= t.inst.head && s.inst.published <= t.inst.published
  {
    AfterHead(s, slot);
    var (rest, next) := Merge(s.segs, slot + 1);
    var (freed, end) := Merge(s.inst.freed, s.log[slot].End());
    FreeShape(s, slot, rest, next, freed, end);
    TrackedAfterFree(s, Apply(s, Free(slot)), slot, rest, next, freed, end);
  }

  lemma FreeShape(s: State, slot: nat, rest: map<nat, nat>, next: nat, freed: map<nat, nat>, end: nat)
    requires 0 < s.size == |s.mem| && SegsDisjoint(s.segs)
    requires slot in s.held && s.headSlot <= slot < |s.log|
    requires s.held[slot].context == s.log[slot].start && s.held[slot].len == |s.log[slot].msg|
    requires Merge(s.segs, slot + 1) == (rest, next) && Merge(s.inst.freed, s.log[slot].End()) == (freed, end)
    ensures FreedSlot(s, Apply(s, Free(slot)), slot, rest, next, freed, end)
  {
    MergeChain(s.segs, slot + 1);
  }

  /** The shape of the state after freeing `slot`. */
  ghost predicate FreedSlot(s: State, t: State, slot: nat, rest: map<nat, nat>, next: nat, freed: map<nat, nat>, end: nat) {
    && s.headSlot <= slot < |s.log| && slot < next
    && Merge(s.segs, slot + 1) == (rest, next) && Merge(s.inst.freed, s.log[slot].End()) == (freed, end)
    && t.log == Mark(s.log, slot, Phase.Freed) && t.size == s.size && t.useDm == s.useDm && t.tail == s.tail
    && t.headSlot == (if slot == s.headSlot then next else s.headSlot)
    && t.segs == (if slot == s.headSlot then rest else rest[slot := next])
    && t.inst == (if s.log[slot].start == s.inst.head
                  then Instance(end, freed, Publish(s.useDm, s.inst.published, end))
                  else s.inst.(freed := freed[s.log[slot].start := end]))
  }

  lemma TrackedAfterFree(s: State, t: State, slot: nat, rest: map<nat, nat>, next: nat, freed: map<nat, nat>, end: nat)
    requires Tracked(s) && FreedSlot(s, t, slot, rest, next, freed, end) && !s.log[slot].phase.Freed?
    ensures Tracked(t) && s.inst.head <= t.inst.head && s.inst.published <= t.inst.published
  {
    SameBoundaries(s, t, slot);
    CorrespondsAfterFree(s, t, slot, rest, next, freed, end);
    assert s.inst.head < Boundary(s, next);
    MergeChain(s.segs, slot + 1);
    FreeTracks(s, t, slot, rest, next);
  }

  lemma CorrespondsAfterFree(s: State, t: State, slot: nat, rest: map<nat, nat>, next: nat, freed: map<nat, nat>, end: nat)
    requires LogTiles(s) && Increasing(s) && Corresponds(s, s.inst.freed, s.segs)
    requires FreedSlot(s, t, slot, rest, next, freed, end) && s.inst.head == Boundary(s, s.headSlot)
    ensures next <= |s.log| && end == Boundary(s, next)
    ensures s.log[slot].start == s.inst.head <==> slot == s.headSlot
    ensures Corresponds(t, t.inst.freed, t.segs)
  {
    assert s.log[slot].End() == Boundary(s, slot + 1) && s.log[slot].start == Boundary(s, slot);
    FreeRegionTracks(s, slot, rest, next, freed, end);
    SameBoundaries(s, t, slot);
    SameBoundariesCorrespond(s, t, t.inst.freed, t.segs);
  }

  lemma SameBoundaries(s: State, t: State, slot: nat)
    requires LogTiles(s) && Increasing(s) && t.log == Mark(s.log, slot, Phase.Freed) && t.size == s.size && t.tail == s.tail
    ensures forall j :: 0 <= j <= |s.log| ==> Boundary(t, j) == Boundary(s, j)
    ensures LogTiles(t) && Increasing(t)
  {
  }

  lemma FreeTracks(s: State, t: State, slot: nat, rest: map<nat, nat>, next: nat)
    requires FreedTracked(s) && s.headSlot <= slot < next <= |s.log| && !s.log[slot].phase.Freed?
    requires MergedTo(s.segs, slot + 1, rest, next)
    requires t.log == Mark(s.log, slot, Phase.Freed) && t.inst.head == Boundary(t, t.headSlot)
    requires if slot == s.headSlot then t.headSlot == next && t.segs == rest
             else t.headSlot == s.headSlot && t.segs == rest[slot := next]
    ensures FreedTracked(t)
  {
    assert !Covered(s.segs, slot);
    FreeKeepsDisjoint(s.segs, slot, rest, next);
    FreeKeepsInside(s.segs, s.headSlot, |s.log|, slot, rest, next);
    if slot == s.headSlot {
      HeadFreed(s.log, s.segs, slot, rest, next);
    } else {
      BehindFreed(s.log, s.segs, s.headSlot, slot, rest, next);
    }
  }

  /** The first slot in use is freed: the head moves on to the end of the chain behind it. */
  lemma HeadFreed(log: seq<Reservation>, segs: map<nat, nat>, slot: nat, rest: map<nat, nat>, next: nat)
    requires PrefixFreed(log, slot) && CoveredAreFreed(log, segs, slot) && slot < next <= |log| && !log[slot].phase.Freed?
    requires SegsDisjoint(segs) && MergedTo(segs, slot + 1, rest, next)
    ensures var log' := Mark(log, slot, Phase.Freed); PrefixFreed(log', next) && CoveredAreFreed(log', rest, next)
  {
    assert !Covered(segs, slot);
    forall x | slot <= x < |log|
      ensures slot < x < next ==> log[x].phase.Freed?
      ensures x == next ==> !log[x].phase.Freed?
      ensures next <= x ==> (log[x].phase.Freed? <==> Covered(rest, x))
    {
      assert log[x].phase.Freed? <==> Covered(segs, x);
      FreeCovers(segs, slot, rest, next, x);
    }
  }

  /** Another slot is freed: it joins the segments, with the chain behind it. */
  lemma BehindFreed(log: seq<Reservation>, segs: map<nat, nat>, head: nat, slot: nat, rest: map<nat, nat>, next: nat)
    requires PrefixFreed(log, head) && CoveredAreFreed(log, segs, head) && head < slot < next <= |log| && !log[slot].phase.Freed?
    requires SegsDisjoint(segs) && MergedTo(segs, slot + 1, rest, next)
    ensures var log' := Mark(log, slot, Phase.Freed); PrefixFreed(log', head) && CoveredAreFreed(log', rest[slot := next], head)
  {
    assert !Covered(segs, slot);
    forall x | head <= x < |log| ensures Covered(rest[slot := next], x) <==> x == slot || log[x].phase.Freed? {
      assert log[x].phase.Freed? <==> Covered(segs, x);
      FreeCovers(segs, slot, rest, next, x);
    }
  }

  lemma FreeKeepsInside(segs: map<nat, nat>, head: nat, high: nat, slot: nat, rest: map<nat, nat>, next: nat)
    requires SegsInside(segs, head, high) && head <= slot < next <= high && MergedTo(segs, slot + 1, rest, next)
    ensures if slot == head then SegsInside(rest, next, high) else SegsInside(rest[slot := next], head, high)
  {
    forall i | i in rest ensures head < i && rest[i] <= high && (slot == head ==> next < i) {
      assert i in segs;
    }
  }

  lemma FreeKeepsDelivering(s: State, slot: nat)
    requires 0 < s.size == |s.mem| && Delivering(s) && Enabled(s, Free(slot))
    requires var t := Apply(s, Free(slot)); s.inst.head <= t.inst.head && s.inst.published <= t.inst.published
    ensures Delivering(Apply(s, Free(slot)))
  {
    FreeKeepsSenders(s, slot);
    FreeKeepsBytes(s, slot);
  }

  lemma FreeKeepsSenders(s: State, slot: nat)
    requires 0 < s.size == |s.mem| && SendersOk(s) && HeldOk(s) && Enabled(s, Free(slot))
    requires s.inst.published <= Apply(s, Free(slot)).inst.published
    ensures SendersOk(Apply(s, Free(slot)))
  {
    var t := Apply(s, Free(slot));
    forall j | 0 <= j < |t.senders| ensures SenderOk(t, j) {
      assert SenderOk(s, j);
    }
  }

  lemma FreeKeepsBytes(s: State, slot: nat)
    requires 0 < s.size == |s.mem| && LiveInWindow(s) && LandedIntact(s) && CompletionsOk(s) && HeldOk(s)
    requires Enabled(s, Free(slot)) && s.inst.head <= Apply(s, Free(slot)).inst.head
    ensures var t := Apply(s, Free(slot)); LiveInWindow(t) && LandedIntact(t) && CompletionsOk(t) && HeldOk(t)
  {
  }

  lemma KeptByReserve(s: State, i: nat, msg: seq<Byte>)
    requires Inv(s) && Enabled(s, Reserve(i, msg))
    ensures Inv(Apply(s, Reserve(i, msg)))
  {
    ReserveExtendsLog(s, i, msg);
    ReserveKeepsDelivering(s, i, msg);
  }

  lemma KeptByReadHead(s: State, i: nat)
    requires Inv(s) && Enabled(s, ReadHead(i))
    ensures Inv(Apply(s, ReadHead(i)))
  {
    SameLogKeepsTracked(s, Apply(s, ReadHead(i)));
    ReadHeadKeepsDelivering(s, i);
  }

  lemma KeptByPost(s: State, i: nat)
    requires Inv(s) && Enabled(s, Post(i))
    ensures Inv(Apply(s, Post(i)))
  {
    assert SenderOk(s, i);
    MarkKeepsTracked(s, Apply(s, Post(i)), s.senders[i].slot, Writing(0));
    PostKeepsDelivering(s, i);
  }

  lemma KeptByComplete(s: State, i: nat)
    requires Inv(s) && Enabled(s, Complete(i))
    ensures Inv(Apply(s, Complete(i)))
  {
    assert SenderOk(s, i);
    MarkKeepsTracked(s, Apply(s, Complete(i)), s.senders[i].slot, Arrived);
    CompleteKeepsDelivering(s, i);
  }

  lemma KeptByReceive(s: State)
    requires Inv(s) && Enabled(s, Receive)
    ensures Inv(Apply(s, Receive))
  {
    MarkKeepsTracked(s, Apply(s, Receive), s.cq[0].slot, Held);
    NextOffsetExact(s, 0);
    ReceiveKeepsDelivering(s);
  }

  lemma KeptByStep(s: State, a: Action)
    requires Inv(s) && Enabled(s, a)
    ensures Inv(Apply(s, a))
  {
    match a
    case Reserve(i, msg) => KeptByReserve(s, i, msg);
    case ReadHead(i) => KeptByReadHead(s, i);
    case Post(i) => KeptByPost(s, i);
    case Land(i) => KeptByLand(s, i);
    case Complete(i) => KeptByComplete(s, i);
    case Receive => KeptByReceive(s);
    case Free(slot) => KeptByFree(s, slot);
  }

  lemma NextOffsetExact(s: State, c: nat)
    requires Inv(s) && c < |s.cq|
    ensures GlobalOffset(s.inst.head, s.size, s.cq[c].imm) == s.log[s.cq[c].slot].start
  {
    AfterHead(s, s.cq[c].slot);
    GlobalOffsetExact(s.inst.head, s.size, s.log[s.cq[c].slot].start);
  }

  // ----- Runs -----

  /** A run: any interleaving of the steps of any number of senders, of the receiver and of the application. */
  ghost predicate IsRun(run: seq<State>) {
    && run != [] && Init(run[0])
    && (forall k :: 0 <= k < |run| ==> 0 < run[k].size == |run[k].mem|)
    && (forall k :: 0 < k < |run| ==> Next(run[k - 1], run[k]))
  }

  lemma {:induction false} RunKeepsInvariant(run: seq<State>, k: nat)
    requires IsRun(run) && k < |run|
    ensures Inv(run[k])
  {
    if k == 0 {
      var s := run[0];
      assert forall x :: !Covered(s.segs, x);
    } else {
      RunKeepsInvariant(run, k - 1);
      assert Next(run[k - 1], run[k]);
      var a :| Enabled(run[k - 1], a) && run[k] == Apply(run[k - 1], a);
      KeptByStep(run[k - 1], a);
    }
  }

  // ----- Safety -----

  /** No byte a sender lands falls into another message that is being written, waits for receipt, or is held. */
  lemma WritesSpareLiveMessages(run: seq<State>, i: nat, k: nat, b: nat)
    requires IsRun(run)
    requires var s := run[|run| - 1];
             && Enabled(s, Land(i)) && s.senders[i].slot != k
             && k < |s.log| && s.log[k].Live() && b < |s.log[k].msg|
    ensures var s := run[|run| - 1];
            Cell(s, k, b) != (s.senders[i].pc.off + s.senders[i].pc.done) % s.size
  {
    RunKeepsInvariant(run, |run| - 1);
    LandSparesOthers(run[|run| - 1], i, k, b);
  }

  /** What the application reads at ring offset `off`, through the doubled mapping. */
  function RingBytes(mem: seq<Byte>, off: nat, len: nat): seq<Byte>
    requires 0 < |mem|
  {
    seq(len, b requires 0 <= b => mem[(off + b) % |mem|])
  }

  /** A held region still shows the bytes its sender gave to SendAsync, wherever its bytes sit in the ring. */
  lemma HeldRegionsIntact(run: seq<State>, slot: nat)
    requires IsRun(run) && slot in run[|run| - 1].held
    ensures var s := run[|run| - 1];
            var region := s.held[slot];
            && slot < |s.log| && region.context == s.log[slot].start
            && RingBytes(s.mem, region.off, region.len) == s.log[slot].msg
  {
    RunKeepsInvariant(run, |run| - 1);
    HeldIntactNow(run[|run| - 1], slot);
  }

  lemma HeldIntactNow(s: State, slot: nat)
    requires 0 < s.size == |s.mem| && LandedIntact(s) && HeldOk(s) && slot in s.held
    ensures slot < |s.log| && s.held[slot].context == s.log[slot].start
    ensures RingBytes(s.mem, s.held[slot].off, s.held[slot].len) == s.log[slot].msg
  {
    var r := s.log[slot];
    assert Holds(s.mem, r.start, r.msg[..r.Landed()]);
    forall b | 0 <= b < |r.msg|
      ensures RingBytes(s.mem, s.held[slot].off, s.held[slot].len)[b] == r.msg[b]
    {
      AddToReduced(r.start, b, s.size);
      assert r.msg[..r.Landed()][b] == r.msg[b];
    }
  }

  /** Rebuilding the 64-bit offset is exact for every completion in the queue, whenever it is received. */
  lemma OffsetsRebuilt(run: seq<State>, c: nat)
    requires IsRun(run) && c < |run[|run| - 1].cq|
    ensures var s := run[|run| - 1];
            var wc := s.cq[c];
            wc.slot < |s.log| && GlobalOffset(s.inst.head, s.size, wc.imm) == s.log[wc.slot].start
  {
    RunKeepsInvariant(run, |run| - 1);
    NextOffsetExact(run[|run| - 1], c);
  }

  /** The message of the slot is handed over between s and t, and no other. */
  predicate Hands(s: State, t: State, slot: nat)
    requires 0 < |t.mem| && 0 < s.size
  {
    && slot < |s.log| && s.log[slot].phase.Arrived? && slot !in s.held
    && t.held.Keys == s.held.Keys + {slot}
    && t.held[slot] == Region(s.log[slot].start, s.log[slot].start % s.size, |s.log[slot].msg|)
    && RingBytes(t.mem, t.held[slot].off, t.held[slot].len) == s.log[slot].msg
  }

  lemma ReceiveHands(s: State)
    requires Inv(s) && s.cq != []
    ensures |Apply(s, Receive).mem| == |s.mem| && Hands(s, Apply(s, Receive), s.cq[0].slot)
  {
    var t, slot := Apply(s, Receive), s.cq[0].slot;
    NextOffsetExact(s, 0);
    assert Enabled(s, Receive);
    KeptByReceive(s);
    assert slot !in s.held && t.held.Keys == s.held.Keys + {slot};
    HeldIntactNow(t, slot);
  }

  /** Receive hands over exactly one message, one that was complete and not received before, byte for byte. */
  lemma ReceiveDelivers(run: seq<State>)
    requires IsRun(run) && run[|run| - 1].cq != []
    ensures var s := run[|run| - 1]; |Apply(s, Receive).mem| == |s.mem| && exists slot: nat :: Hands(s, Apply(s, Receive), slot)
  {
    RunKeepsInvariant(run, |run| - 1);
    ReceiveHands(run[|run| - 1]);
  }

  function Rank(phase: Phase): nat {
    match phase
    case Waiting => 0
    case Writing(_) => 1
    case Arrived => 2
    case Held => 3
    case Freed => 4
  }

  /** Slot k is as it was but for its phase, which has moved on by at most one rank; just its own receipt and free end it. */
  predicate Advances(s: State, a: Action, t: State, k: nat) {
    && k < |s.log| && k < |t.log| && t.log[k] == s.log[k].(phase := t.log[k].phase)
    && Rank(s.log[k].phase) <= Rank(t.log[k].phase) <= Rank(s.log[k].phase) + 1
    && (t.log[k].phase.Held? && !s.log[k].phase.Held? <==> a.Receive? && s.cq != [] && s.cq[0].slot == k)
    && (t.log[k].phase.Freed? && !s.log[k].phase.Freed? <==> a == Free(k))
  }

  lemma SenderAdvances(s: State, a: Action, k: nat)
    requires 0 < s.size == |s.mem| && Enabled(s, a) && (a.Post? || a.Land? || a.Complete?) && SenderOk(s, a.i) && k < |s.log|
    ensures Advances(s, a, Apply(s, a), k)
  {
  }

  lemma ReceiverAdvances(s: State, a: Action, k: nat)
    requires 0 < s.size == |s.mem| && Enabled(s, a) && (a.Receive? || a.Free?) && CompletionsOk(s) && HeldOk(s) && k < |s.log|
    ensures Advances(s, a, Apply(s, a), k)
  {
  }

  lemma OthersAdvance(s: State, a: Action, k: nat)
    requires 0 < s.size == |s.mem| && Enabled(s, a) && (a.Reserve? || a.ReadHead?) && k < |s.log|
    ensures Advances(s, a, Apply(s, a), k)
  {
  }

  /** Reservations never change their span, bytes or sender, and only move forward: nothing is delivered twice. */
  lemma ReservationsOnlyAdvance(s: State, a: Action, k: nat)
    requires 0 < s.size == |s.mem| && SendersOk(s) && CompletionsOk(s) && HeldOk(s) && Enabled(s, a) && k < |s.log|
    ensures Advances(s, a, Apply(s, a), k)
  {
    match a
    case Reserve(_, _) => OthersAdvance(s, a, k);
    case ReadHead(_) => OthersAdvance(s, a, k);
    case Post(i) => assert SenderOk(s, i); SenderAdvances(s, a, k);
    case Land(i) => assert SenderOk(s, i); SenderAdvances(s, a, k);
    case Complete(i) => assert SenderOk(s, i); SenderAdvances(s, a, k);
    case Receive => ReceiverAdvances(s, a, k);
    case Free(_) => ReceiverAdvances(s, a, k);
  }

  // ----- Tiling -----

  ghost predicate InFreedEntry(s: State, x: nat) { exists k :: k in s.inst.freed && k <= x < s.inst.freed[k] }

  ghost predicate InHeldRegion(s: State, x: nat) {
    exists k :: k in s.held && s.held[k].context <= x < s.held[k].context + s.held[k].len
  }

  ghost predicate InUnreceived(s: State, x: nat) {
    exists k :: 0 <= k < |s.log| && Rank(s.log[k].phase) < 3 && s.log[k].start <= x < s.log[k].End()
  }

  lemma {:induction false} SlotOf(s: State, x: nat, n: nat) returns (k: nat)
    requires LogTiles(s) && Increasing(s) && n <= |s.log| && x < Boundary(s, n)
    ensures k < n && s.log[k].start <= x < s.log[k].End()
  {
    if x >= Boundary(s, n - 1) {
      k := n - 1;
      assert s.log[k].End() == Boundary(s, n);
    } else {
      k := SlotOf(s, x, n - 1);
    }
  }

  lemma SlotUnique(s: State, x: nat, j: nat, k: nat)
    requires LogTiles(s) && Increasing(s) && j < |s.log| && k < |s.log|
    requires s.log[j].start <= x < s.log[j].End() && s.log[k].start <= x < s.log[k].End()
    ensures j == k
  {
    if j != k { SlotsDisjoint(s, j, k); }
  }

  lemma BoundariesInOrder(s: State, i: nat, j: nat)
    requires Increasing(s) && i <= |s.log| && j <= |s.log|
    ensures Boundary(s, i) < Boundary(s, j) <==> i < j
    ensures Boundary(s, i) <= Boundary(s, j) <==> i <= j
  {
  }

  lemma FreedEntryIffFreed(s: State, x: nat, k: nat)
    requires LogTiles(s) && Increasing(s) && FreedTracked(s) && Corresponds(s, s.inst.freed, s.segs)
    requires s.headSlot <= k < |s.log| && s.log[k].start <= x < s.log[k].End()
    ensures InFreedEntry(s, x) <==> s.log[k].phase.Freed?
  {
    assert s.log[k].phase.Freed? <==> Covered(s.segs, k);
    assert s.log[k].End() == Boundary(s, k + 1) && s.log[k].start == Boundary(s, k);
    if Covered(s.segs, k) {
      var i: nat :| i in s.segs && i <= k < s.segs[i];
      BoundariesInOrder(s, i, k);
      BoundariesInOrder(s, k + 1, s.segs[i]);
      assert Boundary(s, i) in s.inst.freed;
    }
    if InFreedEntry(s, x) {
      var key :| key in s.inst.freed && key <= x < s.inst.freed[key];
      assert StartsSegment(s, s.segs, key);
      var i: nat :| i in s.segs && Boundary(s, i) == key;
      BoundariesInOrder(s, i, k + 1);
      BoundariesInOrder(s, k, s.segs[i]);
    }
  }

  lemma TiledInside(s: State, x: nat, k: nat)
    requires Inv(s) && s.headSlot <= k < |s.log| && s.log[k].start <= x < s.log[k].End()
    ensures InFreedEntry(s, x) <==> s.log[k].phase.Freed?
    ensures InHeldRegion(s, x) <==> s.log[k].phase.Held?
    ensures InUnreceived(s, x) <==> Rank(s.log[k].phase) < 3
  {
    FreedEntryIffFreed(s, x, k);
    HeldIffHeld(s, x, k);
    if InUnreceived(s, x) {
      var j :| 0 <= j < |s.log| && Rank(s.log[j].phase) < 3 && s.log[j].start <= x < s.log[j].End();
      SlotUnique(s, x, j, k);
    }
  }

  /**
   Every stream offset between head and tail lies in exactly one of: an entry of the freed map, a held
   region, a reservation not received yet. Below the head and from the tail on there is none of them.
   */
  lemma WindowTiled(run: seq<State>, x: nat)
    requires IsRun(run)
    ensures var s := run[|run| - 1];
            var (a, b, c) := (InFreedEntry(s, x), InHeldRegion(s, x), InUnreceived(s, x));
            && ((a || b || c) <==> s.inst.head <= x < s.tail)
            && !(a && b) && !(a && c) && !(b && c)
  {
    RunKeepsInvariant(run, |run| - 1);
    TiledNow(run[|run| - 1], x);
  }

  lemma TiledNow(s: State, x: nat)
    requires Inv(s)
    ensures var (a, b, c) := (InFreedEntry(s, x), InHeldRegion(s, x), InUnreceived(s, x));
            && ((a || b || c) <==> s.inst.head <= x < s.tail)
            && !(a && b) && !(a && c) && !(b && c)
  {
    OnlyInsideWindow(s, x);
    if s.inst.head <= x < s.tail {
      var k := SlotInside(s, x);
      TiledInside(s, x, k);
    }
  }

  lemma SlotInside(s: State, x: nat) returns (k: nat)
    requires Tracked(s) && s.inst.head <= x < s.tail
    ensures s.headSlot <= k < |s.log| && s.log[k].start <= x < s.log[k].End()
  {
    k := SlotOf(s, x, |s.log|);
    assert s.log[k].End() == Boundary(s, k + 1);
    BoundariesInOrder(s, s.headSlot, k + 1);
  }

  lemma HeldIffHeld(s: State, x: nat, k: nat)
    requires Inv(s) && k < |s.log| && s.log[k].start <= x < s.log[k].End()
    ensures InHeldRegion(s, x) <==> s.log[k].phase.Held?
  {
    if InHeldRegion(s, x) {
      var j :| j in s.held && s.held[j].context <= x < s.held[j].context + s.held[j].len;
      SlotUnique(s, x, j, k);
    }
    if s.log[k].phase.Held? {
      assert k in s.held;
    }
  }

  lemma OnlyInsideWindow(s: State, x: nat)
    requires Inv(s)
    ensures InFreedEntry(s, x) || InHeldRegion(s, x) || InUnreceived(s, x) ==> s.inst.head <= x < s.tail
  {
    if InFreedEntry(s, x) {
      FreedEntryInWindow(s, x);
    }
    if InHeldRegion(s, x) {
      var j :| j in s.held && s.held[j].context <= x < s.held[j].context + s.held[j].len;
      SlotInWindow(s, j);
    }
    if InUnreceived(s, x) {
      var j :| 0 <= j < |s.log| && Rank(s.log[j].phase) < 3 && s.log[j].start <= x < s.log[j].End();
      SlotInWindow(s, j);
    }
  }

  lemma FreedEntryInWindow(s: State, x: nat)
    requires Tracked(s) && InFreedEntry(s, x)
    ensures s.inst.head < x < s.tail
  {
    var key :| key in s.inst.freed && key <= x < s.inst.freed[key];
    assert StartsSegment(s, s.segs, key);
    var i: nat :| i in s.segs && Boundary(s, i) == key;
    BoundariesInOrder(s, s.headSlot, i);
    BoundariesInOrder(s, s.segs[i], |s.log|);
  }

  lemma SlotInWindow(s: State, k: nat)
    requires Tracked(s) && k < |s.log| && !s.log[k].phase.Freed?
    ensures s.inst.head <= s.log[k].start && s.log[k].End() <= s.tail
  {
    AfterHead(s, k);
    assert s.log[k].End() == Boundary(s, k + 1) <= Boundary(s, |s.log|);
  }

  /** The head is the end of the longest prefix of reservations that are all freed, and never a key of the map. */
  lemma HeadIsFreedPrefix(run: seq<State>)
    requires IsRun(run)
    ensures var s := run[|run| - 1];
            && s.inst.head !in s.inst.freed
            && exists n ::
                 && 0 <= n <= |s.log| && s.inst.head == Boundary(s, n)
                 && (forall k :: 0 <= k < n ==> s.log[k].phase.Freed?)
                 && (n < |s.log| ==> !s.log[n].phase.Freed?)
  {
    var s := run[|run| - 1];
    RunKeepsInvariant(run, |run| - 1);
    assert !StartsSegment(s, s.segs, s.inst.head);
  }

  // ----- Progress -----

  /** How far the head that senders can read trails the true one. */
  function Lag(s: State): int { s.inst.head - s.inst.published }

  /**
   Once every region before a waiting reservation is freed, one fresh read of the head lets its sender
   through exactly when the message and the lag together are smaller than the ring.
   */
  lemma FreshHeadOpensGate(run: seq<State>, i: nat)
    requires IsRun(run)
    requires var s := run[|run| - 1]; Enabled(s, ReadHead(i)) && s.senders[i].slot == s.headSlot
    ensures var s := run[|run| - 1];
            Enabled(Apply(s, ReadHead(i)), Post(i)) <==> |s.senders[i].pc.msg| + Lag(s) < s.size
  {
    var s := run[|run| - 1];
    RunKeepsInvariant(run, |run| - 1);
    assert SenderOk(s, i);
    assert s.senders[i].pc.tail == Boundary(s, s.headSlot);
  }

  /** Without device memory there is no lag; with it, the lag is the head itself until that exceeds 10240. */
  lemma LagBounded(run: seq<State>)
    requires IsRun(run)
    ensures var s := run[|run| - 1];
            Lag(s) == if s.useDm && s.inst.head <= DM_UPDATE_DISTANCE then s.inst.head else 0
  {
    RunKeepsInvariant(run, |run| - 1);
  }

  /** A sender whose message, placed at the head, reaches past the ring that starts at the head it can read. */
  ghost predicate Stuck(s: State, i: nat) {
    && s.useDm && s.inst.head <= DM_UPDATE_DISTANCE
    && i < |s.senders| && s.senders[i].pc.AtGate? && s.senders[i].slot == s.headSlot
    && s.inst.head + |s.senders[i].pc.msg| >= s.size
  }

  /**
   A sender with everything before it freed passes after one fresh read, except in device-memory mode
   while head plus message reach the ring size. A message 10240 bytes smaller than the ring always passes.
   */
  lemma WaitingSenderPasses(run: seq<State>, i: nat)
    requires IsRun(run)
    requires var s := run[|run| - 1]; Enabled(s, ReadHead(i)) && s.senders[i].slot == s.headSlot
    ensures var s := run[|run| - 1];
            && (Enabled(Apply(s, ReadHead(i)), Post(i)) <==> !Stuck(s, i))
            && (!s.useDm || |s.senders[i].pc.msg| + DM_UPDATE_DISTANCE < s.size ==> !Stuck(s, i))
  {
    RunKeepsInvariant(run, |run| - 1);
    FreshHeadOpensGate(run, i);
    LagBounded(run);
    assert SenderOk(run[|run| - 1], i);
  }

  /** A stuck sender stays at its gate whatever anyone does. */
  lemma StuckForGood(s: State, a: Action, i: nat)
    requires Inv(s) && Enabled(s, a) && Stuck(s, i)
    ensures Stuck(Apply(s, a), i) && Apply(s, a).senders[i].pc == s.senders[i].pc
  {
    assert SenderOk(s, i);
    assert s.senders[i].pc.tail == Boundary(s, s.headSlot) == s.inst.head;
    match a
    case Free(slot) =>
      AfterHead(s, slot);
      assert s.log[slot].start == Boundary(s, slot) > s.inst.head;
    case _ =>
  }

  lemma Extend(run: seq<State>, a: Action)
    requires IsRun(run) && Enabled(run[|run| - 1], a)
    requires var t := Apply(run[|run| - 1], a); 0 < t.size == |t.mem|
    ensures IsRun(run + [Apply(run[|run| - 1], a)])
  {
    var longer := run + [Apply(run[|run| - 1], a)];
    forall k | 0 < k < |longer| ensures Next(longer[k - 1], longer[k]) {
      if k < |run| { assert Next(run[k - 1], run[k]); }
    }
  }

  /** One byte sent. */
  lemma OneByteLanding(size: nat) returns (run: seq<State>)
    requires 2 <= size
    ensures IsRun(run) && run[0].size == size
    ensures run[|run| - 1] == State(size, true, seq(size, _ => 0), 1, Instance(0, map[], 0), [],
                                    [Sender(0, Posted(0, [1], 0), 0)], map[], [Reservation(0, [1], 0, Writing(0))], 0, map[])
  {
    var s0 := State(size, true, seq(size, _ => 0), 0, Instance(0, map[], 0), [], [Sender(0, Idle, 0)], map[], [], 0, map[]);
    var s1 := Apply(s0, Reserve(0, [1]));
    assert s1 == s0.(tail := 1, senders := [Sender(0, AtGate(0, [1]), 0)], log := [Reservation(0, [1], 0, Waiting)]);
    run := [s0];
    Extend(run, Reserve(0, [1]));
    Extend(run + [s1], Post(0));
    run := run + [s1] + [Apply(s1, Post(0))];
  }

  lemma OneByteSent(size: nat) returns (run: seq<State>)
    requires 2 <= size
    ensures IsRun(run) && run[0].size == size
    ensures var mem := seq(size, _ => 0)[0 := 1];
            run[|run| - 1] == State(size, true, mem, 1, Instance(0, map[], 0), [Completion(0, 1, 0)],
                                    [Sender(0, Idle, 0)], map[], [Reservation(0, [1], 0, Arrived)], 0, map[])
  {
    run := OneByteLanding(size);
    var s2 := run[|run| - 1];
    var s3 := Apply(s2, Land(0));
    assert s3 == s2.(mem := s2.mem[0 := 1], senders := [Sender(0, Posted(0, [1], 1), 0)],
                     log := [Reservation(0, [1], 0, Writing(1))]);
    Extend(run, Land(0));
    Extend(run + [s3], Complete(0));
    run := run + [s3] + [Apply(s3, Complete(0))];
  }

  /** One byte sent, received and freed. */
  lemma OneByteDelivered(size: nat) returns (run: seq<State>)
    requires 2 <= size
    ensures IsRun(run) && run[0].size == size
    ensures var s := run[|run| - 1];
            && s.size == size && s.useDm && s.tail == 1 && s.inst == Instance(1, map[], 0)
            && s.senders == [Sender(0, Idle, 0)] && |s.log| == 1 && s.headSlot == 1
  {
    run := OneByteSent(size);
    var s4 := run[|run| - 1];
    var s5 := Apply(s4, Receive);
    assert s5 == s4.(cq := [], held := map[0 := Region(0, 0, 1)], log := [Reservation(0, [1], 0, Held)]);
    Extend(run, Receive);
    Extend(run + [s5], Free(0));
    run := run + [s5] + [Apply(s5, Free(0))];
  }

  /** For every ring size: once one byte is sent and freed, a message of all but one of the ring's bytes is stuck. */
  lemma StuckReachable(size: nat)
    requires 2 <= size
    ensures exists run: seq<State> :: IsRun(run) && run[0].size == size && Stuck(run[|run| - 1], 0)
  {
    var run := OneByteDelivered(size);
    var s := run[|run| - 1];
    var a := Reserve(0, seq(size - 1, _ => 2));
    Extend(run, a);
    assert Stuck((run + [Apply(s, a)])[|run|], 0);
  }
}
