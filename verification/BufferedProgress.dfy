/**
 The buffered-write protocol gets everything through: what is posted is delivered in a fixed number of steps, and then
 the receiver takes out just what is left, message by message. A free gives back just its own region.
 */
module BufferedProgress {
  import opened Bytes
  import opened RingBuffer
  import opened BufferedWrite

  // ----- The steps of a run -----

  ghost predicate NextAt(run: seq<State>, acts: seq<Action>, k: nat) {
    k < |acts| && k + 1 < |run| && IsNext(run[k], acts[k], run[k + 1])
  }

  ghost predicate Steps(run: seq<State>, acts: seq<Action>) {
    |run| == |acts| + 1 && forall k: nat {:trigger NextAt(run, acts, k)} :: k < |acts| ==> NextAt(run, acts, k)
  }

  lemma RunSteps(run: seq<State>, acts: seq<Action>, length: nat, imm: bool, readAck: bool)
    requires IsRun(run, acts, length, imm, readAck)
    ensures Steps(run, acts)
  {
    forall k: nat | k < |acts| ensures NextAt(run, acts, k) {
      assert IsNext(run[k], acts[k], run[k + 1]);
    }
  }

  // ----- All that is posted is announced -----

  /** With nothing left to post, the messages announced with what was posted are all there are. */
  predicate AllPosted(s: State) { s.chain == [] ==> s.postedCount == |s.msgs| }

  lemma DeliveredPosted(s: State)
    requires s.net != [] && s.mem != []
    ensures var t := Delivered(s); t.chain == s.chain && t.postedCount == s.postedCount && t.msgs == s.msgs
  {
  }

  lemma PreparedChains(s: State, payload: seq<Byte>)
    requires Enabled(s, Prepare(payload))
    ensures Prepared(s, payload).chain != []
  {
  }

  lemma OthersPosted(s: State, a: Action)
    requires Enabled(s, a) && !a.Prepare? && !a.Post? && !a.Deliver?
    ensures var t := Apply(s, a); t.chain == s.chain && t.postedCount == s.postedCount && t.msgs == s.msgs && t.net == s.net
  {
  }

  lemma StepPosts(s: State, a: Action)
    requires Enabled(s, a) && AllPosted(s)
    ensures AllPosted(Apply(s, a))
  {
    match a {
      case Prepare(payload) => PreparedChains(s, payload);
      case Post =>
      case Deliver => DeliveredPosted(s);
      case _ => OthersPosted(s, a);
    }
  }

  lemma {:induction false} PostedInRun(run: seq<State>, acts: seq<Action>, k: nat)
    requires Steps(run, acts) && k < |run| && AllPosted(run[0])
    ensures AllPosted(run[k])
  {
    if k > 0 {
      PostedInRun(run, acts, k - 1);
      assert NextAt(run, acts, k - 1);
      StepPosts(run[k - 1], acts[k - 1]);
    }
  }

  /** Nothing is left to post and nothing on its way to the receiver. */
  predicate Drained(s: State) { s.net == [] && s.chain == [] }

  lemma DrainedNow(s: State)
    requires Inv(s) && AllPosted(s) && Drained(s)
    ensures s.landed == |s.stream| && s.published == |s.msgs|
    ensures Enabled(s, Receive) <==> s.received < |s.msgs|
  {
    AnnouncedIffUnread(s);
  }

  /**
   In either mode, when all is posted and delivered, every byte has landed and every message is announced: the receiver
   can take a message exactly while there are some it has not taken.
   */
  lemma DrainedIsAnnounced(run: seq<State>, acts: seq<Action>, length: nat, imm: bool, readAck: bool, k: nat)
    requires 0 < length && IsRun(run, acts, length, imm, readAck) && k < |run| && Drained(run[k])
    ensures run[k].landed == |run[k].stream| && run[k].published == |Sent(acts, k)|
    ensures Enabled(run[k], Receive) <==> run[k].received < |Sent(acts, k)|
  {
    RunSteps(run, acts, length, imm, readAck);
    PostedInRun(run, acts, k);
    RunKeepsInvariant(run, acts, length, imm, readAck, k);
    RunDelivers(run, acts, length, imm, readAck, k);
    DrainedNow(run[k]);
  }

  // ----- The network gets done -----

  function OpWork(op: Op): nat { if op.Data? then |op.bytes| + 1 else 1 }

  /** How many steps it takes to deliver these operations. */
  function Work(ops: seq<Op>): nat { if ops == [] then 0 else OpWork(ops[0]) + Work(ops[1..]) }

  lemma WorkOf(op: Op, rest: seq<Op>)
    ensures Work([op] + rest) == OpWork(op) + Work(rest)
  {
    assert ([op] + rest)[1..] == rest;
  }

  lemma DeliverLowers(s: State)
    requires s.net != [] && s.mem != []
    ensures Work(Delivered(s).net) == Work(s.net) - 1
  {
    var op, rest := s.net[0], s.net[1..];
    if op.Data? && op.bytes != [] {
      WorkOf(Data(op.pos + 1, op.off + 1, op.bytes[1..]), rest);
    }
  }

  /** How many of the steps from i up to j deliver. */
  function Delivers(acts: seq<Action>, i: nat, j: nat): nat
    requires i <= j <= |acts|
  {
    if i == j then 0 else Delivers(acts, i, j - 1) + if acts[j - 1].Deliver? then 1 else 0
  }

  predicate NoneOf(acts: seq<Action>, i: nat, j: nat, posts: bool) {
    forall k :: i <= k < j <= |acts| ==> if posts then !acts[k].Post? else !acts[k].Prepare?
  }

  lemma PreparedNet(s: State, payload: seq<Byte>)
    requires Enabled(s, Prepare(payload))
    ensures Prepared(s, payload).net == s.net
  {
  }

  lemma StepWorks(s: State, a: Action)
    requires Enabled(s, a) && !a.Post?
    ensures Work(Apply(s, a).net) + (if a.Deliver? then 1 else 0) == Work(s.net)
  {
    match a {
      case Prepare(payload) => PreparedNet(s, payload);
      case Deliver => DeliverLowers(s);
      case _ => OthersPosted(s, a);
    }
  }

  lemma {:induction false} WorkDone(run: seq<State>, acts: seq<Action>, i: nat, j: nat)
    requires Steps(run, acts) && i <= j < |run| && NoneOf(acts, i, j, true)
    ensures Delivers(acts, i, j) + Work(run[j].net) == Work(run[i].net)
  {
    if i < j {
      WorkDone(run, acts, i, j - 1);
      assert NextAt(run, acts, j - 1);
      StepWorks(run[j - 1], acts[j - 1]);
    }
  }

  /** What is on its way has been delivered after just as many deliveries as it has bytes and operations. */
  lemma NetworkDrains(run: seq<State>, acts: seq<Action>, length: nat, imm: bool, readAck: bool, i: nat, j: nat)
    requires IsRun(run, acts, length, imm, readAck) && i <= j < |run| && NoneOf(acts, i, j, true)
    ensures Delivers(acts, i, j) <= Work(run[i].net)
    ensures Delivers(acts, i, j) == Work(run[i].net) <==> run[j].net == []
  {
    RunSteps(run, acts, length, imm, readAck);
    WorkDone(run, acts, i, j);
  }

  // ----- The receiver gets all of it -----

  function Receives(acts: seq<Action>, i: nat, j: nat): nat
    requires i <= j <= |acts|
  {
    if i == j then 0 else Receives(acts, i, j - 1) + if acts[j - 1].Receive? then 1 else 0
  }

  lemma DrainedStays(s: State, a: Action)
    requires Enabled(s, a) && Drained(s) && !a.Prepare?
    ensures Drained(Apply(s, a)) && Apply(s, a).received == s.received + if a.Receive? then 1 else 0
  {
    OthersPosted(s, a);
    StepSends(s, a, Apply(s, a));
  }

  lemma {:induction false} CountedWhileDrained(run: seq<State>, acts: seq<Action>, i: nat, j: nat)
    requires Steps(run, acts) && i <= j < |run| && NoneOf(acts, i, j, false) && Drained(run[i])
    ensures Drained(run[j]) && run[j].received == run[i].received + Receives(acts, i, j)
  {
    if i < j {
      CountedWhileDrained(run, acts, i, j - 1);
      assert NextAt(run, acts, j - 1);
      DrainedStays(run[j - 1], acts[j - 1]);
    }
  }

  /**
   From there on each receive takes the next message there is, whatever is freed and acknowledged meanwhile, and none is
   possible once all are taken: as many receives as messages are left give exactly the rest of what was sent.
   */
  lemma RestReceived(run: seq<State>, acts: seq<Action>, length: nat, imm: bool, readAck: bool, i: nat, j: nat)
    requires 0 < length && IsRun(run, acts, length, imm, readAck) && i <= j < |run|
    requires Drained(run[i]) && NoneOf(acts, i, j, false)
    ensures var taken := run[i].received + Receives(acts, i, j);
            && taken <= |Sent(acts, j)| && Taken(run, acts, j) == Sent(acts, j)[..taken]
            && (Enabled(run[j], Receive) <==> taken < |Sent(acts, j)|)
  {
    RunSteps(run, acts, length, imm, readAck);
    CountedWhileDrained(run, acts, i, j);
    DrainedIsAnnounced(run, acts, length, imm, readAck, j);
    RunDelivers(run, acts, length, imm, readAck, j);
  }

  /** So after a post that many deliveries bring all that was prepared to the receiver. */
  lemma PostedIsDelivered(run: seq<State>, acts: seq<Action>, length: nat, imm: bool, readAck: bool, i: nat, j: nat)
    requires 0 < length && IsRun(run, acts, length, imm, readAck) && i < j < |run| && acts[i].Post?
    requires NoneOf(acts, i + 1, j, true) && NoneOf(acts, i + 1, j, false)
    requires Delivers(acts, i + 1, j) >= Work(run[i + 1].net)
    ensures Drained(run[j]) && run[j].landed == |run[j].stream| && run[j].published == |Sent(acts, j)|
  {
    RunSteps(run, acts, length, imm, readAck);
    assert NextAt(run, acts, i);
    WorkDone(run, acts, i + 1, j);
    ChainStaysEmpty(run, acts, i + 1, j);
    DrainedIsAnnounced(run, acts, length, imm, readAck, j);
  }

  lemma ChainKept(s: State, a: Action)
    requires Enabled(s, a) && !a.Prepare? && s.chain == []
    ensures Apply(s, a).chain == []
  {
    match a {
      case Post =>
      case Deliver => DeliveredPosted(s);
      case _ => OthersPosted(s, a);
    }
  }

  lemma {:induction false} ChainStaysEmpty(run: seq<State>, acts: seq<Action>, i: nat, j: nat)
    requires Steps(run, acts) && i <= j < |run| && NoneOf(acts, i, j, false) && run[i].chain == []
    ensures run[j].chain == []
  {
    if i < j {
      ChainStaysEmpty(run, acts, i, j - 1);
      assert NextAt(run, acts, j - 1);
      ChainKept(run[j - 1], acts[j - 1]);
    }
  }

  // ----- What is in use -----

  /** A receive adds the region of the next message to those in use, a free takes out just its own; no other step does. */
  predicate InUseAfter(s: State, a: Action, t: State) {
    match a
    case Receive =>
      && s.received < |s.cuts| && s.cuts[s.received] !in s.held && s.cuts[s.received] in t.held
      && IsRegion(t, s.received, s.cuts[s.received], t.held[s.cuts[s.received]])
      && t.held == s.held[s.cuts[s.received] := t.held[s.cuts[s.received]]]
    case Free(pos) => pos in s.held && t.held == s.held - {pos}
    case _ => t.held == s.held
  }

  lemma DeliveredHeld(s: State)
    requires s.net != [] && s.mem != []
    ensures Delivered(s).held == s.held
  {
  }

  lemma FreedHeld(s: State, pos: nat)
    requires Enabled(s, Free(pos))
    ensures FreedNow(s, pos).held == s.held - {pos}
  {
    AcknowledgedFrame(Unlinked(s, pos));
  }

  lemma ReceivedHeld(s: State, t: State, len: nat)
    requires Places(s) && HeldOk(s) && Next(s, len) && Took(s, t, len)
    ensures InUseAfter(s, Receive, t)
  {
    ReadIsNew(s);
  }

  /** What is read next is behind all that is in use. */
  lemma ReadIsNew(s: State)
    requires Places(s)
    ensures s.cuts[s.received] !in s.outs
  {
    if s.cuts[s.received] in s.outs {
      var i :| 0 <= i < |s.outs| && s.outs[i] == s.cuts[s.received];
      OrderedRange(s.outs, 0, s.cuts[s.received], i);
    }
  }

  lemma StepInUse(s: State, a: Action)
    requires Inv(s) && Enabled(s, a)
    ensures InUseAfter(s, a, Apply(s, a))
  {
    match a {
      case Receive =>
        NextLengthIs(s);
        ReceivedTook(s);
        ReceivedHeld(s, ReceivedNow(s), NextLength(s));
      case Free(pos) => FreedHeld(s, pos);
      case Deliver => DeliveredHeld(s);
      case _ =>
    }
  }

  /** In every run each step does just that to the regions in use. */
  lemma InUseExactly(run: seq<State>, acts: seq<Action>, length: nat, imm: bool, readAck: bool, k: nat)
    requires 0 < length && IsRun(run, acts, length, imm, readAck) && k < |acts|
    ensures InUseAfter(run[k], acts[k], run[k + 1])
  {
    RunStep(run, acts, length, imm, readAck, k);
    StepInUse(run[k], acts[k]);
  }

  /** The head is the oldest region in use, or what is read next if none is, and the ring has its offset. */
  lemma HeadIsOldest(run: seq<State>, acts: seq<Action>, length: nat, imm: bool, readAck: bool, k: nat)
    requires 0 < length && IsRun(run, acts, length, imm, readAck) && k < |run|
    ensures var s := run[k];
            && Counts(s) && s.ring.head == Head(s) % length
            && (if s.held == map[] then Head(s) == s.cuts[s.received] else Head(s) in s.held)
            && forall x: nat :: x in s.held ==> Head(s) <= x
  {
    RunKeepsInvariant(run, acts, length, imm, readAck, k);
    SameMode(run, acts, length, imm, readAck, k);
    OldestNow(run[k]);
  }

  lemma OldestNow(s: State)
    requires Places(s) && HeldOk(s)
    ensures s.ring.head == Head(s) % s.ring.length
    ensures if s.held == map[] then Head(s) == s.cuts[s.received] else Head(s) in s.held
    ensures forall x: nat :: x in s.held ==> Head(s) <= x
  {
    forall x: nat | x in s.held ensures Head(s) <= x {
      HeadBefore(s, x);
    }
    if s.outs == [] {
      assert s.held == map[];
    } else {
      assert s.outs[0] in s.held;
    }
  }

  // ----- When the head is flushed -----

  /** One position is more than half a length ahead of another, modulo the length. */
  predicate FarAhead(from: nat, to: nat, l: nat) { 0 < l && from <= to && (to - from) % l > l / 2 }

  /** The head counts as flushed, and with send acknowledgements is on its way to the sender, or nothing changes. */
  predicate FlushedIf(s: State, t: State, far: bool)
    requires Counts(t)
  {
    if far then t.flushed == Head(t) && t.acks == s.acks + (if s.readAck then [] else [t.ring.head])
    else t.flushed == s.flushed && t.acks == s.acks
  }

  lemma ExceedsIfFar(flushed: nat, head: nat, l: nat)
    requires 0 < l && flushed <= head
    ensures Exceeds(head % l, flushed % l, l) <==> FarAhead(flushed, head, l)
  {
    ExceedsByOffset(flushed, head, l);
  }

  lemma AcknowledgedIf(s: State, far: bool)
    requires Counts(s) && far == Exceeds(s.ring.head, s.acked, s.ring.length)
    ensures var t := Acknowledged(s); Counts(t) && Head(t) == Head(s) && FlushedIf(s, t, far)
  {
  }

  lemma UnlinkedFar(s: State)
    requires Counts(s) && FlushedPlace(s) && s.ring.head == Head(s) % s.ring.length
    ensures s.flushed <= Head(s)
    ensures Exceeds(s.ring.head, s.acked, s.ring.length) <==> FarAhead(s.flushed, Head(s), s.ring.length)
  {
    ExceedsIfFar(s.flushed, Head(s), s.ring.length);
  }

  lemma UnlinkedAcks(s: State, pos: nat)
    requires Enabled(s, Free(pos))
    ensures var u := Unlinked(s, pos); u.acks == s.acks && u.readAck == s.readAck && u.flushed == s.flushed
  {
  }

  lemma FreeFlushes(s: State, pos: nat)
    requires Inv(s) && Enabled(s, Free(pos))
    ensures var t := FreedNow(s, pos); Counts(t) && FlushedIf(s, t, FarAhead(s.flushed, Head(t), s.ring.length))
  {
    UnlinkedKeeps(s, pos);
    UnlinkedFlushed(s, pos);
    UnlinkedFar(Unlinked(s, pos));
    AcknowledgedIf(Unlinked(s, pos), FarAhead(s.flushed, Head(Unlinked(s, pos)), s.ring.length));
    UnlinkedAcks(s, pos);
  }

  /**
   After a free the head is flushed exactly if it is more than half a length ahead of the last one flushed, as far as
   offsets tell: modulo the length.
   */
  lemma FlushesExactly(run: seq<State>, acts: seq<Action>, length: nat, imm: bool, readAck: bool, k: nat)
    requires 0 < length && IsRun(run, acts, length, imm, readAck) && k < |acts| && acts[k].Free?
    ensures run[k].readAck == readAck && Counts(run[k + 1])
    ensures FlushedIf(run[k], run[k + 1], FarAhead(run[k].flushed, Head(run[k + 1]), length))
  {
    RunStep(run, acts, length, imm, readAck, k);
    SameMode(run, acts, length, imm, readAck, k);
    FreeFlushes(run[k], acts[k].pos);
  }
}
