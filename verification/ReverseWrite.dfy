/**
 Messages through the reversed ring, with arrival shown by a byte inside the message.

 A message is written with one remote write from its low end up: a zero byte for the message to come, the payload,
 the length, and a byte 1. The network lands bytes in that order, one write after the other, so the byte 1, for which
 the receiver polls, comes last. The application frees each region before it receives the next.
 */
module ReverseWrite {
  import opened Bytes
  import opened Modular
  import opened ReverseRing
  import RingBuffer

  /** The bytes of a write, from its low end up. */
  function WireOf(payload: seq<Byte>): (w: seq<Byte>)
    requires 5 + |payload| < WORD32
    ensures |w| == |payload| + 6
  {
    [0] + payload + Encode(5 + |payload|) + [1]
  }

  /** What a message adds to the stream, where positions run downwards in memory: its write from the top, without the zero byte. */
  function Body(payload: seq<Byte>): (b: seq<Byte>)
    requires 5 + |payload| < WORD32
    ensures |b| == 5 + |payload|
  {
    seq(5 + |payload|, k requires 0 <= k < 5 + |payload| => WireOf(payload)[|payload| + 5 - k])
  }

  /** A write on its way: `off` is where its next byte goes. */
  datatype Put = Put(off: nat, bytes: seq<Byte>)

  datatype Region = Region(off: nat, len: int)

  /**
   History: the messages, where they begin and end in the stream, how many have landed and were received, how many
   bytes of the next write have landed, the positions of the sender's head and of the heads on their way.
   */
  datatype State = State(
    remote: RingBuffer.Remote, net: seq<Put>, acks: seq<nat>,
    mem: seq<Byte>, ring: Ring, held: seq<Region>,
    msgs: seq<seq<Byte>>, cuts: seq<nat>, stream: seq<Byte>, landed: nat, received: nat, partial: nat,
    senderHead: nat, ackPos: seq<nat>)

  function Start(length: nat): State {
    State(RingBuffer.NewRemote(length), [], [], seq(length, _ => 0), NewRing(length), [], [], [0], [], 0, 0, 0, 0, [])
  }

  datatype Action = Send(payload: seq<Byte>) | Deliver | Receive | Free | Announce | GetHead

  predicate Sendable(s: State, payload: seq<Byte>) { 6 + |payload| < s.remote.length && 6 + |payload| < WORD32 }

  /** Receive is the application's: it has freed what it received before. */
  predicate Enabled(s: State, a: Action) {
    && s.mem != [] && s.ring.length == |s.mem|
    && match a
       case Send(payload) => Sendable(s, payload) && Accepts(s.remote, |payload| + 6)
       case Deliver => s.net != []
       case Receive => s.held == [] && 0 <= ReadOff(s.ring) && s.mem[ReadOff(s.ring) % |s.mem|] != 0
       case Free => s.held != [] && s.ring.outstanding != []
       case Announce => true
       case GetHead => s.acks != []
  }

  function Sent(s: State, payload: seq<Byte>): State
    requires Enabled(s, Send(payload))
  {
    var at := Down(s.remote.tail, |payload| + 6, s.remote.length);
    s.(net := s.net + [Put(at, WireOf(payload))], remote := Written(s.remote, |payload| + 5),
       msgs := s.msgs + [payload], cuts := s.cuts + [|s.stream| + 5 + |payload|], stream := s.stream + Body(payload))
  }

  /** The next byte lands; with the last one the message has landed. */
  function Delivered(s: State): State
    requires s.net != [] && s.mem != []
  {
    var w, rest := s.net[0], s.net[1..];
    if w.bytes == [] then s.(net := rest)
    else
      var t := s.(mem := s.mem[w.off % |s.mem| := w.bytes[0]]);
      if |w.bytes| == 1 then t.(net := rest, landed := s.landed + 1, partial := 0)
      else t.(net := [Put(w.off + 1, w.bytes[1..])] + rest, partial := s.partial + 1)
  }

  /** The length field ends just below the polled byte, read in the mirrored half of the mapping. */
  function NextLength(s: State): nat
    requires s.mem != [] && 4 <= ReadOff(s.ring) + s.ring.length
  {
    Decode(Cells(s.mem, ReadOff(s.ring) + s.ring.length - 4, 4))
  }

  function ReceivedNow(s: State): State
    requires s.mem != [] && 4 <= ReadOff(s.ring) + s.ring.length
  {
    var len := NextLength(s);
    if len > s.ring.readPtr + s.ring.length then s
    else
      var ring := ReadFrom(s.ring, len);
      s.(ring := ring, held := [Region(ring.readPtr, len - 5)], received := s.received + 1)
  }

  function FreedNow(s: State): State
    requires s.held != [] && s.ring.outstanding != []
  {
    s.(ring := Freed(s.ring, s.held[0].off), held := [])
  }

  /** Where the head is: at the region in use, or else at what is read next. */
  function Head(s: State): nat
    requires s.received < |s.cuts|
  {
    if s.held == [] || s.received == 0 then s.cuts[s.received] else s.cuts[s.received - 1]
  }

  function Announced(s: State): State {
    s.(acks := s.acks + [s.ring.head], ackPos := s.ackPos + [if s.received < |s.cuts| then Head(s) else 0])
  }

  function HeadGot(s: State): State
    requires s.acks != []
  {
    s.(remote := RingBuffer.HeadUpdated(s.remote, s.acks[0]), acks := s.acks[1..],
       senderHead := if s.ackPos != [] then s.ackPos[0] else s.senderHead,
       ackPos := if s.ackPos != [] then s.ackPos[1..] else s.ackPos)
  }

  function Apply(s: State, a: Action): State
    requires Enabled(s, a)
  {
    match a
    case Send(payload) => Sent(s, payload)
    case Deliver => Delivered(s)
    case Receive => if 4 <= ReadOff(s.ring) + s.ring.length then ReceivedNow(s) else s
    case Free => FreedNow(s)
    case Announce => Announced(s)
    case GetHead => HeadGot(s)
  }

  // ----- The invariant -----

  /** Message i lies between its cuts. */
  predicate MsgAt(msgs: seq<seq<Byte>>, cuts: seq<nat>, stream: seq<Byte>, i: nat)
    requires i < |msgs| && |cuts| == |msgs| + 1
  {
    && 6 + |msgs[i]| < WORD32
    && cuts[i + 1] == cuts[i] + 5 + |msgs[i]| <= |stream| && stream[cuts[i]..cuts[i + 1]] == Body(msgs[i])
  }

  predicate MsgsOk(msgs: seq<seq<Byte>>, cuts: seq<nat>, stream: seq<Byte>) {
    && |cuts| == |msgs| + 1 && cuts[0] == 0 && cuts[|msgs|] == |stream|
    && forall i {:trigger MsgAt(msgs, cuts, stream, i)} :: 0 <= i < |msgs| ==> MsgAt(msgs, cuts, stream, i)
  }

  predicate Counts(s: State) {
    && s.received <= s.landed <= |s.msgs| && |s.cuts| == |s.msgs| + 1
    && s.cuts[s.received] <= s.cuts[s.landed] <= |s.stream|
  }

  /** The ring with at most one region in use. */
  predicate RingOk(s: State)
    requires Counts(s)
  {
    && s.ring.length == |s.mem| > 0
    && s.ring.readPtr == Offset(s.cuts[s.received], |s.mem|) && s.ring.head == Offset(Head(s), |s.mem|)
    && s.ring.outstanding == (if s.held == [] then [] else [s.ring.readPtr])
    && (s.held != [] ==> |s.held| == 1 && 0 < s.received && s.held[0] == Region(s.ring.readPtr, |s.msgs[s.received - 1]|))
    && Head(s) <= s.cuts[s.received]
  }

  predicate Places(s: State) {
    && Counts(s) && RingOk(s) && s.remote.length == |s.mem|
    && Tracks(s.remote, s.senderHead, |s.stream|) && s.senderHead <= Head(s)
  }

  /** The writes on their way are those of the messages from number n on; `done` bytes of the first have landed. */
  predicate Flow(msgs: seq<seq<Byte>>, cuts: seq<nat>, l: nat, net: seq<Put>, n: nat, done: nat) {
    if net == [] then n == |msgs| && done == 0
    else
      && n < |msgs| && |cuts| == |msgs| + 1 && 6 + |msgs[n]| < WORD32 && done < |msgs[n]| + 6
      && net[0].bytes == WireOf(msgs[n])[done..] && 0 < l && 5 + |msgs[n]| <= cuts[n + 1]
      && net[0].off == Offset(cuts[n + 1] + 1, l) + done
      && Flow(msgs, cuts, l, net[1..], n + 1, 0)
  }

  /** The memory holds the bytes of the stream between two positions. */
  predicate StreamIn(mem: seq<Byte>, stream: seq<Byte>, from: nat, to: nat) {
    && mem != [] && to <= |stream|
    && forall x {:trigger stream[x]} :: from <= x < to ==> mem[Cell(x, |mem|)] == stream[x]
  }

  /** The first k bytes of a write with its low end at position `end` have landed. */
  predicate PartIn(mem: seq<Byte>, wire: seq<Byte>, end: nat, k: nat) {
    && mem != [] && k <= |wire| && k <= end
    && forall j :: 0 <= j < k ==> mem[Cell(end - j, |mem|)] == wire[j]
  }

  /** The ring holds the stream from the head to the last message that landed, and a zero byte for the one to come. */
  predicate MemOk(s: State)
    requires Counts(s)
  {
    StreamIn(s.mem, s.stream, Head(s), s.cuts[s.landed]) && s.mem[Cell(s.cuts[s.landed], |s.mem|)] == 0
  }

  /** The bytes of the next write that have landed, from its low end up. */
  predicate PartOk(s: State)
    requires Counts(s)
  {
    s.partial > 0 ==>
      && s.landed < |s.msgs| && 6 + |s.msgs[s.landed]| < WORD32 && s.partial < |s.msgs[s.landed]| + 6
      && PartIn(s.mem, WireOf(s.msgs[s.landed]), s.cuts[s.landed + 1], s.partial)
  }

  /** The offsets of some heads. */
  predicate OffsetsOf(acks: seq<nat>, heads: seq<nat>, l: nat) {
    0 < l && |acks| == |heads| && forall i :: 0 <= i < |heads| ==> acks[i] == Offset(heads[i], l)
  }

  predicate AcksOk(s: State)
    requires Counts(s)
  {
    OffsetsOf(s.acks, s.ackPos, |s.mem|) && RingBuffer.HeadsBetween(s.senderHead, s.ackPos, Head(s))
  }

  predicate Inv(s: State) {
    && Places(s) && MsgsOk(s.msgs, s.cuts, s.stream) && Flow(s.msgs, s.cuts, |s.mem|, s.net, s.landed, s.partial)
    && MemOk(s) && PartOk(s) && AcksOk(s)
  }

  // ----- Cells and bodies -----

  /** Below the cell of position p, going down through the mirrored half, come the cells of the positions after it. */
  lemma CellsDownwards(p: nat, j: nat, l: nat)
    requires 0 < l && j <= l
    ensures (Cell(p, l) + l - j) % l == Cell(p + j, l)
  {
    var x, y := p % l, (p + j) % l;
    AddToReduced(p, j, l);
    if x + j < l {
      UniqueRemainder(x + j, 0, x + j, l);
      UniqueRemainder(l - 1 - x + l - j, 1, l - 1 - x - j, l);
    } else if x + j < 2 * l {
      UniqueRemainder(x + j, 1, x + j - l, l);
      UniqueRemainder(l - 1 - x + l - j, 0, l - 1 - x + l - j, l);
    }
  }

  lemma WireParts(payload: seq<Byte>)
    requires 5 + |payload| < WORD32
    ensures var w, n := WireOf(payload), |payload|;
            && w[0] == 0 && w[n + 5] == 1 && w[1..n + 1] == payload && w[n + 1..n + 5] == Encode(5 + n)
  {
  }

  /** A byte read through an offset is the one of the stream whose position has that cell. */
  lemma CellIsStream(mem: seq<Byte>, stream: seq<Byte>, from: nat, to: nat, off: nat, n: nat, k: nat, x: nat)
    requires StreamIn(mem, stream, from, to) && k < n && from <= x < to && (off + k) % |mem| == Cell(x, |mem|)
    ensures Cells(mem, off, n)[k] == stream[x]
  {
    assert mem[Cell(x, |mem|)] == stream[x];
  }

  lemma {:induction false} CutsIncrease(msgs: seq<seq<Byte>>, cuts: seq<nat>, stream: seq<Byte>, i: nat, j: nat)
    requires MsgsOk(msgs, cuts, stream) && i < j <= |msgs|
    ensures cuts[i] < cuts[j]
  {
    var k := j - 1;
    assert MsgAt(msgs, cuts, stream, k);
    if i < k {
      CutsIncrease(msgs, cuts, stream, i, k);
    }
  }

  lemma HeadLags(s: State)
    requires Places(s)
    ensures s.senderHead <= Head(s) <= s.cuts[s.received] <= s.cuts[s.landed] <= |s.stream| < s.senderHead + |s.mem|
  {
  }

  // ----- Sending -----

  lemma MsgStays(msgs: seq<seq<Byte>>, cuts: seq<nat>, stream: seq<Byte>, i: nat, payload: seq<Byte>, cut: nat, more: seq<Byte>)
    requires i < |msgs| && |cuts| == |msgs| + 1 && MsgAt(msgs, cuts, stream, i)
    ensures MsgAt(msgs + [payload], cuts + [cut], stream + more, i)
  {
    assert (stream + more)[cuts[i]..cuts[i + 1]] == stream[cuts[i]..cuts[i + 1]];
  }

  lemma MsgAdded(msgs: seq<seq<Byte>>, cuts: seq<nat>, stream: seq<Byte>, payload: seq<Byte>)
    requires |cuts| == |msgs| + 1 && cuts[|msgs|] == |stream| && 6 + |payload| < WORD32
    ensures MsgAt(msgs + [payload], cuts + [|stream| + 5 + |payload|], stream + Body(payload), |msgs|)
  {
    assert (stream + Body(payload))[|stream|..|stream| + 5 + |payload|] == Body(payload);
  }

  lemma SentMsgs(msgs: seq<seq<Byte>>, cuts: seq<nat>, stream: seq<Byte>, payload: seq<Byte>)
    requires MsgsOk(msgs, cuts, stream) && 6 + |payload| < WORD32
    ensures MsgsOk(msgs + [payload], cuts + [|stream| + 5 + |payload|], stream + Body(payload))
  {
    var cut := |stream| + 5 + |payload|;
    forall i | 0 <= i < |msgs + [payload]| ensures MsgAt(msgs + [payload], cuts + [cut], stream + Body(payload), i) {
      if i < |msgs| {
        MsgStays(msgs, cuts, stream, i, payload, cut, Body(payload));
      } else {
        MsgAdded(msgs, cuts, stream, payload);
      }
    }
  }

  lemma {:induction false} FlowSend(msgs: seq<seq<Byte>>, cuts: seq<nat>, l: nat, net: seq<Put>, n: nat, done: nat,
                                    payload: seq<Byte>, cut: nat)
    requires Flow(msgs, cuts, l, net, n, done) && 0 < l && |cuts| == |msgs| + 1 && 6 + |payload| < WORD32
    requires 5 + |payload| <= cut
    ensures Flow(msgs + [payload], cuts + [cut], l, net + [Put(Offset(cut + 1, l), WireOf(payload))], n, done)
  {
    var put := Put(Offset(cut + 1, l), WireOf(payload));
    if net == [] {
      assert (net + [put])[1..] == [];
      assert WireOf(payload)[0..] == WireOf(payload);
    } else {
      assert (net + [put])[1..] == net[1..] + [put];
      FlowSend(msgs, cuts, l, net[1..], n + 1, 0, payload, cut);
    }
  }

  lemma SendKeeps(s: State, payload: seq<Byte>)
    requires Inv(s) && Enabled(s, Send(payload))
    ensures Inv(Sent(s, payload))
  {
    var l, at := |s.mem|, |s.stream|;
    DownIsOffset(at, |payload| + 6, l);
    SentPlaces(s, payload);
    SentMsgs(s.msgs, s.cuts, s.stream, payload);
    SentFlow(s, payload);
    SentRest(s, payload);
  }

  lemma SentFlow(s: State, payload: seq<Byte>)
    requires Flow(s.msgs, s.cuts, |s.mem|, s.net, s.landed, s.partial) && |s.cuts| == |s.msgs| + 1
    requires Enabled(s, Send(payload)) && s.remote.length == |s.mem|
    requires Down(s.remote.tail, |payload| + 6, |s.mem|) == Offset(|s.stream| + 6 + |payload|, |s.mem|)
    ensures var t := Sent(s, payload); Flow(t.msgs, t.cuts, |t.mem|, t.net, t.landed, t.partial)
  {
    FlowSend(s.msgs, s.cuts, |s.mem|, s.net, s.landed, s.partial, payload, |s.stream| + 5 + |payload|);
  }

  lemma SentPlaces(s: State, payload: seq<Byte>)
    requires Places(s) && Enabled(s, Send(payload))
    ensures Places(Sent(s, payload)) && Head(Sent(s, payload)) == Head(s)
  {
    AcceptsIffRoom(s.remote, s.senderHead, |s.stream|, |payload| + 6);
    AcceptsIffRoom(s.remote, s.senderHead, |s.stream|, |payload| + 5);
  }

  lemma SentRest(s: State, payload: seq<Byte>)
    requires Counts(s) && MemOk(s) && PartOk(s) && AcksOk(s) && Enabled(s, Send(payload))
    requires Counts(Sent(s, payload)) && Head(Sent(s, payload)) == Head(s)
    ensures var t := Sent(s, payload); MemOk(t) && PartOk(t) && AcksOk(t)
  {
  }

  // ----- Delivery -----

  lemma FlowFirst(msgs: seq<seq<Byte>>, cuts: seq<nat>, l: nat, net: seq<Put>, n: nat, done: nat)
    requires Flow(msgs, cuts, l, net, n, done) && net != []
    ensures |net[0].bytes| == |msgs[n]| + 6 - done && net[0].bytes[0] == WireOf(msgs[n])[done]
    ensures net[0].off % l == Cell(cuts[n + 1] - done, l)
  {
    FirstPut(msgs, cuts, l, net, n, done);
    PutCell(net[0].off, cuts[n + 1], done, l);
  }

  lemma PutCell(off: nat, end: nat, done: nat, l: nat)
    requires 0 < l && off == Offset(end + 1, l) + done && done <= end
    ensures off % l == Cell(end - done, l)
  {
    CellsUpwards(end + 1, done, l);
  }

  lemma FirstPut(msgs: seq<seq<Byte>>, cuts: seq<nat>, l: nat, net: seq<Put>, n: nat, done: nat)
    requires Flow(msgs, cuts, l, net, n, done) && net != []
    ensures 0 < l && net[0].off == Offset(cuts[n + 1] + 1, l) + done && done <= cuts[n + 1]
    ensures |net[0].bytes| == |msgs[n]| + 6 - done && net[0].bytes[0] == WireOf(msgs[n])[done]
  {
  }

  /** The next byte belongs to the message after those that landed, and goes to the cell of its position. */
  lemma NextByte(s: State)
    requires Counts(s) && MsgsOk(s.msgs, s.cuts, s.stream) && s.net != []
    requires Flow(s.msgs, s.cuts, |s.mem|, s.net, s.landed, s.partial)
    ensures s.landed < |s.msgs| && 6 + |s.msgs[s.landed]| < WORD32 && s.partial < |s.msgs[s.landed]| + 6
    ensures var n, k, w := s.landed, s.partial, s.net[0];
            && s.cuts[n + 1] == s.cuts[n] + 5 + |s.msgs[n]| <= |s.stream|
            && s.stream[s.cuts[n]..s.cuts[n + 1]] == Body(s.msgs[n])
            && |w.bytes| == |s.msgs[n]| + 6 - k && w.bytes[0] == WireOf(s.msgs[n])[k]
            && s.mem != [] && w.off % |s.mem| == Cell(s.cuts[n + 1] - k, |s.mem|)
  {
    FlowFirst(s.msgs, s.cuts, |s.mem|, s.net, s.landed, s.partial);
    assert MsgAt(s.msgs, s.cuts, s.stream, s.landed);
  }

  lemma DeliverKeeps(s: State)
    requires Inv(s) && Enabled(s, Deliver)
    ensures Inv(Delivered(s))
  {
    NextByte(s);
    HeadLags(s);
    DeliveredFlow(s);
    DeliveredByte(s);
    LandKeeps(s, Delivered(s));
  }

  /** The next byte has landed. */
  predicate ByteLanded(s: State, t: State) {
    && s.net != [] && s.mem != [] && s.net[0].bytes != []
    && var w, rest := s.net[0], s.net[1..];
    var mem := s.mem[w.off % |s.mem| := w.bytes[0]];
    if |w.bytes| == 1 then t == s.(mem := mem, net := rest, landed := s.landed + 1, partial := 0)
    else t == s.(mem := mem, net := [Put(w.off + 1, w.bytes[1..])] + rest, partial := s.partial + 1)
  }

  lemma DeliveredByte(s: State)
    requires s.net != [] && s.mem != [] && s.net[0].bytes != []
    ensures ByteLanded(s, Delivered(s))
  {
  }

  /** The byte that lands is byte `partial` of the write of the message after those that landed. */
  predicate NextLands(s: State)
    requires Counts(s)
  {
    && s.landed < |s.msgs| && MsgAt(s.msgs, s.cuts, s.stream, s.landed) && s.partial < |s.msgs[s.landed]| + 6
    && s.net != [] && s.mem != [] && s.cuts[s.landed + 1] < Head(s) + |s.mem| && Head(s) <= s.cuts[s.landed]
    && var w, wire := s.net[0], WireOf(s.msgs[s.landed]);
    && |w.bytes| == |wire| - s.partial && w.bytes[0] == wire[s.partial]
    && w.off % |s.mem| == Cell(s.cuts[s.landed + 1] - s.partial, |s.mem|)
  }

  lemma LandKeeps(s: State, t: State)
    requires Inv(s) && ByteLanded(s, t) && NextLands(s)
    requires Flow(t.msgs, t.cuts, |t.mem|, t.net, t.landed, t.partial)
    ensures Inv(t)
  {
    LandRest(s, t);
    LandMemory(s, t);
  }

  lemma LandRest(s: State, t: State)
    requires Places(s) && AcksOk(s) && ByteLanded(s, t) && NextLands(s)
    ensures Places(t) && AcksOk(t) && Head(t) == Head(s)
  {
  }

  lemma LandMemory(s: State, t: State)
    requires Counts(s) && MemOk(s) && PartOk(s) && ByteLanded(s, t) && NextLands(s) && Counts(t) && Head(t) == Head(s)
    ensures MemOk(t) && PartOk(t)
  {
    var wire, from, end := WireOf(s.msgs[s.landed]), s.cuts[s.landed], s.cuts[s.landed + 1];
    if s.partial + 1 < |wire| {
      ByteIn(s.mem, s.stream, wire, Head(s), from, end, s.partial, s.net[0].off);
    } else {
      WireBytes(s.stream, from, end, s.msgs[s.landed]);
      LastIn(s.mem, s.stream, wire, Head(s), from, end, s.net[0].off);
    }
  }

  lemma DeliveredFlow(s: State)
    requires Flow(s.msgs, s.cuts, |s.mem|, s.net, s.landed, s.partial) && s.net != [] && s.mem != []
    ensures var t := Delivered(s); Flow(t.msgs, t.cuts, |t.mem|, t.net, t.landed, t.partial)
  {
    if |s.net[0].bytes| > 1 {
      FlowByte(s.msgs, s.cuts, |s.mem|, s.net, s.landed, s.partial);
    }
  }

  lemma FlowByte(msgs: seq<seq<Byte>>, cuts: seq<nat>, l: nat, net: seq<Put>, n: nat, done: nat)
    requires Flow(msgs, cuts, l, net, n, done) && net != [] && |net[0].bytes| > 1
    ensures Flow(msgs, cuts, l, [Put(net[0].off + 1, net[0].bytes[1..])] + net[1..], n, done + 1)
  {
    var net' := [Put(net[0].off + 1, net[0].bytes[1..])] + net[1..];
    var wire := WireOf(msgs[n]);
    DropMore(wire, done);
    assert net'[1..] == net[1..];
  }

  lemma DropMore(wire: seq<Byte>, done: nat)
    requires done < |wire|
    ensures wire[done..][1..] == wire[done + 1..]
  {
  }

  /** A byte that lands at a cell leaves the stream that is in use elsewhere alone. */
  lemma StreamStays(mem: seq<Byte>, stream: seq<Byte>, head: nat, to: nat, at: nat, byte: Byte)
    requires StreamIn(mem, stream, head, to) && head <= to <= at < head + |mem|
    ensures StreamIn(mem[Cell(at, |mem|) := byte], stream, head, to)
  {
    forall x {:trigger stream[x]} | head <= x < to ensures mem[Cell(at, |mem|) := byte][Cell(x, |mem|)] == stream[x] {
      DifferentReverseCells(x, at, head, |mem|);
      assert mem[Cell(x, |mem|)] == stream[x];
    }
  }

  lemma PartGrows(mem: seq<Byte>, wire: seq<Byte>, head: nat, from: nat, end: nat, k: nat)
    requires PartIn(mem, wire, end, k) && head <= from && end == from + |wire| - 1 < head + |mem| && k < |wire|
    ensures var mem' := mem[Cell(end - k, |mem|) := wire[k]];
            PartIn(mem', wire, end, k) && (k < end ==> PartIn(mem', wire, end, k + 1))
  {
    var mem' := mem[Cell(end - k, |mem|) := wire[k]];
    forall j | 0 <= j < k ensures mem'[Cell(end - j, |mem|)] == wire[j] {
      DifferentReverseCells(end - j, end - k, head, |mem|);
    }
  }

  /** A byte that is not the last one disturbs neither what is in use nor the zero byte polled for. */
  lemma ByteIn(mem: seq<Byte>, stream: seq<Byte>, wire: seq<Byte>, head: nat, from: nat, end: nat, k: nat, off: nat)
    requires StreamIn(mem, stream, head, from) && mem[Cell(from, |mem|)] == 0 && (k > 0 ==> PartIn(mem, wire, end, k))
    requires head <= from && end == from + |wire| - 1 < head + |mem| && k + 1 < |wire| && off % |mem| == Cell(end - k, |mem|)
    ensures var mem' := mem[off % |mem| := wire[k]];
            StreamIn(mem', stream, head, from) && mem'[Cell(from, |mem|)] == 0 && PartIn(mem', wire, end, k + 1)
  {
    StreamStays(mem, stream, head, from, end - k, wire[k]);
    PartGrows(mem, wire, head, from, end, k);
    DifferentReverseCells(from, end - k, head, |mem|);
  }

  /** With the last byte the whole message is there, and below it the zero byte for the next one. */
  lemma LastIn(mem: seq<Byte>, stream: seq<Byte>, wire: seq<Byte>, head: nat, from: nat, end: nat, off: nat)
    requires StreamIn(mem, stream, head, from) && 2 <= |wire| && PartIn(mem, wire, end, |wire| - 1)
    requires head <= from && end == from + |wire| - 1 < head + |mem| && end <= |stream| && off % |mem| == Cell(from, |mem|)
    requires wire[0] == 0 && forall x {:trigger stream[x]} :: from <= x < end ==> stream[x] == wire[end - x]
    ensures var mem' := mem[off % |mem| := wire[|wire| - 1]];
            StreamIn(mem', stream, head, end) && mem'[Cell(end, |mem|)] == 0
  {
    var k := |wire| - 1;
    var mem' := mem[Cell(from, |mem|) := wire[k]];
    StreamStays(mem, stream, head, from, from, wire[k]);
    PartGrows(mem, wire, head, from, end, k);
    forall x {:trigger stream[x]} | head <= x < end ensures mem'[Cell(x, |mem|)] == stream[x] {
      if x > from {
        PartAt(mem', wire, end, k, end - x);
      }
    }
    PartAt(mem', wire, end, k, 0);
  }

  lemma PartAt(mem: seq<Byte>, wire: seq<Byte>, end: nat, k: nat, j: nat)
    requires PartIn(mem, wire, end, k) && j < k
    ensures mem[Cell(end - j, |mem|)] == wire[j]
  {
  }

  /** The bytes of a message in the stream are those of its write, from the top down. */
  lemma WireBytes(stream: seq<Byte>, from: nat, end: nat, payload: seq<Byte>)
    requires 5 + |payload| < WORD32 && end == from + 5 + |payload| <= |stream| && stream[from..end] == Body(payload)
    ensures WireOf(payload)[0] == 0 && forall x {:trigger stream[x]} :: from <= x < end ==> stream[x] == WireOf(payload)[end - x]
  {
    WireParts(payload);
    forall x {:trigger stream[x]} | from <= x < end ensures stream[x] == WireOf(payload)[end - x] {
      BodyByte(stream, from, end, payload, x);
    }
  }

  lemma BodyByte(stream: seq<Byte>, from: nat, to: nat, payload: seq<Byte>, x: nat)
    requires 5 + |payload| < WORD32 && from <= x < to <= |stream| && to == from + 5 + |payload|
    requires stream[from..to] == Body(payload)
    ensures stream[x] == WireOf(payload)[to - x]
  {
    assert stream[x] == stream[from..to][x - from];
  }

  // ----- Receiving -----

  /** What the receiver polls is not zero exactly if a message has landed and not been received: no phantom is ever read. */
  lemma PolledIffLanded(s: State)
    requires Places(s) && MsgsOk(s.msgs, s.cuts, s.stream) && MemOk(s)
    ensures 0 <= ReadOff(s.ring) < |s.mem| && ReadOff(s.ring) == Cell(s.cuts[s.received], |s.mem|)
    ensures s.mem[ReadOff(s.ring)] != 0 <==> s.received < s.landed
  {
    var at := s.cuts[s.received];
    ReadOffIsCell(s.ring, at);
    if s.received < s.landed {
      NextCut(s);
      BodyByte(s.stream, at, s.cuts[s.received + 1], s.msgs[s.received], at);
      WireParts(s.msgs[s.received]);
      assert s.mem[Cell(at, |s.mem|)] == s.stream[at];
    }
  }

  /** The next message lies between its cuts, and has landed up to the second. */
  lemma NextCut(s: State)
    requires Counts(s) && MsgsOk(s.msgs, s.cuts, s.stream) && s.received < s.landed
    ensures MsgAt(s.msgs, s.cuts, s.stream, s.received) && s.cuts[s.received + 1] <= s.cuts[s.landed]
  {
    assert MsgAt(s.msgs, s.cuts, s.stream, s.received);
    if s.received + 1 < s.landed {
      CutsIncrease(s.msgs, s.cuts, s.stream, s.received + 1, s.landed);
    }
  }

  /** The length field of the next message tells how much of the stream it takes. */
  lemma NextLengthIs(s: State)
    requires Places(s) && MsgsOk(s.msgs, s.cuts, s.stream) && MemOk(s) && s.received < s.landed
    ensures 4 <= ReadOff(s.ring) + s.ring.length && NextLength(s) == 5 + |s.msgs[s.received]| < |s.mem|
  {
    PolledIffLanded(s);
    NextCut(s);
    HeadLags(s);
    LengthRead(s);
  }

  lemma LengthRead(s: State)
    requires Counts(s) && MemOk(s) && s.received < s.landed && MsgAt(s.msgs, s.cuts, s.stream, s.received)
    requires ReadOff(s.ring) == Cell(s.cuts[s.received], |s.mem|) && s.ring.length == |s.mem| && 4 <= |s.mem|
    requires Head(s) <= s.cuts[s.received] && s.cuts[s.received + 1] <= s.cuts[s.landed]
    ensures NextLength(s) == 5 + |s.msgs[s.received]|
  {
    LengthField(s.mem, s.stream, Head(s), s.cuts[s.landed], s.cuts[s.received], s.msgs[s.received]);
  }

  lemma LengthField(mem: seq<Byte>, stream: seq<Byte>, head: nat, landed: nat, at: nat, payload: seq<Byte>)
    requires StreamIn(mem, stream, head, landed) && 4 <= |mem| && head <= at && at + 5 + |payload| <= landed
    requires 5 + |payload| < WORD32 && stream[at..at + 5 + |payload|] == Body(payload)
    ensures Decode(Cells(mem, Cell(at, |mem|) + |mem| - 4, 4)) == 5 + |payload|
  {
    var bytes := Cells(mem, Cell(at, |mem|) + |mem| - 4, 4);
    forall k | 0 <= k < 4 ensures bytes[k] == Encode(5 + |payload|)[k] {
      LengthByte(mem, stream, head, landed, at, payload, k);
    }
    assert bytes == Encode(5 + |payload|);
    DecodeEncode(5 + |payload|);
  }

  /** Byte k of the length field of the message from position `at` on. */
  lemma LengthByte(mem: seq<Byte>, stream: seq<Byte>, head: nat, landed: nat, at: nat, payload: seq<Byte>, k: nat)
    requires StreamIn(mem, stream, head, landed) && 4 <= |mem| && head <= at && at + 5 + |payload| <= landed && k < 4
    requires 5 + |payload| < WORD32 && stream[at..at + 5 + |payload|] == Body(payload)
    ensures Cells(mem, Cell(at, |mem|) + |mem| - 4, 4)[k] == Encode(5 + |payload|)[k]
  {
    CellsDownwards(at, 4 - k, |mem|);
    CellIsStream(mem, stream, head, landed, Cell(at, |mem|) + |mem| - 4, 4, k, at + 4 - k);
    BodyByte(stream, at, at + 5 + |payload|, payload, at + 4 - k);
    EncodedAt(payload, k);
  }

  lemma EncodedAt(payload: seq<Byte>, k: nat)
    requires 5 + |payload| < WORD32 && k < 4
    ensures WireOf(payload)[|payload| + 1 + k] == Encode(5 + |payload|)[k]
  {
  }

  /** The receiver has read the next message, of len bytes without the zero byte. */
  predicate Took(s: State, t: State, len: nat)
    requires Counts(s)
  {
    && len <= s.ring.readPtr + s.ring.length
    && var ring := ReadFrom(s.ring, len);
    t == s.(ring := ring, held := [Region(ring.readPtr, len - 5)], received := s.received + 1)
  }

  lemma ReceivedTook(s: State)
    requires Counts(s) && s.mem != [] && 4 <= ReadOff(s.ring) + s.ring.length
    requires NextLength(s) <= s.ring.readPtr + s.ring.length
    ensures Took(s, ReceivedNow(s), NextLength(s))
  {
  }

  lemma ReceiveKeeps(s: State)
    requires Inv(s) && Enabled(s, Receive)
    ensures Inv(Apply(s, Receive)) && Apply(s, Receive).received == s.received + 1
    ensures Apply(s, Receive).held == [Region.Region(Offset(s.cuts[s.received + 1], |s.mem|), |s.msgs[s.received]|)]
  {
    PolledNow(s);
    NextLengthIs(s);
    ReceivedTook(s);
    TookKeeps(s, ReceivedNow(s), NextLength(s));
  }

  lemma PolledNow(s: State)
    requires Places(s) && MsgsOk(s.msgs, s.cuts, s.stream) && MemOk(s) && Enabled(s, Receive)
    ensures s.received < s.landed
  {
    PolledIffLanded(s);
    CellIsSmall(s.cuts[s.received], |s.mem|);
  }

  lemma TookKeeps(s: State, t: State, len: nat)
    requires Inv(s) && s.held == [] && s.received < s.landed && len == 5 + |s.msgs[s.received]| < |s.mem| && Took(s, t, len)
    ensures Inv(t) && t.held == [Region.Region(Offset(s.cuts[s.received + 1], |s.mem|), |s.msgs[s.received]|)]
  {
    NextCut(s);
    DownIsOffset(s.cuts[s.received], len, |s.mem|);
    TookPlaces(s, t, len);
    TookRest(s, t, len);
  }

  lemma CellIsSmall(p: nat, l: nat)
    requires 0 < l
    ensures Cell(p, l) % l == Cell(p, l)
  {
    UniqueRemainder(Cell(p, l), 0, Cell(p, l), l);
  }

  lemma TookPlaces(s: State, t: State, len: nat)
    requires Places(s) && s.held == [] && s.received < s.landed && len == 5 + |s.msgs[s.received]| < |s.mem| && Took(s, t, len)
    requires s.cuts[s.received + 1] == s.cuts[s.received] + len <= s.cuts[s.landed]
    requires Down(s.ring.readPtr, len, |s.mem|) == Offset(s.cuts[s.received + 1], |s.mem|)
    ensures Places(t) && Head(t) == Head(s)
    ensures t.held == [Region.Region(Offset(s.cuts[s.received + 1], |s.mem|), |s.msgs[s.received]|)]
  {
  }

  lemma TookRest(s: State, t: State, len: nat)
    requires Counts(s) && MemOk(s) && PartOk(s) && AcksOk(s) && Flow(s.msgs, s.cuts, |s.mem|, s.net, s.landed, s.partial)
    requires Took(s, t, len) && Counts(t) && Head(t) == Head(s)
    ensures MemOk(t) && PartOk(t) && AcksOk(t) && Flow(t.msgs, t.cuts, |t.mem|, t.net, t.landed, t.partial)
  {
  }

  // ----- Freeing, and telling the sender -----

  lemma RemoveOnly(x: nat)
    ensures RingBuffer.Remove([x], x) == []
  {
    assert [x][1..] == [];
  }

  lemma FreeKeeps(s: State)
    requires Inv(s) && Enabled(s, Free)
    ensures Inv(FreedNow(s))
  {
    RemoveOnly(s.ring.readPtr);
    FreedPlaces(s);
    FreedRest(s);
  }

  lemma FreedPlaces(s: State)
    requires Places(s) && s.held != [] && s.ring.outstanding != []
    requires RingBuffer.Remove([s.ring.readPtr], s.ring.readPtr) == []
    ensures Places(FreedNow(s)) && Head(s) <= Head(FreedNow(s))
  {
  }

  lemma FreedRest(s: State)
    requires Counts(s) && MemOk(s) && PartOk(s) && AcksOk(s) && Flow(s.msgs, s.cuts, |s.mem|, s.net, s.landed, s.partial)
    requires s.held != [] && s.ring.outstanding != [] && Counts(FreedNow(s)) && s.senderHead <= Head(s) <= Head(FreedNow(s))
    ensures var t := FreedNow(s);
            MemOk(t) && PartOk(t) && AcksOk(t) && Flow(t.msgs, t.cuts, |t.mem|, t.net, t.landed, t.partial)
  {
    RingBuffer.HeadsAdded(s.senderHead, s.ackPos, Head(s), Head(FreedNow(s)));
  }

  /** Only the heads on their way to the sender, and the sender's, change. */
  lemma OnlyHeads(s: State, t: State)
    requires Inv(s) && t == s.(remote := t.remote, acks := t.acks, senderHead := t.senderHead, ackPos := t.ackPos)
    requires t.remote.length == |t.mem| && Tracks(t.remote, t.senderHead, |t.stream|) && t.senderHead <= Head(s)
    requires OffsetsOf(t.acks, t.ackPos, |t.mem|) && RingBuffer.HeadsBetween(t.senderHead, t.ackPos, Head(s))
    ensures Inv(t)
  {
  }

  lemma OffsetAdded(acks: seq<nat>, heads: seq<nat>, l: nat, head: nat)
    requires OffsetsOf(acks, heads, l)
    ensures OffsetsOf(acks + [Offset(head, l)], heads + [head], l)
  {
  }

  lemma OffsetTaken(acks: seq<nat>, heads: seq<nat>, l: nat)
    requires OffsetsOf(acks, heads, l) && heads != []
    ensures acks != [] && acks[0] == Offset(heads[0], l) && OffsetsOf(acks[1..], heads[1..], l)
  {
  }

  lemma AnnounceKeeps(s: State)
    requires Inv(s)
    ensures Inv(Announced(s))
  {
    OffsetAdded(s.acks, s.ackPos, |s.mem|, Head(s));
    RingBuffer.HeadsAdded(s.senderHead, s.ackPos, Head(s), Head(s));
    OnlyHeads(s, Announced(s));
  }

  lemma GetHeadKeeps(s: State)
    requires Inv(s) && Enabled(s, GetHead)
    ensures Inv(HeadGot(s))
  {
    HeadLags(s);
    OffsetTaken(s.acks, s.ackPos, |s.mem|);
    RingBuffer.HeadsTaken(s.senderHead, s.ackPos, Head(s));
    OnlyHeads(s, HeadGot(s));
  }

  lemma StepKeeps(s: State, a: Action)
    requires Inv(s) && Enabled(s, a)
    ensures Inv(Apply(s, a))
  {
    match a {
      case Send(payload) => SendKeeps(s, payload);
      case Deliver => DeliverKeeps(s);
      case Receive => ReceiveKeeps(s);
      case Free => FreeKeeps(s);
      case Announce => AnnounceKeeps(s);
      case GetHead => GetHeadKeeps(s);
    }
  }

  // ----- Runs -----

  predicate IsNext(s: State, a: Action, t: State) { Enabled(s, a) && t == Apply(s, a) }

  ghost predicate IsRun(run: seq<State>, acts: seq<Action>, length: nat) {
    && |run| == |acts| + 1 && run[0] == Start(length)
    && forall i, j {:trigger run[i], run[j]} :: 0 <= i < |acts| && j == i + 1 ==> IsNext(run[i], acts[i], run[j])
  }

  lemma StartKeeps(length: nat)
    requires 0 < length
    ensures Inv(Start(length))
  {
  }

  lemma {:induction false} RunKeepsInvariant(run: seq<State>, acts: seq<Action>, length: nat, k: nat)
    requires 0 < length && IsRun(run, acts, length) && k < |run|
    ensures Inv(run[k])
  {
    if k == 0 {
      StartKeeps(length);
    } else {
      RunKeepsInvariant(run, acts, length, k - 1);
      assert IsNext(run[k - 1], acts[k - 1], run[k]);
      StepKeeps(run[k - 1], acts[k - 1]);
    }
  }

  /** The region in use holds its message, whatever is sent and lands meanwhile. */
  lemma HeldIntact(s: State)
    requires Inv(s) && s.held != []
    ensures s.received > 0 && s.held[0].len >= 0
    ensures Cells(s.mem, s.held[0].off, s.held[0].len) == s.msgs[s.received - 1]
  {
    assert MsgAt(s.msgs, s.cuts, s.stream, s.received - 1);
    PayloadCells(s.mem, s.stream, Head(s), s.cuts[s.landed], s.cuts[s.received - 1], s.msgs[s.received - 1]);
  }

  /** The payload of a message that has landed, up from its low end. */
  lemma PayloadCells(mem: seq<Byte>, stream: seq<Byte>, head: nat, landed: nat, at: nat, payload: seq<Byte>)
    requires StreamIn(mem, stream, head, landed) && head <= at && at + 5 + |payload| <= landed && 5 + |payload| < WORD32
    requires stream[at..at + 5 + |payload|] == Body(payload)
    ensures Cells(mem, Offset(at + 5 + |payload|, |mem|), |payload|) == payload
  {
    var end := at + 5 + |payload|;
    forall k | 0 <= k < |payload| ensures Cells(mem, Offset(end, |mem|), |payload|)[k] == payload[k] {
      PayloadCell(mem, stream, head, landed, at, payload, k);
    }
  }

  lemma PayloadCell(mem: seq<Byte>, stream: seq<Byte>, head: nat, landed: nat, at: nat, payload: seq<Byte>, k: nat)
    requires StreamIn(mem, stream, head, landed) && head <= at && at + 5 + |payload| <= landed && 5 + |payload| < WORD32
    requires stream[at..at + 5 + |payload|] == Body(payload) && k < |payload|
    ensures Cells(mem, Offset(at + 5 + |payload|, |mem|), |payload|)[k] == payload[k]
  {
    var end := at + 5 + |payload|;
    CellsUpwards(end, k, |mem|);
    CellIsStream(mem, stream, head, landed, Offset(end, |mem|), |payload|, k, end - 1 - k);
    BodyByte(stream, at, end, payload, end - 1 - k);
    PayloadAt(payload, k);
  }

  lemma PayloadAt(payload: seq<Byte>, k: nat)
    requires 5 + |payload| < WORD32 && k < |payload|
    ensures WireOf(payload)[k + 1] == payload[k]
  {
  }

  /** The message each receive hands out is the next one sent, with its bytes. */
  lemma ReceiveYields(s: State)
    requires Inv(s) && Enabled(s, Receive)
    ensures var t := Apply(s, Receive);
            && t.held != [] && t.held[0].len >= 0 && s.received < |s.msgs|
            && Cells(t.mem, t.held[0].off, t.held[0].len) == s.msgs[s.received]
            && t.received == s.received + 1 && t.msgs == s.msgs
  {
    ReceiveKeeps(s);
    PolledNow(s);
    ReceiveFrame(s);
    HeldIntact(Apply(s, Receive));
  }

  lemma ReceiveFrame(s: State)
    requires Enabled(s, Receive)
    ensures Apply(s, Receive).msgs == s.msgs && Apply(s, Receive).mem == s.mem
  {
  }

  function SentBy(a: Action): seq<seq<Byte>> { if a.Send? then [a.payload] else [] }

  /** The message in the region that a receive hands out, read in the state it leads to. */
  function TakenBy(a: Action, t: State): seq<seq<Byte>> {
    if a.Receive? && t.held != [] && t.held[0].len >= 0 && t.mem != [] then [Cells(t.mem, t.held[0].off, t.held[0].len)] else []
  }

  function AllSent(acts: seq<Action>, k: nat): seq<seq<Byte>>
    requires k <= |acts|
  {
    if k == 0 then [] else AllSent(acts, k - 1) + SentBy(acts[k - 1])
  }

  function AllTaken(run: seq<State>, acts: seq<Action>, k: nat): seq<seq<Byte>>
    requires k <= |acts| < |run|
  {
    if k == 0 then [] else AllTaken(run, acts, k - 1) + TakenBy(acts[k - 1], run[k])
  }

  lemma StepDelivers(s: State, a: Action, t: State)
    requires Inv(s) && IsNext(s, a, t)
    ensures t.msgs == s.msgs + SentBy(a) && s.received <= |s.msgs| && t.received == s.received + |TakenBy(a, t)|
    ensures TakenBy(a, t) == [] || (s.received < |s.msgs| && TakenBy(a, t) == [s.msgs[s.received]])
  {
    if a.Receive? {
      ReceiveYields(s);
      ReceiveFrame(s);
    } else {
      NotReceived(s, a, t);
    }
  }

  lemma NotReceived(s: State, a: Action, t: State)
    requires IsNext(s, a, t) && !a.Receive?
    ensures t.msgs == s.msgs + SentBy(a) && t.received == s.received
  {
  }

  lemma StepInRun(run: seq<State>, acts: seq<Action>, length: nat, k: nat)
    requires 0 < length && IsRun(run, acts, length) && k < |acts|
    ensures var s, t, taken := run[k], run[k + 1], TakenBy(acts[k], run[k + 1]);
            && t.msgs == s.msgs + SentBy(acts[k]) && t.received == s.received + |taken| && s.received <= |s.msgs|
            && (taken == [] || (s.received < |s.msgs| && taken == [s.msgs[s.received]]))
  {
    RunKeepsInvariant(run, acts, length, k);
    assert IsNext(run[k], acts[k], run[k + 1]);
    StepDelivers(run[k], acts[k], run[k + 1]);
  }

  lemma PrefixGrows(all: seq<seq<Byte>>, more: seq<seq<Byte>>, n: nat, taken: seq<seq<Byte>>)
    requires n <= |all| && (taken == [] || (n < |all| && taken == [all[n]]))
    ensures n + |taken| <= |all + more| && all[..n] + taken == (all + more)[..n + |taken|]
  {
  }

  /** The messages received are the first ones of those sent, in their order, intact. */
  lemma {:induction false} RunDelivers(run: seq<State>, acts: seq<Action>, length: nat, k: nat)
    requires 0 < length && IsRun(run, acts, length) && k < |run|
    ensures run[k].msgs == AllSent(acts, k) && run[k].received <= |run[k].msgs|
    ensures AllTaken(run, acts, k) == AllSent(acts, k)[..run[k].received]
  {
    if k > 0 {
      RunDelivers(run, acts, length, k - 1);
      StepInRun(run, acts, length, k - 1);
      PrefixGrows(run[k - 1].msgs, SentBy(acts[k - 1]), run[k - 1].received, TakenBy(acts[k - 1], run[k]));
    }
  }

  /** Every write stays inside the doubled mapping. */
  lemma {:induction false} WritesInside(msgs: seq<seq<Byte>>, cuts: seq<nat>, l: nat, net: seq<Put>, n: nat, done: nat, i: nat)
    requires Flow(msgs, cuts, l, net, n, done) && i < |net| && forall j :: 0 <= j < |msgs| ==> 6 + |msgs[j]| < l
    ensures net[i].off + |net[i].bytes| < 2 * l
  {
    if i > 0 {
      WritesInside(msgs, cuts, l, net[1..], n + 1, 0, i - 1);
    }
  }

  lemma {:induction false} MessagesFit(run: seq<State>, acts: seq<Action>, length: nat, k: nat)
    requires 0 < length && IsRun(run, acts, length) && k < |run|
    ensures |run[k].mem| == length && forall j :: 0 <= j < |run[k].msgs| ==> 6 + |run[k].msgs[j]| < length
  {
    if k > 0 {
      MessagesFit(run, acts, length, k - 1);
      RunKeepsInvariant(run, acts, length, k - 1);
      assert IsNext(run[k - 1], acts[k - 1], run[k]);
    }
  }

  /** In every reachable state: what is polled is true to what has landed, and writes stay inside the mapping. */
  lemma NoPhantomAndInside(run: seq<State>, acts: seq<Action>, length: nat, k: nat, i: nat)
    requires 0 < length && IsRun(run, acts, length) && k < |run|
    ensures var s := run[k];
            && 0 <= ReadOff(s.ring) < |s.mem| && (s.mem[ReadOff(s.ring)] != 0 <==> s.received < s.landed)
            && (i < |s.net| ==> s.net[i].off + |s.net[i].bytes| < 2 * |s.mem|)
  {
    RunKeepsInvariant(run, acts, length, k);
    PolledIffLanded(run[k]);
    MessagesFit(run, acts, length, k);
    if i < |run[k].net| {
      WritesInside(run[k].msgs, run[k].cuts, length, run[k].net, run[k].landed, run[k].partial, i);
    }
  }

  // ----- Flushing -----

  /** The flush policy for descending offsets. */
  predicate Exceeds(head: nat, acked: nat, length: nat) {
    || (head < acked && acked - head > length / 2)
    || (head > acked && acked + (length - head) > length / 2)
  }

  /** For a head that moved by less than a whole length the offsets decide exactly whether to flush. */
  lemma ExceedsIff(flushed: nat, head: nat, l: nat)
    requires 0 < l && flushed <= head < flushed + l
    ensures Exceeds(Offset(head, l), Offset(flushed, l), l) <==> head - flushed > l / 2
  {
    RingBuffer.OffsetDistance(flushed, head, l);
    if flushed == 0 {
      UniqueRemainder(head, 0, head, l);
    }
  }
}
