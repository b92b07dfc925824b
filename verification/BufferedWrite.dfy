/**
 The buffered-write protocol: one sender, one ring, one receiver.

 The sender appends messages to the stream as long as its copy of the head leaves room, and posts them in batches:
 the bytes, and then either the new tail, which the receiver polls (WriteOffset, each message prefixed by its
 length), or a completion for each message that carries its length (WriteImm). The network delivers what was posted
 in order, byte by byte. The receiver frees messages in any order and lets the sender know the head either when it
 has moved by more than half the buffer (send acknowledgements) or whenever the sender reads it (read
 acknowledgements).
 */
module BufferedWrite {
  import opened Bytes
  import opened Modular
  import opened RingBuffer

  // ----- Messages -----

  function Header(imm: bool): nat { if imm then 0 else 4 }

  /** What a message puts into the stream. */
  function Wire(imm: bool, payload: seq<Byte>): (w: seq<Byte>)
    requires Header(imm) + |payload| < WORD32
    ensures |w| == Header(imm) + |payload|
  {
    if imm then payload else Encode(4 + |payload|) + payload
  }

  // ----- State -----

  /** What is posted: bytes for an offset, the tail, or the completion of a message with its length. History: pos, count. */
  datatype Op = Data(pos: nat, off: nat, bytes: seq<Byte>) | Tail(count: nat, value: nat) | Note(count: nat, len: nat)

  datatype Region = Region(off: nat, len: nat)

  /**
   Sender: remote, chain (prepared, not posted). On their way: net, acks. Receiver: mem, tailCell, cq, ring, acked,
   and the regions held by the application under the position of their message.
   History: the messages and where they begin and end in the stream; how many are announced to the receiver
   (published) and received; how many bytes have landed and how far is posted, with the number of messages
   announced by then; the positions of the sender's head, of the regions in use, of the last flushed head and of
   the heads on their way.
   */
  datatype State = State(
    imm: bool, readAck: bool,
    remote: Remote, chain: seq<Op>, net: seq<Op>, acks: seq<nat>,
    mem: seq<Byte>, tailCell: nat, cq: seq<nat>, ring: Ring, acked: nat, held: map<nat, Region>,
    msgs: seq<seq<Byte>>, cuts: seq<nat>, stream: seq<Byte>, published: nat, received: nat,
    landed: nat, posted: nat, postedCount: nat,
    senderHead: nat, outs: seq<nat>, flushed: nat, ackPos: seq<nat>)

  function Start(length: nat, imm: bool, readAck: bool): State {
    State(imm, readAck, NewRemote(length), [], [], [], seq(length, _ => 0), 0, [], NewRing(length), 0, map[],
          [], [0], [], 0, 0, 0, 0, 0, 0, [], 0, [])
  }

  // ----- Steps -----

  datatype Action =
    | Prepare(payload: seq<Byte>)
    | Post
    | Deliver
    | Receive
    | Free(pos: nat)
    | ReadHead
    | GetHead

  /** The messages a sender may send: not empty, and shorter than the buffer. */
  predicate Sendable(s: State, payload: seq<Byte>) {
    0 < Header(s.imm) + |payload| < s.remote.length && Header(s.imm) + |payload| < WORD32
  }

  predicate Enabled(s: State, a: Action) {
    && 0 < s.remote.length && 0 < s.ring.length && s.mem != []
    && match a
       case Prepare(payload) => Sendable(s, payload) && Accepts(s.remote, Header(s.imm) + |payload|)
       case Post => s.chain != []
       case Deliver => s.net != []
       case Receive => if s.imm then s.cq != [] else s.tailCell != s.ring.readPtr
       case Free(pos) => pos in s.outs && s.ring.outstanding != []
       case ReadHead => s.readAck
       case GetHead => s.acks != []
  }

  /** What a message adds to the chain. */
  function NewOps(imm: bool, at: nat, tail: nat, count: nat, wire: seq<Byte>): seq<Op> {
    var data := Data(at, tail, wire);
    if imm then [data, Note(count, |wire|)] else [data]
  }

  function Prepared(s: State, payload: seq<Byte>): State
    requires Enabled(s, Prepare(payload))
  {
    var wire := Wire(s.imm, payload);
    s.(chain := s.chain + NewOps(s.imm, |s.stream|, s.remote.tail, |s.msgs| + 1, wire),
       remote := Written(s.remote, |wire|),
       stream := s.stream + wire, msgs := s.msgs + [payload], cuts := s.cuts + [|s.stream| + |wire|])
  }

  function PostedNow(s: State): State {
    s.(net := s.net + s.chain + if s.imm then [] else [Tail(|s.msgs|, s.remote.tail)], chain := [],
       posted := |s.stream|, postedCount := |s.msgs|)
  }

  function Delivered(s: State): State
    requires s.net != [] && s.mem != []
  {
    var rest := s.net[1..];
    match s.net[0]
    case Data(pos, off, bytes) =>
      if bytes == [] then s.(net := rest)
      else
        s.(net := [Data(pos + 1, off + 1, bytes[1..])] + rest, mem := s.mem[off % |s.mem| := bytes[0]], landed := s.landed + 1)
    case Tail(count, value) => s.(net := rest, tailCell := value, published := count)
    case Note(count, len) => s.(net := rest, cq := s.cq + [len], published := count)
  }

  /** The length of the next message: from its prefix in the ring, or from its completion. */
  function NextLength(s: State): nat
    requires s.mem != [] && (s.imm ==> s.cq != [])
  {
    if s.imm then s.cq[0] else Decode(Cells(s.mem, s.ring.readPtr, 4))
  }

  function NextRegion(s: State): Region
    requires s.mem != [] && (s.imm ==> s.cq != [])
  {
    Region(s.ring.readPtr + Header(s.imm), if NextLength(s) < Header(s.imm) then 0 else NextLength(s) - Header(s.imm))
  }

  function ReceivedNow(s: State): State
    requires Enabled(s, Receive)
  {
    var at := if s.received < |s.cuts| then s.cuts[s.received] else 0;
    s.(ring := ReadFrom(s.ring, NextLength(s)), cq := if s.imm then s.cq[1..] else s.cq,
       held := s.held[at := NextRegion(s)], outs := s.outs + [at], received := s.received + 1)
  }

  /** The flush policy: has the head moved by more than half the buffer since the last flush, as far as offsets tell? */
  predicate Exceeds(head: nat, acked: nat, length: nat) {
    || (head > acked && head - acked > length / 2)
    || (head < acked && head + (length - acked) > length / 2)
  }

  /** The ring without the region, before the head is acknowledged. */
  function Unlinked(s: State, pos: nat): State
    requires Enabled(s, Free(pos))
  {
    s.(ring := Freed(s.ring, pos % s.ring.length), outs := Remove(s.outs, pos), held := s.held - {pos})
  }

  /** The acknowledgement that follows each free. */
  function Acknowledged(s: State): State {
    var at := HeadOf(s.outs, if s.received < |s.cuts| then s.cuts[s.received] else 0);
    if !Exceeds(s.ring.head, s.acked, s.ring.length) then s
    else
      s.(acked := s.ring.head, flushed := at, acks := if s.readAck then s.acks else s.acks + [s.ring.head],
         ackPos := if s.readAck then s.ackPos else s.ackPos + [at])
  }

  function FreedNow(s: State, pos: nat): State
    requires Enabled(s, Free(pos))
  {
    Acknowledged(Unlinked(s, pos))
  }

  /** The network reads the receiver's head, for a sender that asked for it. */
  function HeadRead(s: State): State {
    s.(acks := s.acks + [s.ring.head],
       ackPos := s.ackPos + [HeadOf(s.outs, if s.received < |s.cuts| then s.cuts[s.received] else 0)])
  }

  function HeadGot(s: State): State
    requires s.acks != []
  {
    s.(remote := HeadUpdated(s.remote, s.acks[0]), acks := s.acks[1..],
       senderHead := if s.ackPos != [] then s.ackPos[0] else s.senderHead,
       ackPos := if s.ackPos != [] then s.ackPos[1..] else s.ackPos)
  }

  function Apply(s: State, a: Action): State
    requires Enabled(s, a)
  {
    match a
    case Prepare(payload) => Prepared(s, payload)
    case Post => PostedNow(s)
    case Deliver => Delivered(s)
    case Receive => ReceivedNow(s)
    case Free(pos) => FreedNow(s, pos)
    case ReadHead => HeadRead(s)
    case GetHead => HeadGot(s)
  }

  // ----- The invariant -----

  /** Message i lies between its cuts. */
  predicate MsgAt(imm: bool, msgs: seq<seq<Byte>>, cuts: seq<nat>, stream: seq<Byte>, i: nat)
    requires i < |msgs| && |cuts| == |msgs| + 1
  {
    && 0 < Header(imm) + |msgs[i]| < WORD32
    && cuts[i + 1] == cuts[i] + Header(imm) + |msgs[i]| <= |stream| && stream[cuts[i]..cuts[i + 1]] == Wire(imm, msgs[i])
  }

  /** The stream is the messages one after the other, cut at `cuts`. */
  predicate MsgsOk(imm: bool, msgs: seq<seq<Byte>>, cuts: seq<nat>, stream: seq<Byte>) {
    && |cuts| == |msgs| + 1 && cuts[0] == 0 && cuts[|msgs|] == |stream|
    && forall i {:trigger MsgAt(imm, msgs, cuts, stream, i)} :: 0 <= i < |msgs| ==> MsgAt(imm, msgs, cuts, stream, i)
  }

  /** ops carry the stream from position `from` to `to`, and announce messages from count c to count k. */
  predicate Flow(imm: bool, cuts: seq<nat>, stream: seq<Byte>, l: nat, ops: seq<Op>, from: nat, to: nat, c: nat, k: nat) {
    if ops == [] then from == to && c == k
    else
      match ops[0]
      case Data(pos, off, bytes) =>
        && pos == from && 0 < l && off % l == pos % l && from + |bytes| <= |stream| && stream[from..from + |bytes|] == bytes
        && Flow(imm, cuts, stream, l, ops[1..], from + |bytes|, to, c, k)
      case Tail(count, value) =>
        && !imm && c <= count < |cuts| && cuts[count] == from && 0 < l && value == from % l
        && Flow(imm, cuts, stream, l, ops[1..], from, to, count, k)
      case Note(count, len) =>
        && imm && count == c + 1 < |cuts| && cuts[count] == from && len == from - cuts[c]
        && Flow(imm, cuts, stream, l, ops[1..], from, to, count, k)
  }

  predicate Counts(s: State) {
    && s.received <= s.published <= |s.msgs| && |s.cuts| == |s.msgs| + 1
    && s.cuts[s.received] <= s.cuts[s.published] <= s.landed <= s.posted <= |s.stream|
  }

  predicate Places(s: State) {
    && Counts(s) && s.remote.length == s.ring.length == |s.mem|
    && Tracks(s.remote, s.senderHead, |s.stream|) && Holds(s.ring, s.outs, s.cuts[s.received])
    && s.senderHead <= Head(s)
  }

  function Head(s: State): nat
    requires Counts(s)
  {
    HeadOf(s.outs, s.cuts[s.received])
  }

  /** What is posted, and what is prepared. */
  predicate Moving(s: State) {
    && Flow(s.imm, s.cuts, s.stream, |s.mem|, s.net, s.landed, s.posted, s.published, s.postedCount)
    && Flow(s.imm, s.cuts, s.stream, |s.mem|, s.chain, s.posted, |s.stream|, s.postedCount, if s.imm then |s.msgs| else s.postedCount)
    && s.postedCount <= |s.msgs|
  }

  /** The ring's memory holds the bytes of the stream between two positions. */
  predicate StreamIn(mem: seq<Byte>, stream: seq<Byte>, from: nat, to: nat) {
    && mem != [] && to <= |stream|
    && forall x {:trigger stream[x]} :: from <= x < to ==> mem[x % |mem|] == stream[x]
  }

  /** The ring holds the stream from the head to the last byte that landed. */
  predicate MemOk(s: State)
    requires Counts(s)
  {
    StreamIn(s.mem, s.stream, Head(s), s.landed)
  }

  /** One completion for each message announced and not received, with its length. */
  predicate CompletionsOk(cq: seq<nat>, msgs: seq<seq<Byte>>, received: nat, published: nat) {
    && received <= published <= |msgs| && |cq| == published - received
    && forall i :: 0 <= i < |cq| ==> cq[i] == |msgs[received + i]|
  }

  /** What the receiver polls tells which messages are announced and not received. */
  predicate Announced(s: State)
    requires Counts(s)
  {
    if s.imm then CompletionsOk(s.cq, s.msgs, s.received, s.published)
    else s.mem != [] && s.tailCell == s.cuts[s.published] % |s.mem|
  }

  /** Position x is where message i begins, and the region is its payload. */
  predicate IsRegion(s: State, i: nat, x: nat, r: Region) {
    && i < |s.msgs| && i < |s.cuts| && s.cuts[i] == x && s.mem != []
    && r == Region(x % |s.mem| + Header(s.imm), |s.msgs[i]|)
  }

  ghost predicate RegionOf(s: State, x: nat, r: Region) {
    exists i: nat :: i < s.received && IsRegion(s, i, x, r)
  }

  ghost predicate HeldOk(s: State)
    requires Counts(s)
  {
    && (forall x: nat :: x in s.outs <==> x in s.held)
    && forall x: nat :: x in s.held ==> RegionOf(s, x, s.held[x])
  }

  predicate AcksOk(s: State)
    requires Counts(s)
  {
    && 0 < s.ring.length && s.acks == Offsets(s.ackPos, s.ring.length)
    && HeadsBetween(s.senderHead, s.ackPos, Head(s))
  }

  /** What counts as flushed is an earlier head, known by its offset. */
  predicate FlushedPlace(s: State)
    requires Counts(s)
  {
    s.flushed <= Head(s) && 0 < s.ring.length && s.acked == s.flushed % s.ring.length
  }

  predicate FlushedOk(s: State)
    requires Counts(s)
  {
    FlushedPlace(s) && (!s.readAck ==> OnlyFlushed(s.senderHead, s.ackPos, s.flushed))
  }

  /** The last flushed head lags by at most half the buffer. */
  predicate LagOk(s: State)
    requires Counts(s)
  {
    !s.readAck ==> Head(s) <= s.flushed + s.ring.length / 2
  }

  predicate FlushOk(s: State)
    requires Counts(s)
  {
    FlushedOk(s) && LagOk(s)
  }

  ghost predicate Core(s: State) {
    && Places(s) && MsgsOk(s.imm, s.msgs, s.cuts, s.stream) && Moving(s) && MemOk(s) && Announced(s) && HeldOk(s)
    && AcksOk(s) && FlushedOk(s)
  }

  ghost predicate Inv(s: State) { Core(s) && LagOk(s) }

  // ----- Flows -----

  lemma {:induction false} FlowAppend(imm: bool, cuts: seq<nat>, stream: seq<Byte>, l: nat, a: seq<Op>, b: seq<Op>,
                                      from: nat, mid: nat, to: nat, c: nat, m: nat, k: nat)
    requires Flow(imm, cuts, stream, l, a, from, mid, c, m) && Flow(imm, cuts, stream, l, b, mid, to, m, k)
    ensures Flow(imm, cuts, stream, l, a + b, from, to, c, k)
  {
    if a == [] {
      assert a + b == b;
    } else {
      assert (a + b)[1..] == a[1..] + b;
      match a[0] {
        case Data(pos, off, bytes) => FlowAppend(imm, cuts, stream, l, a[1..], b, from + |bytes|, mid, to, c, m, k);
        case Tail(count, value) => FlowAppend(imm, cuts, stream, l, a[1..], b, from, mid, to, count, m, k);
        case Note(count, len) => FlowAppend(imm, cuts, stream, l, a[1..], b, from, mid, to, count, m, k);
      }
    }
  }

  lemma {:induction false} FlowGrows(imm: bool, cuts: seq<nat>, stream: seq<Byte>, cut: nat, more: seq<Byte>, l: nat,
                                     ops: seq<Op>, from: nat, to: nat, c: nat, k: nat)
    requires Flow(imm, cuts, stream, l, ops, from, to, c, k) && c < |cuts|
    ensures Flow(imm, cuts + [cut], stream + more, l, ops, from, to, c, k)
  {
    if ops != [] {
      match ops[0] {
        case Data(pos, off, bytes) =>
          assert (stream + more)[from..from + |bytes|] == stream[from..from + |bytes|];
          FlowGrows(imm, cuts, stream, cut, more, l, ops[1..], from + |bytes|, to, c, k);
        case Tail(count, value) => FlowGrows(imm, cuts, stream, cut, more, l, ops[1..], from, to, count, k);
        case Note(count, len) => FlowGrows(imm, cuts, stream, cut, more, l, ops[1..], from, to, count, k);
      }
    }
  }

  /** Messages are not empty, so their boundaries increase. */
  lemma {:induction false} CutsIncrease(imm: bool, msgs: seq<seq<Byte>>, cuts: seq<nat>, stream: seq<Byte>, i: nat, j: nat)
    requires MsgsOk(imm, msgs, cuts, stream) && i < j <= |msgs|
    ensures cuts[i] < cuts[j]
  {
    var k := j - 1;
    assert MsgAt(imm, msgs, cuts, stream, k);
    if i < k {
      CutsIncrease(imm, msgs, cuts, stream, i, k);
    }
  }

  // ----- Every step keeps the invariant -----

  lemma MsgStays(imm: bool, msgs: seq<seq<Byte>>, cuts: seq<nat>, stream: seq<Byte>, i: nat, payload: seq<Byte>, cut: nat,
                 more: seq<Byte>)
    requires i < |msgs| && |cuts| == |msgs| + 1 && MsgAt(imm, msgs, cuts, stream, i)
    ensures MsgAt(imm, msgs + [payload], cuts + [cut], stream + more, i)
  {
    assert (stream + more)[cuts[i]..cuts[i + 1]] == stream[cuts[i]..cuts[i + 1]];
  }

  lemma MsgAdded(imm: bool, msgs: seq<seq<Byte>>, cuts: seq<nat>, stream: seq<Byte>, payload: seq<Byte>)
    requires |cuts| == |msgs| + 1 && cuts[|msgs|] == |stream| && 0 < Header(imm) + |payload| < WORD32
    ensures var wire := Wire(imm, payload);
            MsgAt(imm, msgs + [payload], cuts + [|stream| + |wire|], stream + wire, |msgs|)
  {
    var wire := Wire(imm, payload);
    assert (stream + wire)[|stream|..|stream| + |wire|] == wire;
  }

  lemma PreparedMsgs(imm: bool, msgs: seq<seq<Byte>>, cuts: seq<nat>, stream: seq<Byte>, payload: seq<Byte>)
    requires MsgsOk(imm, msgs, cuts, stream) && 0 < Header(imm) + |payload| < WORD32
    ensures var wire := Wire(imm, payload);
            MsgsOk(imm, msgs + [payload], cuts + [|stream| + |wire|], stream + wire)
  {
    var wire := Wire(imm, payload);
    var cut := |stream| + |wire|;
    forall i | 0 <= i < |msgs + [payload]| ensures MsgAt(imm, msgs + [payload], cuts + [cut], stream + wire, i) {
      if i < |msgs| {
        MsgStays(imm, msgs, cuts, stream, i, payload, cut, wire);
      } else {
        MsgAdded(imm, msgs, cuts, stream, payload);
      }
    }
  }

  lemma NewOpsFlow(imm: bool, cuts: seq<nat>, stream: seq<Byte>, l: nat, at: nat, tail: nat, k: nat, count: nat, wire: seq<Byte>)
    requires 0 < l && tail == at % l && at + |wire| == |stream| && stream[at..] == wire
    requires imm ==> count == k + 1 < |cuts| && cuts[k] == at && cuts[k + 1] == |stream|
    ensures Flow(imm, cuts, stream, l, NewOps(imm, at, tail, count, wire), at, |stream|, k, if imm then k + 1 else k)
  {
    var ops := NewOps(imm, at, tail, count, wire);
    AddToReduced(at, 0, l);
    assert Flow(imm, cuts, stream, l, [], |stream|, |stream|, if imm then k + 1 else k, if imm then k + 1 else k);
    if imm {
      assert ops[1..] == [Note(count, |wire|)] && ops[1..][1..] == [];
    } else {
      assert ops[1..] == [];
    }
  }

  /** The chain goes on where it ended, with the new message. */
  lemma PreparedChain(imm: bool, cuts: seq<nat>, stream: seq<Byte>, l: nat, chain: seq<Op>, from: nat, c: nat, k: nat,
                      tail: nat, count: nat, wire: seq<Byte>)
    requires Flow(imm, cuts, stream, l, chain, from, |stream|, c, k) && c < |cuts| && 0 < l && tail == |stream| % l
    requires imm ==> count == k + 1 == |cuts| && cuts[k] == |stream|
    ensures var cut := |stream| + |wire|;
            Flow(imm, cuts + [cut], stream + wire, l, chain + NewOps(imm, |stream|, tail, count, wire), from, cut, c,
                 if imm then k + 1 else k)
  {
    var at, cut := |stream|, |stream| + |wire|;
    FlowGrows(imm, cuts, stream, cut, wire, l, chain, from, at, c, k);
    NewOpsFlow(imm, cuts + [cut], stream + wire, l, at, tail, k, count, wire);
    FlowAppend(imm, cuts + [cut], stream + wire, l, chain, NewOps(imm, at, tail, count, wire), from, at, cut, c, k,
               if imm then k + 1 else k);
  }

  /** The sender has added a message, as `wire` in the stream, to its chain. */
  predicate Appended(s: State, t: State, payload: seq<Byte>, wire: seq<Byte>)
    requires 0 < s.remote.length
  {
    t == s.(chain := s.chain + NewOps(s.imm, |s.stream|, s.remote.tail, |s.msgs| + 1, wire), remote := Written(s.remote, |wire|),
            stream := s.stream + wire, msgs := s.msgs + [payload], cuts := s.cuts + [|s.stream| + |wire|])
  }

  lemma AppendedMoving(s: State, t: State, payload: seq<Byte>, wire: seq<Byte>)
    requires Moving(s) && 0 < |s.mem| == s.remote.length && s.remote.tail == |s.stream| % |s.mem|
    requires Appended(s, t, payload, wire)
    requires |s.cuts| == |s.msgs| + 1 && s.cuts[|s.msgs|] == |s.stream| && s.published <= |s.msgs|
    ensures Moving(t)
  {
    var k := if s.imm then |s.msgs| else s.postedCount;
    FlowGrows(s.imm, s.cuts, s.stream, |s.stream| + |wire|, wire, |s.mem|, s.net, s.landed, s.posted, s.published, s.postedCount);
    PreparedChain(s.imm, s.cuts, s.stream, |s.mem|, s.chain, s.posted, s.postedCount, k, s.remote.tail, |s.msgs| + 1, wire);
  }

  lemma PrepareKeeps(s: State, payload: seq<Byte>)
    requires Inv(s) && Enabled(s, Prepare(payload))
    ensures Inv(Prepared(s, payload))
  {
    var wire := Wire(s.imm, payload);
    PreparedAppends(s, payload);
    PreparedMsgs(s.imm, s.msgs, s.cuts, s.stream, payload);
    AppendKeeps(s, Prepared(s, payload), payload, wire);
  }

  lemma PreparedAppends(s: State, payload: seq<Byte>)
    requires Enabled(s, Prepare(payload))
    ensures Appended(s, Prepared(s, payload), payload, Wire(s.imm, payload))
  {
  }

  lemma AppendKeeps(s: State, t: State, payload: seq<Byte>, wire: seq<Byte>)
    requires Inv(s) && 0 < |wire| < s.remote.length && Appended(s, t, payload, wire) && Accepts(s.remote, |wire|)
    requires MsgsOk(t.imm, t.msgs, t.cuts, t.stream)
    ensures Inv(t)
  {
    AppendedPlaces(s, t, payload, wire);
    AppendedMoving(s, t, payload, wire);
    AppendedRest(s, t, payload, wire);
    RegionsStay(s, t);
  }

  lemma AppendedPlaces(s: State, t: State, payload: seq<Byte>, wire: seq<Byte>)
    requires Places(s) && 0 < |wire| < s.remote.length && Appended(s, t, payload, wire) && Accepts(s.remote, |wire|)
    ensures Places(t) && Head(t) == Head(s)
  {
    AcceptsIffRoom(s.remote, s.senderHead, |s.stream|, |wire|);
  }

  lemma AppendedRest(s: State, t: State, payload: seq<Byte>, wire: seq<Byte>)
    requires Counts(s) && MemOk(s) && Announced(s) && AcksOk(s) && FlushOk(s)
    requires 0 < s.remote.length && Appended(s, t, payload, wire)
    requires Counts(t) && Head(t) == Head(s)
    ensures MemOk(t) && Announced(t) && AcksOk(t) && FlushOk(t)
  {
  }

  /** A region stays the region of its message while messages are added and received. */
  lemma RegionStays(s: State, t: State, x: nat, r: Region)
    requires RegionOf(s, x, r) && s.msgs <= t.msgs && s.cuts <= t.cuts && s.received <= t.received
    requires |t.mem| == |s.mem| && t.imm == s.imm
    ensures RegionOf(t, x, r)
  {
    var i: nat :| i < s.received && IsRegion(s, i, x, r);
    assert IsRegion(t, i, x, r);
  }

  lemma RegionsStay(s: State, t: State)
    requires Counts(s) && HeldOk(s) && s.msgs <= t.msgs && s.cuts <= t.cuts && s.received <= t.received
    requires |t.mem| == |s.mem| && t.imm == s.imm && Counts(t) && t.held == s.held && t.outs == s.outs
    ensures HeldOk(t)
  {
    forall x: nat | x in t.held ensures RegionOf(t, x, t.held[x]) {
      RegionStays(s, t, x, s.held[x]);
    }
  }

  lemma PostKeeps(s: State)
    requires Inv(s) && Enabled(s, Post)
    ensures Inv(PostedNow(s))
  {
    PostedMoving(s);
    RegionsStay(s, PostedNow(s));
    PostedRest(s);
  }

  lemma PostedRest(s: State)
    requires Places(s) && MemOk(s) && Announced(s) && AcksOk(s) && FlushOk(s)
    ensures var t := PostedNow(s); Places(t) && MemOk(t) && Announced(t) && AcksOk(t) && FlushOk(t)
  {
  }

  lemma PostedMoving(s: State)
    requires Places(s) && Moving(s) && s.cuts[|s.msgs|] == |s.stream|
    ensures Moving(PostedNow(s))
  {
    var l, at, k := |s.mem|, |s.stream|, if s.imm then |s.msgs| else s.postedCount;
    FlowAppend(s.imm, s.cuts, s.stream, l, s.net, s.chain, s.landed, s.posted, at, s.published, s.postedCount, k);
    if !s.imm {
      TailFlow(s.cuts, s.stream, l, at, s.remote.tail, k, |s.msgs|);
      var end := [Tail(|s.msgs|, s.remote.tail)];
      FlowAppend(false, s.cuts, s.stream, l, s.net + s.chain, end, s.landed, at, at, s.published, k, |s.msgs|);
    } else {
      assert s.net + s.chain + [] == s.net + s.chain;
    }
  }

  lemma TailFlow(cuts: seq<nat>, stream: seq<Byte>, l: nat, at: nat, tail: nat, c: nat, k: nat)
    requires 0 < l && c <= k < |cuts| && cuts[k] == at && tail == at % l
    ensures Flow(false, cuts, stream, l, [Tail(k, tail)], at, at, c, k)
  {
    assert [Tail(k, tail)][1..] == [];
  }

  // The network delivers one byte, or announces messages.

  lemma DeliverKeeps(s: State)
    requires Inv(s) && Enabled(s, Deliver)
    ensures Inv(Delivered(s))
  {
    match s.net[0] {
      case Data(_, _, bytes) => if bytes == [] { EmptyKeeps(s); } else { DeliveredByte(s); ByteKeeps(s, Delivered(s)); }
      case Tail(_, _) => TailKeeps(s);
      case Note(_, _) => NoteKeeps(s);
    }
  }

  /** What else the invariant says does not depend on what the network changes. */
  lemma NetStepKeeps(s: State, t: State)
    requires Inv(s) && |t.mem| == |s.mem| && Counts(t) && Moving(t) && MemOk(t) && Announced(t)
    requires t == s.(net := t.net, mem := t.mem, landed := t.landed, tailCell := t.tailCell, cq := t.cq, published := t.published)
    ensures Inv(t)
  {
    NetStepRest(s, t);
    RegionsStay(s, t);
  }

  lemma NetStepRest(s: State, t: State)
    requires Places(s) && AcksOk(s) && FlushOk(s) && |t.mem| == |s.mem| && Counts(t)
    requires t == s.(net := t.net, mem := t.mem, landed := t.landed, tailCell := t.tailCell, cq := t.cq, published := t.published)
    ensures Places(t) && AcksOk(t) && FlushOk(t)
  {
  }

  lemma EmptyKeeps(s: State)
    requires Inv(s) && s.net != [] && s.net[0].Data? && s.net[0].bytes == []
    ensures Inv(Delivered(s))
  {
    var t := s.(net := s.net[1..]);
    EmptyMoves(s, t);
    NetStepKeeps(s, t);
  }

  lemma EmptyMoves(s: State, t: State)
    requires Counts(s) && Moving(s) && MemOk(s) && Announced(s) && s.net != [] && s.net[0].Data? && s.net[0].bytes == []
    requires t == s.(net := s.net[1..])
    ensures Counts(t) && Moving(t) && MemOk(t) && Announced(t)
  {
  }

  /** The first byte of the first operation lands. */
  predicate ByteLanded(s: State, t: State) {
    && s.net != [] && s.mem != [] && s.net[0].Data? && s.net[0].bytes != []
    && var op := s.net[0];
    t == s.(net := [Data(op.pos + 1, op.off + 1, op.bytes[1..])] + s.net[1..], mem := s.mem[op.off % |s.mem| := op.bytes[0]],
            landed := s.landed + 1)
  }

  lemma DeliveredByte(s: State)
    requires s.net != [] && s.mem != [] && s.net[0].Data? && s.net[0].bytes != []
    ensures ByteLanded(s, Delivered(s))
  {
  }

  lemma ByteKeeps(s: State, t: State)
    requires Inv(s) && ByteLanded(s, t)
    ensures Inv(t)
  {
    ByteMoving(s, t);
    ByteLands(s, t);
    NetStepKeeps(s, t);
  }

  lemma ByteMoving(s: State, t: State)
    requires Counts(s) && Moving(s) && Announced(s) && ByteLanded(s, t)
    ensures Counts(t) && Moving(t) && Announced(t) && |t.mem| == |s.mem| && Head(t) == Head(s)
    ensures s.landed < s.posted && s.net[0].bytes[0] == s.stream[s.landed] && s.net[0].off % |s.mem| == s.landed % |s.mem|
  {
    ByteMoves(s.imm, s.cuts, s.stream, |s.mem|, s.net, s.landed, s.posted, s.published, s.postedCount);
  }

  lemma ByteMoves(imm: bool, cuts: seq<nat>, stream: seq<Byte>, l: nat, ops: seq<Op>, from: nat, to: nat, c: nat, k: nat)
    requires Flow(imm, cuts, stream, l, ops, from, to, c, k) && ops != [] && ops[0].Data? && ops[0].bytes != []
    ensures var op := ops[0];
            && from < |stream| && op.bytes[0] == stream[from] && op.off % l == from % l
            && Flow(imm, cuts, stream, l, [Data(op.pos + 1, op.off + 1, op.bytes[1..])] + ops[1..], from + 1, to, c, k)
    ensures from < to
  {
    var op := ops[0];
    var ops' := [Data(op.pos + 1, op.off + 1, op.bytes[1..])] + ops[1..];
    assert ops'[1..] == ops[1..];
    assert stream[from..from + |op.bytes|][1..] == stream[from + 1..from + |op.bytes|];
    AddToReduced(op.off, 1, l);
    AddToReduced(op.pos, 1, l);
    FlowForward(imm, cuts, stream, l, ops[1..], from + |op.bytes|, to, c, k);
  }

  lemma {:induction false} FlowForward(imm: bool, cuts: seq<nat>, stream: seq<Byte>, l: nat, ops: seq<Op>, from: nat, to: nat,
                                       c: nat, k: nat)
    requires Flow(imm, cuts, stream, l, ops, from, to, c, k)
    ensures from <= to
  {
    if ops != [] {
      match ops[0] {
        case Data(pos, off, bytes) => FlowForward(imm, cuts, stream, l, ops[1..], from + |bytes|, to, c, k);
        case Tail(count, value) => FlowForward(imm, cuts, stream, l, ops[1..], from, to, count, k);
        case Note(count, len) => FlowForward(imm, cuts, stream, l, ops[1..], from, to, count, k);
      }
    }
  }

  lemma ByteLands(s: State, t: State)
    requires Places(s) && MemOk(s) && ByteLanded(s, t) && s.landed < s.posted && Counts(t) && Head(t) == Head(s)
    requires s.net[0].bytes[0] == s.stream[s.landed] && s.net[0].off % |s.mem| == s.landed % |s.mem|
    ensures MemOk(t)
  {
    HeadLags(s);
    ByteIn(s.mem, s.stream, Head(s), s.landed, s.net[0].off);
  }

  /** The landing byte overwrites nothing between the head and the bytes that landed before. */
  lemma ByteIn(mem: seq<Byte>, stream: seq<Byte>, head: nat, at: nat, off: nat)
    requires StreamIn(mem, stream, head, at) && head <= at < |stream| && at < head + |mem| && off % |mem| == at % |mem|
    ensures StreamIn(mem[off % |mem| := stream[at]], stream, head, at + 1)
  {
    var mem' := mem[off % |mem| := stream[at]];
    forall x {:trigger stream[x]} | head <= x < at + 1 ensures mem'[x % |mem'|] == stream[x] {
      if x < at {
        ByteApart(mem, stream[at], x, at, head, off);
      }
    }
  }

  lemma ByteApart(mem: seq<Byte>, byte: Byte, x: nat, at: nat, head: nat, off: nat)
    requires mem != [] && head <= x < at < head + |mem| && off % |mem| == at % |mem|
    ensures mem[off % |mem| := byte][x % |mem|] == mem[x % |mem|]
  {
    DifferentCells(x, at, head, |mem|);
  }

  lemma TailKeeps(s: State)
    requires Inv(s) && s.net != [] && s.net[0].Tail?
    ensures Inv(Delivered(s))
  {
    FlowCounts(s.imm, s.cuts, s.stream, |s.mem|, s.net[1..], s.landed, s.posted, s.net[0].count, s.postedCount);
    var t := s.(net := s.net[1..], tailCell := s.net[0].value, published := s.net[0].count);
    TailAnnounced(s, t);
    NetStepKeeps(s, t);
  }

  lemma TailAnnounced(s: State, t: State)
    requires Counts(s) && Moving(s) && MemOk(s) && Announced(s) && s.net != [] && s.net[0].Tail?
    requires t == s.(net := s.net[1..], tailCell := s.net[0].value, published := s.net[0].count)
    requires s.net[0].count <= s.postedCount
    ensures Counts(t) && Moving(t) && MemOk(t) && Announced(t)
  {
  }

  lemma {:induction false} FlowCounts(imm: bool, cuts: seq<nat>, stream: seq<Byte>, l: nat, ops: seq<Op>, from: nat, to: nat,
                                      c: nat, k: nat)
    requires Flow(imm, cuts, stream, l, ops, from, to, c, k)
    ensures c <= k
  {
    if ops != [] {
      match ops[0] {
        case Data(pos, off, bytes) => FlowCounts(imm, cuts, stream, l, ops[1..], from + |bytes|, to, c, k);
        case Tail(count, value) => FlowCounts(imm, cuts, stream, l, ops[1..], from, to, count, k);
        case Note(count, len) => FlowCounts(imm, cuts, stream, l, ops[1..], from, to, count, k);
      }
    }
  }

  lemma NoteKeeps(s: State)
    requires Inv(s) && s.net != [] && s.net[0].Note?
    ensures Inv(Delivered(s))
  {
    FlowCounts(s.imm, s.cuts, s.stream, |s.mem|, s.net[1..], s.landed, s.posted, s.net[0].count, s.postedCount);
    var t := s.(net := s.net[1..], cq := s.cq + [s.net[0].len], published := s.net[0].count);
    NoteAnnounced(s, t);
    NetStepKeeps(s, t);
  }

  lemma NoteAnnounced(s: State, t: State)
    requires Counts(s) && Moving(s) && MemOk(s) && Announced(s) && MsgsOk(s.imm, s.msgs, s.cuts, s.stream)
    requires s.net != [] && s.net[0].Note? && s.net[0].count <= s.postedCount
    requires t == s.(net := s.net[1..], cq := s.cq + [s.net[0].len], published := s.net[0].count)
    ensures Counts(t) && Moving(t) && MemOk(t) && Announced(t)
  {
    assert MsgAt(s.imm, s.msgs, s.cuts, s.stream, s.published);
  }

  // The receiver takes the next message.

  /** The head is not beyond what is read next, and the stream is less than a length ahead of both. */
  lemma HeadLags(s: State)
    requires Places(s)
    ensures s.senderHead <= Head(s) <= s.cuts[s.received] <= |s.stream| < s.senderHead + |s.mem|
  {
    if s.outs != [] {
      OrderedRange(s.outs, 0, s.cuts[s.received], 0);
    }
  }

  lemma TailDiffers(read: nat, tail: nat, l: nat)
    requires 0 < l && read <= tail < read + l
    ensures tail % l != read % l <==> read < tail
  {
    DifferentCells(tail, read, read, l);
  }

  /** Something is announced exactly if a message is announced and not received. */
  lemma AnnouncedIffUnread(s: State)
    requires Places(s) && MsgsOk(s.imm, s.msgs, s.cuts, s.stream) && Announced(s)
    ensures Enabled(s, Receive) <==> s.received < s.published
  {
    HeadLags(s);
    if s.received < s.published {
      CutsIncrease(s.imm, s.msgs, s.cuts, s.stream, s.received, s.published);
    }
    if !s.imm {
      TailDiffers(s.cuts[s.received], s.cuts[s.published], |s.mem|);
    }
  }

  /** The bytes from an offset on are the bytes of the stream from a position with that offset on. */
  lemma CellsAreStream(mem: seq<Byte>, stream: seq<Byte>, head: nat, landed: nat, off: nat, from: nat, n: nat)
    requires StreamIn(mem, stream, head, landed) && off % |mem| == from % |mem| && head <= from && from + n <= landed
    ensures Cells(mem, off, n) == stream[from..from + n]
  {
    forall k | 0 <= k < n ensures Cells(mem, off, n)[k] == stream[from..from + n][k] {
      AddToReduced(off, k, |mem|);
      AddToReduced(from, k, |mem|);
      assert mem[(from + k) % |mem|] == stream[from + k];
    }
  }

  /** The next message lies between its cuts, and has been announced with all that is before the second. */
  lemma NextCut(s: State)
    requires MsgsOk(s.imm, s.msgs, s.cuts, s.stream) && s.received < s.published <= |s.msgs|
    ensures MsgAt(s.imm, s.msgs, s.cuts, s.stream, s.received) && s.cuts[s.received + 1] <= s.cuts[s.published]
  {
    assert MsgAt(s.imm, s.msgs, s.cuts, s.stream, s.received);
    if s.received + 1 < s.published {
      CutsIncrease(s.imm, s.msgs, s.cuts, s.stream, s.received + 1, s.published);
    }
  }

  /** The next message, of len bytes with its prefix, has been announced. */
  predicate Next(s: State, len: nat)
    requires Counts(s)
  {
    && s.received < s.published && s.cuts[s.received + 1] == s.cuts[s.received] + len <= s.cuts[s.published]
    && len == Header(s.imm) + |s.msgs[s.received]| && 0 < len
  }

  /** The length the receiver reads is the length of the next message. */
  lemma NextLengthIs(s: State)
    requires Inv(s) && Enabled(s, Receive)
    ensures Next(s, NextLength(s))
  {
    AnnouncedIffUnread(s);
    NextCut(s);
    if !s.imm {
      HeadLags(s);
      NextPrefix(s);
    }
  }

  lemma WirePrefix(stream: seq<Byte>, from: nat, to: nat, payload: seq<Byte>)
    requires from + 4 <= to <= |stream| && 4 + |payload| < WORD32 && stream[from..to] == Wire(false, payload)
    ensures Decode(stream[from..from + 4]) == 4 + |payload|
  {
    assert stream[from..from + 4] == stream[from..to][..4] == Encode(4 + |payload|);
    DecodeEncode(4 + |payload|);
  }

  lemma PrefixIs(mem: seq<Byte>, stream: seq<Byte>, head: nat, landed: nat, from: nat, to: nat, payload: seq<Byte>)
    requires StreamIn(mem, stream, head, landed) && head <= from && from + 4 <= to <= landed && 4 + |payload| < WORD32
    requires stream[from..to] == Wire(false, payload)
    ensures Decode(Cells(mem, from % |mem|, 4)) == 4 + |payload|
  {
    WirePrefix(stream, from, to, payload);
    ReducedTwice(from, |mem|);
    CellsAreStream(mem, stream, head, landed, from % |mem|, from, 4);
  }

  lemma NextPrefix(s: State)
    requires Places(s) && MemOk(s) && !s.imm && s.received < |s.msgs| && MsgAt(false, s.msgs, s.cuts, s.stream, s.received)
    requires s.cuts[s.received + 1] <= s.landed && Head(s) <= s.cuts[s.received]
    ensures s.mem != [] && NextLength(s) == 4 + |s.msgs[s.received]|
  {
    PrefixIs(s.mem, s.stream, Head(s), s.landed, s.cuts[s.received], s.cuts[s.received + 1], s.msgs[s.received]);
  }

  /** The receiver has read a message of len bytes. */
  predicate Took(s: State, t: State, len: nat)
    requires Counts(s)
  {
    && 0 < s.ring.length && (s.imm ==> s.cq != [])
    && var at := s.cuts[s.received];
    t == s.(ring := ReadFrom(s.ring, len), cq := if s.imm then s.cq[1..] else s.cq,
            held := s.held[at := Region(s.ring.readPtr + Header(s.imm), if len < Header(s.imm) then 0 else len - Header(s.imm))],
            outs := s.outs + [at], received := s.received + 1)
  }

  lemma ReceivedTook(s: State)
    requires Counts(s) && Enabled(s, Receive)
    ensures Took(s, ReceivedNow(s), NextLength(s))
  {
  }

  lemma ReceiveKeeps(s: State)
    requires Inv(s) && Enabled(s, Receive)
    ensures Inv(ReceivedNow(s))
  {
    NextLengthIs(s);
    ReceivedTook(s);
    TookKeeps(s, ReceivedNow(s), NextLength(s));
  }

  lemma TookKeeps(s: State, t: State, len: nat)
    requires Inv(s) && Took(s, t, len) && Next(s, len)
    ensures Inv(t)
  {
    TookPlaces(s, t, len);
    TookHeld(s, t, len);
    TookRest(s, t, len);
  }

  lemma TookPlaces(s: State, t: State, len: nat)
    requires Places(s) && Took(s, t, len) && Next(s, len)
    ensures Places(t) && Head(t) == Head(s)
  {
    HeadLags(s);
    ReadKeeps(s.ring, s.outs, s.cuts[s.received], len);
  }

  lemma TookHeld(s: State, t: State, len: nat)
    requires Places(s) && HeldOk(s) && Took(s, t, len) && Next(s, len) && Counts(t)
    ensures HeldOk(t)
  {
    var at := s.cuts[s.received];
    forall x: nat | x in t.held ensures RegionOf(t, x, t.held[x]) {
      if x == at {
        assert IsRegion(t, s.received, at, t.held[at]);
      } else {
        RegionStays(s, t, x, s.held[x]);
      }
    }
  }

  lemma TookRest(s: State, t: State, len: nat)
    requires Counts(s) && Announced(s) && MemOk(s) && AcksOk(s) && FlushOk(s) && Moving(s)
    requires Took(s, t, len) && s.received < s.published && Counts(t) && Head(t) == Head(s)
    ensures Announced(t) && MemOk(t) && AcksOk(t) && FlushOk(t) && Moving(t)
  {
  }

  // The receiver frees a message, and the head finds its way to the sender.

  /** For a head that moved by less than a whole length the offsets decide exactly whether to flush. */
  lemma ExceedsIff(flushed: nat, head: nat, l: nat)
    requires 0 < l && flushed <= head < flushed + l
    ensures Exceeds(head % l, flushed % l, l) <==> head - flushed > l / 2
  {
    OffsetDistance(flushed, head, l);
  }

  lemma FreeKeepsAll(s: State, pos: nat)
    requires Inv(s) && Enabled(s, Free(pos))
    ensures Inv(FreedNow(s, pos))
  {
    UnlinkedKeeps(s, pos);
    AcknowledgedKeeps(Unlinked(s, pos));
  }

  lemma UnlinkedKeeps(s: State, pos: nat)
    requires Core(s) && Enabled(s, Free(pos))
    ensures Core(Unlinked(s, pos))
  {
    FreeKeeps(s.ring, s.outs, s.cuts[s.received], pos);
    UnlinkedPlaces(s, pos);
    UnlinkedHeld(s, pos);
    UnlinkedRest(s, pos);
  }

  lemma AcknowledgedKeeps(s: State)
    requires Core(s)
    ensures Inv(Acknowledged(s))
  {
    HeadLags(s);
    AcknowledgedOk(s);
    AcknowledgedFrame(s);
    OnlyAcks(s, Acknowledged(s));
  }

  lemma UnlinkedPlaces(s: State, pos: nat)
    requires Places(s) && Enabled(s, Free(pos))
    requires Holds(Freed(s.ring, pos % s.ring.length), Remove(s.outs, pos), s.cuts[s.received])
    requires Head(s) <= HeadOf(Remove(s.outs, pos), s.cuts[s.received])
    ensures Places(Unlinked(s, pos)) && Head(Unlinked(s, pos)) == HeadOf(Remove(s.outs, pos), s.cuts[s.received])
  {
  }

  lemma UnlinkedRest(s: State, pos: nat)
    requires Counts(s) && Announced(s) && MemOk(s) && Moving(s) && AcksOk(s) && FlushedOk(s) && Enabled(s, Free(pos))
    requires Counts(Unlinked(s, pos)) && s.senderHead <= Head(s) <= Head(Unlinked(s, pos))
    ensures var t := Unlinked(s, pos); Announced(t) && MemOk(t) && Moving(t) && AcksOk(t) && FlushedOk(t)
  {
    HeadsAdded(s.senderHead, s.ackPos, Head(s), Head(Unlinked(s, pos)));
  }

  /** The acknowledgement restores the bound on the lag. */
  lemma AcknowledgedOk(s: State)
    requires Counts(s) && 0 < s.ring.length && s.ring.head == Head(s) % s.ring.length && AcksOk(s) && FlushedOk(s)
    requires s.senderHead <= Head(s) < s.senderHead + s.ring.length
    ensures Counts(Acknowledged(s)) && AcksOk(Acknowledged(s)) && FlushOk(Acknowledged(s))
  {
    if !s.readAck {
      ExceedsIff(s.flushed, Head(s), s.ring.length);
      if Exceeds(s.ring.head, s.acked, s.ring.length) {
        HeadSent(s);
      }
    }
  }

  lemma HeadSent(s: State)
    requires Counts(s) && 0 < s.ring.length && s.ring.head == Head(s) % s.ring.length && AcksOk(s) && FlushedOk(s) && !s.readAck
    requires Exceeds(s.ring.head, s.acked, s.ring.length)
    ensures Counts(Acknowledged(s)) && AcksOk(Acknowledged(s)) && FlushOk(Acknowledged(s))
  {
    OffsetsAppend(s.ackPos, Head(s), s.ring.length);
    HeadsAdded(s.senderHead, s.ackPos, Head(s), Head(s));
    FlushedAdded(s.senderHead, s.ackPos, s.flushed, Head(s));
    assert Acknowledged(s) == s.(acked := s.ring.head, flushed := Head(s), acks := s.acks + [s.ring.head], ackPos := s.ackPos + [Head(s)]);
  }

  lemma AcknowledgedFrame(s: State)
    ensures var t := Acknowledged(s); t == s.(acked := t.acked, flushed := t.flushed, acks := t.acks, ackPos := t.ackPos)
  {
  }

  lemma OnlyAcks(s: State, t: State)
    requires Places(s) && MsgsOk(s.imm, s.msgs, s.cuts, s.stream) && Announced(s) && MemOk(s) && Moving(s) && HeldOk(s)
    requires t == s.(acked := t.acked, flushed := t.flushed, acks := t.acks, ackPos := t.ackPos)
    ensures Places(t) && MsgsOk(t.imm, t.msgs, t.cuts, t.stream) && Announced(t) && MemOk(t) && Moving(t) && HeldOk(t)
  {
    RegionsStay(s, t);
  }

  lemma {:induction false} RemoveMember(s: seq<nat>, x: nat, y: nat)
    ensures y in Remove(s, x) <==> y in s && y != x
  {
    if s != [] {
      RemoveMember(s[1..], x, y);
      assert y in s <==> y == s[0] || y in s[1..];
    }
  }

  lemma UnlinkedHeld(s: State, pos: nat)
    requires Counts(s) && HeldOk(s) && Enabled(s, Free(pos)) && Counts(Unlinked(s, pos))
    ensures HeldOk(Unlinked(s, pos))
  {
    var t := Unlinked(s, pos);
    forall x: nat ensures x in t.outs <==> x in t.held {
      RemoveMember(s.outs, pos, x);
    }
    forall x: nat | x in t.held ensures RegionOf(t, x, t.held[x]) {
      RegionStays(s, t, x, s.held[x]);
    }
  }

  lemma ReadHeadKeeps(s: State)
    requires Inv(s) && Enabled(s, ReadHead)
    ensures Inv(HeadRead(s))
  {
    HeadReadAcks(s);
    OnlyAcks(s, HeadRead(s));
  }

  lemma HeadReadAcks(s: State)
    requires Places(s) && AcksOk(s) && FlushOk(s) && Enabled(s, ReadHead)
    ensures var t := HeadRead(s);
            && t == s.(acks := t.acks, ackPos := t.ackPos) && Counts(t) && AcksOk(t) && FlushOk(t)
  {
    OffsetsAppend(s.ackPos, Head(s), s.ring.length);
    HeadsAdded(s.senderHead, s.ackPos, Head(s), Head(s));
  }

  lemma GetHeadKeeps(s: State)
    requires Inv(s) && Enabled(s, GetHead)
    ensures Inv(HeadGot(s))
  {
    HeadGotPlaces(s);
    HeadGotAcks(s);
    RegionsStay(s, HeadGot(s));
    HeadGotRest(s);
  }

  lemma HeadGotPlaces(s: State)
    requires Places(s) && AcksOk(s) && Enabled(s, GetHead)
    ensures Places(HeadGot(s)) && Head(HeadGot(s)) == Head(s)
  {
    HeadLags(s);
    HeadsTaken(s.senderHead, s.ackPos, Head(s));
    UpdateKeepsTracking(s.remote, s.senderHead, |s.stream|, s.ackPos[0]);
  }

  lemma HeadGotAcks(s: State)
    requires Counts(s) && AcksOk(s) && FlushOk(s) && Enabled(s, GetHead)
    ensures AcksOk(HeadGot(s)) && FlushOk(HeadGot(s))
  {
    OffsetsRest(s.ackPos, s.ring.length);
    HeadsTaken(s.senderHead, s.ackPos, Head(s));
    if !s.readAck {
      FlushedTaken(s.senderHead, s.ackPos, s.flushed);
    }
  }

  lemma OffsetsRest(s: seq<nat>, l: nat)
    requires 0 < l && s != []
    ensures Offsets(s, l)[1..] == Offsets(s[1..], l)
  {
  }

  lemma HeadGotRest(s: State)
    requires Counts(s) && MemOk(s) && Announced(s) && Moving(s) && Enabled(s, GetHead)
    ensures var t := HeadGot(s); MemOk(t) && Announced(t) && Moving(t)
  {
  }

  lemma StepKeeps(s: State, a: Action)
    requires Inv(s) && Enabled(s, a)
    ensures Inv(Apply(s, a))
  {
    match a {
      case Prepare(payload) => PrepareKeeps(s, payload);
      case Post => PostKeeps(s);
      case Deliver => DeliverKeeps(s);
      case Receive => ReceiveKeeps(s);
      case Free(pos) => FreeKeepsAll(s, pos);
      case ReadHead => ReadHeadKeeps(s);
      case GetHead => GetHeadKeeps(s);
    }
  }

  // ----- Runs -----

  predicate IsNext(s: State, a: Action, t: State) { Enabled(s, a) && t == Apply(s, a) }

  ghost predicate IsRun(run: seq<State>, acts: seq<Action>, length: nat, imm: bool, readAck: bool) {
    && |run| == |acts| + 1 && run[0] == Start(length, imm, readAck)
    && forall i, j {:trigger run[i], run[j]} :: 0 <= i < |acts| && j == i + 1 ==> IsNext(run[i], acts[i], run[j])
  }

  lemma StartKeeps(length: nat, imm: bool, readAck: bool)
    requires 0 < length
    ensures Inv(Start(length, imm, readAck))
  {
  }

  lemma {:induction false} RunKeepsInvariant(run: seq<State>, acts: seq<Action>, length: nat, imm: bool, readAck: bool, k: nat)
    requires 0 < length && IsRun(run, acts, length, imm, readAck) && k < |run|
    ensures Inv(run[k])
  {
    if k == 0 {
      StartKeeps(length, imm, readAck);
    } else {
      RunKeepsInvariant(run, acts, length, imm, readAck, k - 1);
      assert IsNext(run[k - 1], acts[k - 1], run[k]);
      StepKeeps(run[k - 1], acts[k - 1]);
    }
  }

  // ----- What the protocol promises -----

  /** The bytes of a region. */
  function Contents(s: State, r: Region): seq<Byte>
    requires s.mem != []
  {
    Cells(s.mem, r.off, r.len)
  }

  /** The messages sent and the regions received, in order, within the first k steps. */
  function Sent(acts: seq<Action>, k: nat): seq<seq<Byte>>
    requires k <= |acts|
  {
    if k == 0 then []
    else Sent(acts, k - 1) + SentBy(acts[k - 1])
  }

  function SentBy(a: Action): seq<seq<Byte>> { if a.Prepare? then [a.payload] else [] }

  /** What a step hands to the application. */
  function TakenBy(s: State, a: Action): seq<seq<Byte>> {
    if a.Receive? && s.mem != [] && (s.imm ==> s.cq != []) then [Contents(s, NextRegion(s))] else []
  }

  function Taken(run: seq<State>, acts: seq<Action>, k: nat): seq<seq<Byte>>
    requires k <= |acts| < |run|
  {
    if k == 0 then [] else Taken(run, acts, k - 1) + TakenBy(run[k - 1], acts[k - 1])
  }

  /** A step that receives finds the payload of the next message, neither more nor less. */
  lemma ReceiveYields(s: State)
    requires Inv(s) && Enabled(s, Receive)
    ensures s.received < |s.msgs| && Contents(s, NextRegion(s)) == s.msgs[s.received]
  {
    NextLengthIs(s);
    NextCut(s);
    HeadLags(s);
    NextPayload(s, NextLength(s));
  }

  lemma NextPayload(s: State, len: nat)
    requires Places(s) && MemOk(s) && Next(s, len) && MsgAt(s.imm, s.msgs, s.cuts, s.stream, s.received)
    requires Head(s) <= s.cuts[s.received]
    ensures s.mem != [] && Contents(s, Region(s.ring.readPtr + Header(s.imm), len - Header(s.imm))) == s.msgs[s.received]
  {
    PayloadLands(s.imm, s.msgs, s.cuts, s.mem, s.stream, Head(s), s.landed, s.received);
  }

  /** The payload of a message that has landed and that the head has not passed is where its region says. */
  lemma PayloadLands(imm: bool, msgs: seq<seq<Byte>>, cuts: seq<nat>, mem: seq<Byte>, stream: seq<Byte>,
                     head: nat, landed: nat, i: nat)
    requires StreamIn(mem, stream, head, landed) && i < |msgs| && |cuts| == |msgs| + 1 && MsgAt(imm, msgs, cuts, stream, i)
    requires head <= cuts[i] && cuts[i + 1] <= landed
    ensures Cells(mem, cuts[i] % |mem| + Header(imm), |msgs[i]|) == msgs[i]
  {
    var at, h := cuts[i], Header(imm);
    AddToReduced(at, h, |mem|);
    CellsAreStream(mem, stream, head, landed, at % |mem| + h, at + h, |msgs[i]|);
    WirePayload(imm, stream, at, msgs[i]);
  }

  lemma WirePayload(imm: bool, stream: seq<Byte>, at: nat, payload: seq<Byte>)
    requires Header(imm) + |payload| < WORD32 && at + Header(imm) + |payload| <= |stream|
    requires stream[at..at + Header(imm) + |payload|] == Wire(imm, payload)
    ensures stream[at + Header(imm)..at + Header(imm) + |payload|] == payload
  {
    var h := Header(imm);
    assert stream[at + h..at + h + |payload|] == stream[at..at + h + |payload|][h..];
  }

  lemma StepSends(s: State, a: Action, t: State)
    requires IsNext(s, a, t)
    ensures t.msgs == s.msgs + SentBy(a) && t.received == s.received + |TakenBy(s, a)|
  {
    match a {
      case Prepare(payload) => assert t == Prepared(s, payload);
      case Receive => assert t == ReceivedNow(s);
      case Deliver => DeliveredSends(s);
      case _ => OtherSends(s, a);
    }
  }

  lemma DeliveredSends(s: State)
    requires s.net != [] && s.mem != []
    ensures Delivered(s).msgs == s.msgs && Delivered(s).received == s.received
  {
  }

  lemma OtherSends(s: State, a: Action)
    requires Enabled(s, a) && !a.Prepare? && !a.Receive? && !a.Deliver?
    ensures Apply(s, a).msgs == s.msgs && Apply(s, a).received == s.received
  {
  }

  lemma StepTakes(s: State, a: Action)
    requires Inv(s) && Enabled(s, a)
    ensures s.received + |TakenBy(s, a)| <= |s.msgs|
    ensures a.Receive? ==> TakenBy(s, a) == [s.msgs[s.received]]
  {
    if a.Receive? {
      ReceiveYields(s);
    }
  }

  lemma StepInRun(run: seq<State>, acts: seq<Action>, length: nat, imm: bool, readAck: bool, k: nat)
    requires 0 < length && IsRun(run, acts, length, imm, readAck) && k < |acts|
    ensures var s, t, taken := run[k], run[k + 1], TakenBy(run[k], acts[k]);
            && t.msgs == s.msgs + SentBy(acts[k]) && t.received == s.received + |taken| <= |t.msgs|
            && s.received + |taken| <= |s.msgs| && (taken == [] || taken == [s.msgs[s.received]])
  {
    RunKeepsInvariant(run, acts, length, imm, readAck, k);
    assert IsNext(run[k], acts[k], run[k + 1]);
    StepTakes(run[k], acts[k]);
    StepSends(run[k], acts[k], run[k + 1]);
  }

  lemma PrefixGrows(all: seq<seq<Byte>>, more: seq<seq<Byte>>, n: nat, taken: seq<seq<Byte>>)
    requires n + |taken| <= |all| && (taken == [] || taken == [all[n]])
    ensures all[..n] + taken == (all + more)[..n + |taken|]
  {
  }

  /** The messages received are the first ones of those sent, in their order, with their bytes and lengths. */
  lemma {:induction false} RunDelivers(run: seq<State>, acts: seq<Action>, length: nat, imm: bool, readAck: bool, k: nat)
    requires 0 < length && IsRun(run, acts, length, imm, readAck) && k < |run|
    ensures run[k].msgs == Sent(acts, k) && run[k].received <= |run[k].msgs|
    ensures Taken(run, acts, k) == Sent(acts, k)[..run[k].received]
  {
    if k > 0 {
      RunDelivers(run, acts, length, imm, readAck, k - 1);
      StepInRun(run, acts, length, imm, readAck, k - 1);
      PrefixGrows(run[k - 1].msgs, SentBy(acts[k - 1]), run[k - 1].received, TakenBy(run[k - 1], acts[k - 1]));
    }
  }

  /** Whatever is sent meanwhile, and in whatever order others are freed, a held region keeps its message. */
  lemma HeldIntact(s: State, x: nat)
    requires Inv(s) && x in s.held
    ensures exists i: nat :: i < s.received && IsRegion(s, i, x, s.held[x]) && Contents(s, s.held[x]) == s.msgs[i]
  {
    var i: nat :| i < s.received && IsRegion(s, i, x, s.held[x]);
    HeadBefore(s, x);
    CutBefore(s, i);
    RegionIntact(s, i, x, s.held[x]);
  }

  lemma RegionIntact(s: State, i: nat, x: nat, r: Region)
    requires Counts(s) && MemOk(s) && IsRegion(s, i, x, r) && MsgAt(s.imm, s.msgs, s.cuts, s.stream, i)
    requires Head(s) <= x && s.cuts[i + 1] <= s.landed
    ensures Contents(s, r) == s.msgs[i]
  {
    PayloadLands(s.imm, s.msgs, s.cuts, s.mem, s.stream, Head(s), s.landed, i);
  }

  lemma HeadBefore(s: State, x: nat)
    requires Places(s) && x in s.outs
    ensures Head(s) <= x
  {
    var j :| 0 <= j < |s.outs| && s.outs[j] == x;
    FirstIsLeast(s.outs, s.cuts[s.received], j);
  }

  /** A message received has landed. */
  lemma CutBefore(s: State, i: nat)
    requires Counts(s) && MsgsOk(s.imm, s.msgs, s.cuts, s.stream) && i < s.received
    ensures MsgAt(s.imm, s.msgs, s.cuts, s.stream, i) && s.cuts[i + 1] <= s.landed
  {
    if i + 1 < s.received {
      CutsIncrease(s.imm, s.msgs, s.cuts, s.stream, i + 1, s.received);
    }
  }

  /** What the sender is handed next shares no cell with anything sent and not freed, however stale its head is. */
  lemma HandedOutApart(s: State, len: nat, x: nat, y: nat)
    requires Inv(s) && 0 < len < s.remote.length && Accepts(s.remote, len)
    requires |s.stream| <= x < |s.stream| + len && Head(s) <= y < |s.stream|
    ensures x % |s.mem| != y % |s.mem|
  {
    HandedOutIsFree(s.remote, s.senderHead, |s.stream|, len, x, y);
  }

  /** The polled tail differs from the read offset, or a completion is there, exactly while something published is unread. */
  lemma PolledExactly(run: seq<State>, acts: seq<Action>, length: nat, imm: bool, readAck: bool, k: nat)
    requires 0 < length && IsRun(run, acts, length, imm, readAck) && k < |run|
    ensures Enabled(run[k], Receive) <==> run[k].received < run[k].published
  {
    RunKeepsInvariant(run, acts, length, imm, readAck, k);
    AnnouncedIffUnread(run[k]);
  }

  /** With send acknowledgements the last flushed head never trails the head by more than half the buffer. */
  lemma FlushedHeadIsRecent(run: seq<State>, acts: seq<Action>, length: nat, imm: bool, k: nat)
    requires 0 < length && IsRun(run, acts, length, imm, false) && k < |run|
    ensures Counts(run[k]) && run[k].flushed <= Head(run[k]) <= run[k].flushed + run[k].ring.length / 2
  {
    RunKeepsInvariant(run, acts, length, imm, false, k);
    SameMode(run, acts, length, imm, false, k);
  }

  lemma RunStep(run: seq<State>, acts: seq<Action>, length: nat, imm: bool, readAck: bool, k: nat)
    requires 0 < length && IsRun(run, acts, length, imm, readAck) && k < |acts|
    ensures Inv(run[k]) && Enabled(run[k], acts[k]) && run[k + 1] == Apply(run[k], acts[k]) && run[k].ring.length == length
  {
    RunKeepsInvariant(run, acts, length, imm, readAck, k);
    SameMode(run, acts, length, imm, readAck, k);
    assert IsNext(run[k], acts[k], run[k + 1]);
  }

  lemma {:induction false} SameMode(run: seq<State>, acts: seq<Action>, length: nat, imm: bool, readAck: bool, k: nat)
    requires 0 < length && IsRun(run, acts, length, imm, readAck) && k < |run|
    ensures run[k].imm == imm && run[k].readAck == readAck && run[k].ring.length == length
  {
    if k > 0 {
      SameMode(run, acts, length, imm, readAck, k - 1);
      assert IsNext(run[k - 1], acts[k - 1], run[k]);
      ModeStays(run[k - 1], acts[k - 1]);
    }
  }

  predicate SameModes(s: State, t: State) { t.imm == s.imm && t.readAck == s.readAck && t.ring.length == s.ring.length }

  lemma ModeStays(s: State, a: Action)
    requires Enabled(s, a)
    ensures SameModes(s, Apply(s, a))
  {
    match a {
      case Deliver => DeliveredMode(s);
      case Free(pos) => assert SameModes(s, Unlinked(s, pos));
      case _ =>
    }
  }

  lemma DeliveredMode(s: State)
    requires s.net != [] && s.mem != []
    ensures SameModes(s, Delivered(s))
  {
  }

  /** In general the offsets tell only the lag modulo the length. */
  lemma ExceedsByOffset(flushed: nat, head: nat, l: nat)
    requires 0 < l && flushed <= head
    ensures Exceeds(head % l, flushed % l, l) <==> (head - flushed) % l > l / 2
  {
    var d := (head - flushed) % l;
    assert head == flushed + d + l * ((head - flushed) / l);
    UniqueRemainder(head, (flushed + d) / l + (head - flushed) / l, (flushed + d) % l, l);
    OffsetDistance(flushed, flushed + d, l);
  }

  lemma LagBelowLength(lag: nat, l: nat)
    requires 0 < l
    ensures lag < l ==> lag % l == lag
  {
    if lag < l {
      UniqueRemainder(lag, 0, lag, l);
    }
  }

  /**
   A flush, or not, at this head leaves a lag of at most half the buffer exactly if the lag was below a length, or more
   than half a length above a multiple of it.
   */
  predicate Restored(before: nat, after: nat, head: nat, l: nat) {
    && 0 < l && before <= head && after <= head
    && (head - after <= l / 2 <==> head - before < l || (head - before) % l > l / 2)
  }

  lemma FlushRestores(before: nat, head: nat, l: nat)
    requires 0 < l && before <= head
    ensures Restored(before, if Exceeds(head % l, before % l, l) then head else before, head, l)
  {
    ExceedsByOffset(before, head, l);
    LagBelowLength(head - before, l);
  }

  lemma AcknowledgedLag(s: State)
    requires Counts(s) && FlushedPlace(s) && s.ring.head == Head(s) % s.ring.length
    ensures var t := Acknowledged(s);
            Counts(t) && Head(t) == Head(s) && Restored(s.flushed, t.flushed, Head(t), s.ring.length)
  {
    FlushRestores(s.flushed, Head(s), s.ring.length);
  }

  lemma UnlinkedFlushed(s: State, pos: nat)
    requires Enabled(s, Free(pos)) && Core(Unlinked(s, pos))
    ensures var u := Unlinked(s, pos);
            && u.flushed == s.flushed && u.ring.length == s.ring.length
            && Counts(u) && FlushedPlace(u) && u.ring.head == Head(u) % u.ring.length
  {
  }

  lemma FreeLag(s: State, pos: nat)
    requires Inv(s) && Enabled(s, Free(pos))
    ensures var t := FreedNow(s, pos); Counts(t) && Restored(s.flushed, t.flushed, Head(t), s.ring.length)
  {
    UnlinkedKeeps(s, pos);
    UnlinkedFlushed(s, pos);
    AcknowledgedLag(Unlinked(s, pos));
  }

  /** So it is, in any run and with either kind of acknowledgement, after each free. */
  lemma FreeRestoresBound(run: seq<State>, acts: seq<Action>, length: nat, imm: bool, readAck: bool, k: nat)
    requires 0 < length && IsRun(run, acts, length, imm, readAck) && k < |acts| && acts[k].Free?
    ensures var s, t := run[k], run[k + 1]; Counts(t) && Restored(s.flushed, t.flushed, Head(t), length)
  {
    RunStep(run, acts, length, imm, readAck, k);
    FreeLag(run[k], acts[k].pos);
  }

  /** A batch is posted as a whole, so whatever is freed meanwhile, it can grow only to less than the buffer. */
  lemma BatchStaysShort(s: State, len: nat)
    requires Inv(s) && 0 < len < s.remote.length && Accepts(s.remote, len)
    ensures |s.stream| - s.posted + len < s.remote.length
  {
    HeadLags(s);
    AcceptsIffRoom(s.remote, s.senderHead, |s.stream|, len);
  }

  /**
   With send acknowledgements, once all is freed and the sender has taken the heads on their way, it can send a
   message of len bytes exactly if that, with what the last flushed head lags behind, is less than the buffer; so any
   message of at most half the buffer passes, since the lag is at most half.
   */
  lemma AllFreedAccepts(s: State, len: nat)
    requires Inv(s) && !s.readAck && s.acks == [] && Head(s) == |s.stream| && 0 < len < s.remote.length
    ensures Accepts(s.remote, len) <==> |s.stream| - s.flushed + len < s.remote.length
    ensures |s.stream| - s.flushed <= s.remote.length / 2
    ensures 2 * len < s.remote.length ==> Accepts(s.remote, len)
  {
    AcceptsIffRoom(s.remote, s.senderHead, |s.stream|, len);
  }

  /** With read acknowledgements a head read once all is freed lets through any message shorter than the buffer. */
  lemma FreshHeadAccepts(s: State, len: nat)
    requires Inv(s) && s.readAck && s.acks == [] && Head(s) == |s.stream| && 0 < len < s.remote.length
    ensures Accepts(HeadGot(HeadRead(s)).remote, len)
  {
    FreshTracks(s);
    AcceptsIffRoom(HeadGot(HeadRead(s)).remote, Head(s), |s.stream|, len);
  }

  lemma FreshTracks(s: State)
    requires Places(s) && s.acks == [] && s.ackPos == []
    ensures var t := HeadGot(HeadRead(s)); Tracks(t.remote, Head(s), |s.stream|) && t.remote.length == s.remote.length
  {
    HeadLags(s);
    UpdateKeepsTracking(s.remote, s.senderHead, |s.stream|, Head(s));
  }
}
