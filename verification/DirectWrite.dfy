/**
 The direct-write protocol: receive buffers circulate through two rings of slots, one at each side.

 The receiver posts a free buffer by writing its address into the next slot of its own ring and, with a remote
 write, into the same slot at the sender. The sender takes the slots in turn: it waits until its slot is valid, reads
 the address, invalidates the slot and writes the message straight into the buffer, with the length last. The receiver
 takes its slots in turn too and polls for a length. Buffers are freed, and so posted again, in any order.
 */
module DirectWrite {
  import opened Modular

  /** A buffer: its first bytes, and the length at its end. The content is abstract: nothing looks into it. */
  datatype Buffer = Buffer(body: int, len: nat)

  /** A slot at the sender. */
  datatype Slot = Slot(addr: nat, valid: bool)

  /** A message on its way into a buffer; `bodyLanded` tells that only its length is missing. */
  datatype Write = Write(buf: nat, content: Buffer, bodyLanded: bool)

  /** A slot on its way to the sender; `valid` is its last byte. */
  datatype Refresh = Refresh(slot: nat, addr: nat, addrLanded: bool)

  datatype SenderPc = Idle | Polling | ReadAddr | Invalidate(addr: nat) | Post(addr: nat)

  /**
   Sender: target, next (the index of the next message; its id is one more), pc and the message being sent.
   Receiver: bufs, rcv, head, tail, and the buffers the application holds. At first it holds all of them.
   History: the buffers posted and the messages written, in order; how many slots arrived, were invalidated, how many
   messages landed and were received; and which message each buffer held for the application came with.
   */
  datatype State = State(
    n: nat, target: seq<Slot>, next: nat, pc: SenderPc, sending: Buffer,
    data: seq<Write>, back: seq<Refresh>,
    bufs: seq<Buffer>, rcv: seq<nat>, head: nat, tail: nat, held: set<nat>,
    posts: seq<nat>, msgs: seq<Buffer>, arrived: nat, invalidated: nat, landed: nat, received: nat, cameWith: map<nat, nat>)

  function Below(n: nat): (r: set<nat>)
    ensures |r| == n && forall b: nat :: b in r <==> b < n
  {
    if n == 0 then {} else Below(n - 1) + {n - 1}
  }

  function Start(n: nat): State
    requires 0 < n
  {
    State(n, seq(n, _ => Slot(0, false)), 0, Idle, Buffer(0, 0), [], [],
          seq(n, _ => Buffer(0, 0)), seq(n, _ => 0), 1 % n, 1 % n, Below(n),
          [], [], 0, 0, 0, 0, map[])
  }

  // ----- Steps -----

  datatype Action = CallSend(content: Buffer) | SendStep | DataLands | SlotLands | Receive | Free(buf: nat)

  function SlotOf(s: State): nat
    requires 0 < s.n
  {
    (s.next + 1) % s.n
  }

  /** Receive is the application's: it does not hold all the buffers. */
  predicate Enabled(s: State, a: Action) {
    && 0 < s.n == |s.target| == |s.bufs| == |s.rcv| && s.head < s.n && s.tail < s.n
    && match a
       case CallSend(content) => s.pc.Idle? && content.len > 0
       case SendStep => !s.pc.Idle?
       case DataLands => s.data != []
       case SlotLands => s.back != []
       case Receive => |s.held| < s.n && Polled(s) != 0
       case Free(buf) => buf in s.held && buf < s.n
  }

  /** The length at the end of the buffer whose turn it is. */
  function Polled(s: State): nat
    requires s.head < |s.rcv|
  {
    if s.rcv[s.head] < |s.bufs| then s.bufs[s.rcv[s.head]].len else 0
  }

  function Sends(s: State): State
    requires Enabled(s, SendStep)
  {
    var slot := s.target[SlotOf(s)];
    match s.pc
    case Idle => s
    case Polling => if slot.valid then s.(pc := ReadAddr) else s
    case ReadAddr => s.(pc := Invalidate(slot.addr))
    case Invalidate(addr) =>
      s.(target := s.target[SlotOf(s) := slot.(valid := false)], pc := Post(addr), invalidated := s.invalidated + 1)
    case Post(addr) =>
      s.(data := s.data + [Write(addr, s.sending, false)], pc := Idle, next := s.next + 1, msgs := s.msgs + [s.sending])
  }

  function DataLanded(s: State): State
    requires s.data != []
  {
    var w, rest := s.data[0], s.data[1..];
    if w.buf >= |s.bufs| then s.(data := rest)
    else if !w.bodyLanded then
      s.(data := [w.(bodyLanded := true)] + rest, bufs := s.bufs[w.buf := s.bufs[w.buf].(body := w.content.body)])
    else s.(data := rest, bufs := s.bufs[w.buf := s.bufs[w.buf].(len := w.content.len)], landed := s.landed + 1)
  }

  function SlotLanded(s: State): State
    requires s.back != []
  {
    var w, rest := s.back[0], s.back[1..];
    if w.slot >= |s.target| then s.(back := rest)
    else if !w.addrLanded then
      s.(back := [w.(addrLanded := true)] + rest, target := s.target[w.slot := s.target[w.slot].(addr := w.addr)])
    else s.(back := rest, target := s.target[w.slot := s.target[w.slot].(valid := true)], arrived := s.arrived + 1)
  }

  function ReceivedNow(s: State): State
    requires Enabled(s, Receive)
  {
    var buf := s.rcv[s.head];
    s.(head := (s.head + 1) % s.n, held := s.held + {buf}, received := s.received + 1, cameWith := s.cameWith[buf := s.received])
  }

  function FreedNow(s: State, buf: nat): State
    requires Enabled(s, Free(buf))
  {
    s.(bufs := s.bufs[buf := s.bufs[buf].(len := 0)], back := s.back + [Refresh(s.tail, buf, false)],
       rcv := s.rcv[s.tail := buf], tail := (s.tail + 1) % s.n,
       held := s.held - {buf}, posts := s.posts + [buf], cameWith := s.cameWith - {buf})
  }

  function Apply(s: State, a: Action): State
    requires Enabled(s, a)
  {
    match a
    case CallSend(content) => s.(pc := Polling, sending := content)
    case SendStep => Sends(s)
    case DataLands => DataLanded(s)
    case SlotLands => SlotLanded(s)
    case Receive => ReceivedNow(s)
    case Free(buf) => FreedNow(s, buf)
  }

  // ----- The invariant -----

  /** The slot of the p-th buffer posted, and of the p-th message: the remainder of p + 1. */
  function At(p: nat, n: nat): (r: nat)
    requires 0 < n
    ensures r < n
  {
    if p + 1 < n then p + 1 else if p + 1 == n then 0 else At(p - n, n)
  }

  lemma {:induction false} AtIsRemainder(p: nat, n: nat)
    requires 0 < n
    ensures At(p, n) == (p + 1) % n
  {
    if p + 1 < n {
      UniqueRemainder(p + 1, 0, p + 1, n);
    } else if p + 1 == n {
      UniqueRemainder(p + 1, 1, 0, n);
    } else {
      AtIsRemainder(p - n, n);
      UniqueRemainder(p + 1, (p + 1 - n) / n + 1, (p + 1 - n) % n, n);
    }
  }

  predicate Sizes(s: State) {
    && 0 < s.n == |s.target| == |s.bufs| == |s.rcv|
    && s.received <= s.landed <= s.next == |s.msgs| <= s.invalidated <= s.next + 1
    && s.invalidated <= s.arrived <= |s.posts|
    && (s.invalidated == s.next + 1 <==> s.pc.Post?)
    && s.head == At(s.received, s.n) && s.tail == At(|s.posts|, s.n)
    && |s.back| == |s.posts| - s.arrived && |s.data| == s.next - s.landed
  }

  predicate NotEmpty(msgs: seq<Buffer>, pc: SenderPc, sending: Buffer) {
    (forall i :: 0 <= i < |msgs| ==> msgs[i].len > 0) && (!pc.Idle? ==> sending.len > 0)
  }

  /** Each buffer is either held or posted and not received, and then only once. */
  predicate Circulating(n: nat, held: set<nat>, posts: seq<nat>, received: nat) {
    && received <= |posts| && |held| + (|posts| - received) == n
    && (forall b: nat :: b in held ==> b < n)
    && (forall p :: 0 <= p < |posts| ==> posts[p] < n)
    && (forall p :: received <= p < |posts| ==> posts[p] !in held)
    && (forall p, q :: received <= p < q < |posts| ==> posts[p] != posts[q])
  }

  /** The receiver's ring has the last n buffers posted. */
  predicate RcvOk(n: nat, rcv: seq<nat>, posts: seq<nat>) {
    && 0 < n == |rcv|
    && forall p {:trigger posts[p]} :: 0 <= p < |posts| <= p + n ==> rcv[At(p, n)] == posts[p]
  }

  /** The valid slots at the sender are those that arrived and were not used, with their buffers. */
  predicate TargetOk(n: nat, target: seq<Slot>, posts: seq<nat>, invalidated: nat, arrived: nat) {
    && 0 < n == |target| && arrived <= |posts|
    && (forall p {:trigger target[At(p, n)]} :: invalidated <= p < invalidated + n ==> (target[At(p, n)].valid <==> p < arrived))
    && (forall p {:trigger posts[p]} :: invalidated <= p < arrived ==> target[At(p, n)].addr == posts[p])
  }

  /** The slots on their way are those of the buffers posted and not arrived. */
  predicate BackOk(n: nat, back: seq<Refresh>, target: seq<Slot>, posts: seq<nat>, arrived: nat) {
    && 0 < n == |target| && |back| == |posts| - arrived
    && (forall i {:trigger back[i]} :: 0 <= i < |back| ==>
          back[i].slot == At(arrived + i, n) && back[i].addr == posts[arrived + i])
    && (forall i :: 0 < i < |back| ==> !back[i].addrLanded)
    && (back != [] && back[0].addrLanded ==> back[0].slot < n && target[back[0].slot].addr == back[0].addr)
  }

  /** The messages on their way are those written and not landed, each into the buffer posted under its number. */
  predicate DataOk(data: seq<Write>, bufs: seq<Buffer>, posts: seq<nat>, msgs: seq<Buffer>, landed: nat) {
    && |data| == |msgs| - landed && |msgs| <= |posts|
    && (forall p {:trigger posts[p]} :: landed <= p < |msgs| ==> data[p - landed].buf == posts[p])
    && (forall p {:trigger msgs[p]} :: landed <= p < |msgs| ==> data[p - landed].content == msgs[p])
    && (forall i :: 0 < i < |data| ==> !data[i].bodyLanded)
    && (data != [] && data[0].bodyLanded ==>
          data[0].buf < |bufs| && bufs[data[0].buf].body == data[0].content.body)
  }

  /** The address the sender has read is that of the buffer posted under the number of its message. */
  predicate PcOk(pc: SenderPc, next: nat, posts: seq<nat>, arrived: nat) {
    && arrived <= |posts|
    && (pc.ReadAddr? || pc.Invalidate? || pc.Post? ==> next < arrived)
    && (pc.Invalidate? ==> pc.addr == posts[next]) && (pc.Post? ==> pc.addr == posts[next])
  }

  /** Landed messages are in their buffers, and buffers that wait for one show no length. */
  predicate PostedBufs(n: nat, bufs: seq<Buffer>, posts: seq<nat>, msgs: seq<Buffer>, received: nat, landed: nat) {
    && |bufs| == n && landed <= |msgs| <= |posts|
    && (forall p {:trigger posts[p]} :: 0 <= p < |posts| ==> posts[p] < n)
    && (forall p {:trigger posts[p]} :: received <= p < landed ==> bufs[posts[p]] == msgs[p])
    && (forall p {:trigger posts[p]} :: landed <= p < |posts| ==> bufs[posts[p]].len == 0)
  }

  /** A held buffer that was ever posted keeps the message it came with. */
  predicate HeldBufs(bufs: seq<Buffer>, posts: seq<nat>, msgs: seq<Buffer>, held: set<nat>, cameWith: map<nat, nat>, received: nat) {
    && received <= |msgs| && received <= |posts|
    && (forall b: nat :: b in cameWith ==> b in held && b < |bufs| && cameWith[b] < received && bufs[b] == msgs[cameWith[b]])
    && (forall p :: 0 <= p < received && posts[p] in held ==> posts[p] in cameWith)
  }

  predicate Inv(s: State) {
    && Sizes(s) && NotEmpty(s.msgs, s.pc, s.sending) && Circulating(s.n, s.held, s.posts, s.received)
    && RcvOk(s.n, s.rcv, s.posts) && TargetOk(s.n, s.target, s.posts, s.invalidated, s.arrived)
    && BackOk(s.n, s.back, s.target, s.posts, s.arrived) && DataOk(s.data, s.bufs, s.posts, s.msgs, s.landed)
    && PcOk(s.pc, s.next, s.posts, s.arrived) && PostedBufs(s.n, s.bufs, s.posts, s.msgs, s.received, s.landed)
    && HeldBufs(s.bufs, s.posts, s.msgs, s.held, s.cameWith, s.received)
  }

  // ----- Slots -----

  lemma NextSlot(p: nat, n: nat)
    requires 0 < n
    ensures (At(p, n) + 1) % n == At(p + 1, n)
  {
    AtIsRemainder(p, n);
    AtIsRemainder(p + 1, n);
    AddToReduced(p + 1, 1, n);
  }

  /** Within n consecutive numbers, different ones have different slots. */
  lemma DifferentSlots(p: nat, q: nat, low: nat, n: nat)
    requires 0 < n && low <= p < low + n && low <= q < low + n
    ensures p != q <==> At(p, n) != At(q, n)
  {
    AtIsRemainder(p, n);
    AtIsRemainder(q, n);
    DifferentCells(p + 1, q + 1, low + 1, n);
  }

  lemma SameSlot(p: nat, n: nat)
    requires 0 < n
    ensures At(p + n, n) == At(p, n)
  {
  }

  // ----- The sender's steps -----

  /** Nothing is posted ahead of the messages received by more than there are buffers. */
  lemma PostsBounded(s: State)
    requires Sizes(s) && Circulating(s.n, s.held, s.posts, s.received)
    ensures |s.posts| <= s.received + s.n <= s.next + s.n <= s.invalidated + s.n
  {
  }

  /** Invalidating a slot cannot undo a refresh of it: the next one is not posted before this message is received. */
  lemma InvalidateTarget(n: nat, target: seq<Slot>, posts: seq<nat>, at: nat, arrived: nat)
    requires TargetOk(n, target, posts, at, arrived) && at < arrived <= at + n
    ensures TargetOk(n, target[At(at, n) := target[At(at, n)].(valid := false)], posts, at + 1, arrived)
  {
    var target' := target[At(at, n) := target[At(at, n)].(valid := false)];
    SameSlot(at, n);
    forall p {:trigger At(p, n)} | at + 1 <= p < at + 1 + n ensures target'[At(p, n)].valid <==> p < arrived {
      if p < at + n {
        DifferentSlots(p, at, at, n);
      }
    }
    forall p {:trigger posts[p]} | at + 1 <= p < arrived ensures target'[At(p, n)].addr == posts[p] {
      DifferentSlots(p, at, at, n);
    }
  }

  lemma InvalidateBack(n: nat, back: seq<Refresh>, target: seq<Slot>, posts: seq<nat>, arrived: nat, at: nat)
    requires BackOk(n, back, target, posts, arrived) && at < n
    ensures BackOk(n, back, target[at := target[at].(valid := false)], posts, arrived)
  {
  }

  lemma SendStepKeeps(s: State)
    requires Inv(s) && Enabled(s, SendStep)
    ensures Inv(Sends(s))
  {
    match s.pc {
      case Polling => PollKeeps(s);
      case ReadAddr => ReadKeeps(s);
      case Invalidate(_) => InvalidateState(s); InvalidateKeeps(s, Sends(s));
      case Post(_) => PostKeeps(s);
    }
  }

  lemma PollKeeps(s: State)
    requires Inv(s) && s.pc.Polling?
    ensures Inv(Sends(s))
  {
    AtIsRemainder(s.next, s.n);
    assert s.target[At(s.next, s.n)].valid <==> s.next < s.arrived;
  }

  lemma ReadKeeps(s: State)
    requires Inv(s) && s.pc.ReadAddr?
    ensures Inv(Sends(s))
  {
    AtIsRemainder(s.next, s.n);
    assert s.target[At(s.next, s.n)].addr == s.posts[s.next];
  }

  predicate Invalidated(s: State, t: State) {
    && s.pc.Invalidate? && 0 < s.n == |s.target|
    && var at := At(s.next, s.n);
    t == s.(target := s.target[at := s.target[at].(valid := false)], pc := Post(s.pc.addr), invalidated := s.invalidated + 1)
  }

  lemma InvalidateState(s: State)
    requires Sizes(s) && Enabled(s, SendStep) && s.pc.Invalidate?
    ensures Invalidated(s, Sends(s))
  {
    AtIsRemainder(s.next, s.n);
  }

  lemma InvalidateKeeps(s: State, t: State)
    requires Inv(s) && Invalidated(s, t)
    ensures Inv(t)
  {
    PostsBounded(s);
    InvalidateTarget(s.n, s.target, s.posts, s.next, s.arrived);
    InvalidateBack(s.n, s.back, s.target, s.posts, s.arrived, At(s.next, s.n));
  }

  lemma PostKeeps(s: State)
    requires Inv(s) && s.pc.Post?
    ensures Inv(Sends(s))
  {
    PostData(s.data, s.bufs, s.posts, s.msgs, s.landed, s.sending);
  }

  lemma PostData(data: seq<Write>, bufs: seq<Buffer>, posts: seq<nat>, msgs: seq<Buffer>, landed: nat, content: Buffer)
    requires DataOk(data, bufs, posts, msgs, landed) && |msgs| < |posts|
    ensures DataOk(data + [Write(posts[|msgs|], content, false)], bufs, posts, msgs + [content], landed)
  {
  }

  // ----- Messages land -----

  lemma DataLandsKeeps(s: State)
    requires Inv(s) && Enabled(s, DataLands)
    ensures Inv(DataLanded(s))
  {
    FirstData(s);
    DataState(s);
    if s.data[0].bodyLanded {
      LengthKeeps(s, DataLanded(s));
    } else {
      BodyKeeps(s, DataLanded(s));
    }
  }

  /** The first message on its way goes to the buffer that waits for it. */
  lemma FirstData(s: State)
    requires Inv(s) && s.data != []
    ensures s.landed < |s.msgs| && s.landed < |s.posts| && s.data[0].buf == s.posts[s.landed] < |s.bufs|
    ensures s.data[0].content == s.msgs[s.landed] && s.msgs[s.landed].len > 0
    ensures s.data[0].bodyLanded ==> s.bufs[s.data[0].buf].body == s.data[0].content.body
  {
    assert s.data[0].buf == s.posts[s.landed] && s.data[0].content == s.msgs[s.landed];
  }

  /** The body, or the length, of the first message on its way has landed. */
  predicate DataThere(s: State, t: State)
    requires s.data != [] && s.data[0].buf < |s.bufs|
  {
    var w, b := s.data[0], s.bufs[s.data[0].buf];
    if w.bodyLanded then
      t == s.(data := s.data[1..], bufs := s.bufs[w.buf := b.(len := w.content.len)], landed := s.landed + 1)
    else
      t == s.(data := [w.(bodyLanded := true)] + s.data[1..], bufs := s.bufs[w.buf := b.(body := w.content.body)])
  }

  lemma DataState(s: State)
    requires s.data != [] && s.data[0].buf < |s.bufs|
    ensures DataThere(s, DataLanded(s))
  {
  }

  /** Writing into a buffer that waits for its message leaves all others, held or not, as they are. */
  lemma WaitingBufferChanges(s: State, b: Buffer)
    requires Circulating(s.n, s.held, s.posts, s.received) && PostedBufs(s.n, s.bufs, s.posts, s.msgs, s.received, s.landed)
    requires HeldBufs(s.bufs, s.posts, s.msgs, s.held, s.cameWith, s.received)
    requires s.received <= s.landed < |s.posts| && (b.len == 0 || (s.landed < |s.msgs| && b == s.msgs[s.landed]))
    ensures var bufs := s.bufs[s.posts[s.landed] := b];
            && PostedBufs(s.n, bufs, s.posts, s.msgs, s.received, if b.len == 0 then s.landed else s.landed + 1)
            && HeldBufs(bufs, s.posts, s.msgs, s.held, s.cameWith, s.received)
  {
  }

  /** What the arrival of a message does not concern. */
  lemma DataSame(s: State, t: State)
    requires Inv(s) && t == s.(data := t.data, bufs := t.bufs, landed := t.landed)
    requires Sizes(t) && DataOk(t.data, t.bufs, t.posts, t.msgs, t.landed)
    requires PostedBufs(t.n, t.bufs, t.posts, t.msgs, t.received, t.landed)
    requires HeldBufs(t.bufs, t.posts, t.msgs, t.held, t.cameWith, t.received)
    ensures Inv(t)
  {
  }

  lemma DataSizes(s: State, t: State)
    requires Sizes(s) && s.data != [] && s.data[0].buf < |s.bufs| && s.landed < |s.msgs| && DataThere(s, t)
    ensures Sizes(t)
  {
  }

  lemma BodyKeeps(s: State, t: State)
    requires Inv(s) && s.data != [] && !s.data[0].bodyLanded && s.landed < |s.msgs| && s.landed < |s.posts|
    requires s.data[0].buf == s.posts[s.landed] < |s.bufs| && DataThere(s, t)
    ensures Inv(t)
  {
    var b := s.bufs[s.data[0].buf].(body := s.data[0].content.body);
    WaitingBufferChanges(s, b);
    BodyData(s.data, s.bufs, s.posts, s.msgs, s.landed);
    DataSizes(s, t);
    DataSame(s, t);
  }

  lemma BodyData(data: seq<Write>, bufs: seq<Buffer>, posts: seq<nat>, msgs: seq<Buffer>, landed: nat)
    requires DataOk(data, bufs, posts, msgs, landed) && data != [] && data[0].buf < |bufs|
    ensures var b := bufs[data[0].buf].(body := data[0].content.body);
            DataOk([data[0].(bodyLanded := true)] + data[1..], bufs[data[0].buf := b], posts, msgs, landed)
  {
  }

  /** The whole message is in its buffer. */
  lemma LengthBufs(s: State, t: State)
    requires Circulating(s.n, s.held, s.posts, s.received) && PostedBufs(s.n, s.bufs, s.posts, s.msgs, s.received, s.landed)
    requires HeldBufs(s.bufs, s.posts, s.msgs, s.held, s.cameWith, s.received) && s.received <= s.landed
    requires DataOk(s.data, s.bufs, s.posts, s.msgs, s.landed) && s.data != [] && s.data[0].bodyLanded
    requires s.landed < |s.msgs| && s.landed < |s.posts| && s.data[0].buf == s.posts[s.landed] < |s.bufs|
    requires s.data[0].content == s.msgs[s.landed] && s.msgs[s.landed].len > 0
    requires s.bufs[s.data[0].buf].body == s.data[0].content.body && DataThere(s, t)
    ensures DataOk(t.data, t.bufs, t.posts, t.msgs, t.landed)
    ensures PostedBufs(t.n, t.bufs, t.posts, t.msgs, t.received, t.landed)
    ensures HeldBufs(t.bufs, t.posts, t.msgs, t.held, t.cameWith, t.received)
  {
    var b := s.msgs[s.landed];
    WaitingBufferChanges(s, b);
    LengthData(s.data, s.bufs, s.posts, s.msgs, s.landed, b);
  }

  lemma LengthKeeps(s: State, t: State)
    requires Inv(s) && s.data != [] && s.data[0].bodyLanded && s.landed < |s.msgs| && s.landed < |s.posts|
    requires s.data[0].buf == s.posts[s.landed] < |s.bufs|
    requires s.data[0].content == s.msgs[s.landed] && s.msgs[s.landed].len > 0
    requires s.bufs[s.data[0].buf].body == s.data[0].content.body && DataThere(s, t)
    ensures Inv(t)
  {
    LengthBufs(s, t);
    DataSizes(s, t);
    DataSame(s, t);
  }

  lemma LengthData(data: seq<Write>, bufs: seq<Buffer>, posts: seq<nat>, msgs: seq<Buffer>, landed: nat, b: Buffer)
    requires DataOk(data, bufs, posts, msgs, landed) && data != [] && data[0].buf < |bufs|
    ensures DataOk(data[1..], bufs[data[0].buf := b], posts, msgs, landed + 1)
  {
    assert forall p {:trigger posts[p]} :: landed < p < |msgs| ==> data[1..][p - (landed + 1)] == data[p - landed];
  }

  // ----- Slots arrive -----

  lemma SlotLandsKeeps(s: State)
    requires Inv(s) && Enabled(s, SlotLands)
    ensures Inv(SlotLanded(s))
  {
    FirstSlot(s.n, s.back, s.target, s.posts, s.arrived);
    PostsBounded(s);
    SlotState(s);
    if s.back[0].addrLanded {
      ValidKeeps(s, SlotLanded(s));
    } else {
      AddrKeeps(s, SlotLanded(s));
    }
  }

  /** The first slot on its way has landed in full, or its address has. */
  predicate SlotThere(s: State, t: State)
    requires s.back != [] && s.back[0].slot < |s.target|
  {
    var w := s.back[0];
    if w.addrLanded then
      t == s.(back := s.back[1..], target := s.target[w.slot := s.target[w.slot].(valid := true)], arrived := s.arrived + 1)
    else
      t == s.(back := [w.(addrLanded := true)] + s.back[1..], target := s.target[w.slot := s.target[w.slot].(addr := w.addr)])
  }

  lemma SlotState(s: State)
    requires s.back != [] && s.back[0].slot < |s.target|
    ensures SlotThere(s, SlotLanded(s))
  {
  }

  lemma FirstSlot(n: nat, back: seq<Refresh>, target: seq<Slot>, posts: seq<nat>, arrived: nat)
    requires BackOk(n, back, target, posts, arrived) && back != []
    ensures back[0].slot == At(arrived, n) && back[0].addr == posts[arrived]
  {
  }

  lemma ValidKeeps(s: State, t: State)
    requires Inv(s) && s.back != [] && s.back[0].addrLanded && s.back[0].slot == At(s.arrived, s.n)
    requires s.back[0].addr == s.posts[s.arrived] && |s.posts| <= s.invalidated + s.n && SlotThere(s, t)
    ensures Inv(t)
  {
    ValidRings(s.n, s.back, s.target, s.posts, s.invalidated, s.arrived);
    ValidRest(s, t);
    ValidSame(s, t);
  }

  lemma ValidRings(n: nat, back: seq<Refresh>, target: seq<Slot>, posts: seq<nat>, invalidated: nat, a: nat)
    requires TargetOk(n, target, posts, invalidated, a) && BackOk(n, back, target, posts, a) && back != []
    requires back[0].addrLanded && back[0].slot == At(a, n) && back[0].addr == posts[a]
    requires invalidated <= a < |posts| <= invalidated + n
    ensures var target' := target[At(a, n) := target[At(a, n)].(valid := true)];
            TargetOk(n, target', posts, invalidated, a + 1) && BackOk(n, back[1..], target', posts, a + 1)
  {
    AddrThere(n, back, target, posts, a);
    ValidTarget(n, target, posts, invalidated, a);
    ValidBack(n, back, target, posts, a);
  }

  lemma ValidRest(s: State, t: State)
    requires Sizes(s) && PcOk(s.pc, s.next, s.posts, s.arrived) && s.back != []
    requires t == s.(back := s.back[1..], target := t.target, arrived := s.arrived + 1) && |t.target| == |s.target|
    ensures Sizes(t) && PcOk(t.pc, t.next, t.posts, t.arrived)
  {
  }

  /** What the arrival of a slot does not concern. */
  lemma ValidSame(s: State, t: State)
    requires Inv(s) && t == s.(back := t.back, target := t.target, arrived := t.arrived)
    requires Sizes(t) && PcOk(t.pc, t.next, t.posts, t.arrived)
    requires TargetOk(t.n, t.target, t.posts, t.invalidated, t.arrived) && BackOk(t.n, t.back, t.target, t.posts, t.arrived)
    ensures Inv(t)
  {
  }

  lemma AddrThere(n: nat, back: seq<Refresh>, target: seq<Slot>, posts: seq<nat>, arrived: nat)
    requires BackOk(n, back, target, posts, arrived) && back != [] && back[0].addrLanded
    requires back[0].slot == At(arrived, n) && back[0].addr == posts[arrived]
    ensures target[At(arrived, n)].addr == posts[arrived]
  {
  }

  lemma ValidTarget(n: nat, target: seq<Slot>, posts: seq<nat>, invalidated: nat, a: nat)
    requires TargetOk(n, target, posts, invalidated, a) && invalidated <= a < |posts| <= invalidated + n
    requires target[At(a, n)].addr == posts[a]
    ensures TargetOk(n, target[At(a, n) := target[At(a, n)].(valid := true)], posts, invalidated, a + 1)
  {
    var target' := target[At(a, n) := target[At(a, n)].(valid := true)];
    forall p {:trigger At(p, n)} | invalidated <= p < invalidated + n ensures target'[At(p, n)].valid <==> p < a + 1 {
      DifferentSlots(p, a, invalidated, n);
    }
  }

  lemma ValidBack(n: nat, back: seq<Refresh>, target: seq<Slot>, posts: seq<nat>, a: nat)
    requires BackOk(n, back, target, posts, a) && back != [] && back[0].slot == At(a, n)
    ensures BackOk(n, back[1..], target[At(a, n) := target[At(a, n)].(valid := true)], posts, a + 1)
  {
    assert forall i {:trigger back[1..][i]} :: 0 <= i < |back[1..]| ==> back[1..][i] == back[i + 1];
  }

  lemma AddrKeeps(s: State, t: State)
    requires Inv(s) && s.back != [] && !s.back[0].addrLanded && s.back[0].slot == At(s.arrived, s.n)
    requires |s.posts| <= s.invalidated + s.n && SlotThere(s, t)
    ensures Inv(t)
  {
    AddrTarget(s.n, s.target, s.posts, s.invalidated, s.arrived, s.back[0].addr);
    AddrBack(s.n, s.back, s.target, s.posts, s.arrived);
  }

  lemma AddrTarget(n: nat, target: seq<Slot>, posts: seq<nat>, invalidated: nat, a: nat, addr: nat)
    requires TargetOk(n, target, posts, invalidated, a) && invalidated <= a < |posts| <= invalidated + n
    ensures TargetOk(n, target[At(a, n) := target[At(a, n)].(addr := addr)], posts, invalidated, a)
  {
    var target' := target[At(a, n) := target[At(a, n)].(addr := addr)];
    forall p {:trigger posts[p]} | invalidated <= p < a ensures target'[At(p, n)].addr == posts[p] {
      DifferentSlots(p, a, invalidated, n);
    }
  }

  lemma AddrBack(n: nat, back: seq<Refresh>, target: seq<Slot>, posts: seq<nat>, a: nat)
    requires BackOk(n, back, target, posts, a) && back != [] && back[0].slot == At(a, n)
    ensures BackOk(n, [back[0].(addrLanded := true)] + back[1..], target[At(a, n) := target[At(a, n)].(addr := back[0].addr)], posts, a)
  {
    var back' := [back[0].(addrLanded := true)] + back[1..];
    assert forall i {:trigger back'[i]} :: 0 < i < |back'| ==> back'[i] == back[i];
  }

  // ----- The receiver's calls -----

  /** What the receiver polls is the buffer whose message comes next, and shows a length exactly when that has landed. */
  lemma PolledIffLanded(s: State)
    requires Inv(s) && |s.held| < s.n
    ensures s.received < |s.posts| && s.rcv[s.head] == s.posts[s.received]
    ensures Polled(s) != 0 <==> s.received < s.landed
  {
    assert s.posts[s.received] < s.n;
  }

  lemma ReceiveKeeps(s: State)
    requires Inv(s) && Enabled(s, Receive)
    ensures Inv(ReceivedNow(s))
  {
    PolledIffLanded(s);
    ReceivedSizes(s);
    ReceiveState(s, s.posts[s.received]);
    Received(s, ReceivedNow(s), s.posts[s.received]);
  }

  predicate Took(s: State, t: State, b: nat) {
    t == s.(head := t.head, held := s.held + {b}, received := s.received + 1, cameWith := s.cameWith[b := s.received])
  }

  lemma ReceiveState(s: State, b: nat)
    requires Enabled(s, Receive) && s.rcv[s.head] == b
    ensures Took(s, ReceivedNow(s), b)
  {
  }

  lemma Received(s: State, t: State, b: nat)
    requires Inv(s) && s.received < s.landed && Sizes(t) && b == s.posts[s.received] && Took(s, t, b)
    ensures Inv(t)
  {
    ReceivedBufs(s);
  }

  lemma ReceivedSizes(s: State)
    requires Sizes(s) && s.received < s.landed && Enabled(s, Receive)
    ensures Sizes(ReceivedNow(s))
  {
    NextSlot(s.received, s.n);
  }

  lemma ReceivedBufs(s: State)
    requires Circulating(s.n, s.held, s.posts, s.received) && PostedBufs(s.n, s.bufs, s.posts, s.msgs, s.received, s.landed)
    requires HeldBufs(s.bufs, s.posts, s.msgs, s.held, s.cameWith, s.received) && s.received < s.landed
    ensures var b := s.posts[s.received];
            && Circulating(s.n, s.held + {b}, s.posts, s.received + 1)
            && PostedBufs(s.n, s.bufs, s.posts, s.msgs, s.received + 1, s.landed)
            && HeldBufs(s.bufs, s.posts, s.msgs, s.held + {b}, s.cameWith[b := s.received], s.received + 1)
  {
  }

  lemma FreeKeeps(s: State, buf: nat)
    requires Inv(s) && Enabled(s, Free(buf))
    ensures Inv(FreedNow(s, buf))
  {
    FreeState(s, buf);
    Freed(s, FreedNow(s, buf), buf);
  }

  predicate Posted(s: State, t: State, buf: nat)
    requires 0 < s.n == |s.rcv| == |s.bufs| && buf < s.n
  {
    var last := At(|s.posts|, s.n);
    t == s.(bufs := s.bufs[buf := s.bufs[buf].(len := 0)], back := s.back + [Refresh(last, buf, false)],
            rcv := s.rcv[last := buf], tail := At(|s.posts| + 1, s.n),
            held := s.held - {buf}, posts := s.posts + [buf], cameWith := s.cameWith - {buf})
  }

  lemma FreeState(s: State, buf: nat)
    requires Sizes(s) && Enabled(s, Free(buf))
    ensures Posted(s, FreedNow(s, buf), buf)
  {
    NextSlot(|s.posts|, s.n);
  }

  lemma Freed(s: State, t: State, buf: nat)
    requires Inv(s) && buf in s.held && buf < s.n && Posted(s, t, buf)
    ensures Inv(t)
  {
    FreedBufs(s, buf);
    FreedRings(s, buf);
    FreedData(s, buf);
  }

  lemma FreedBufs(s: State, buf: nat)
    requires Circulating(s.n, s.held, s.posts, s.received) && PostedBufs(s.n, s.bufs, s.posts, s.msgs, s.received, s.landed)
    requires HeldBufs(s.bufs, s.posts, s.msgs, s.held, s.cameWith, s.received) && buf in s.held && s.received <= s.landed
    ensures var posts, bufs := s.posts + [buf], s.bufs[buf := s.bufs[buf].(len := 0)];
            && Circulating(s.n, s.held - {buf}, posts, s.received)
            && PostedBufs(s.n, bufs, posts, s.msgs, s.received, s.landed)
            && HeldBufs(bufs, posts, s.msgs, s.held - {buf}, s.cameWith - {buf}, s.received)
  {
  }

  lemma FreedRings(s: State, buf: nat)
    requires RcvOk(s.n, s.rcv, s.posts) && TargetOk(s.n, s.target, s.posts, s.invalidated, s.arrived)
    requires BackOk(s.n, s.back, s.target, s.posts, s.arrived)
    ensures var posts := s.posts + [buf];
            && RcvOk(s.n, s.rcv[At(|s.posts|, s.n) := buf], posts)
            && TargetOk(s.n, s.target, posts, s.invalidated, s.arrived)
            && BackOk(s.n, s.back + [Refresh(At(|s.posts|, s.n), buf, false)], s.target, posts, s.arrived)
  {
    FreedRcv(s.n, s.rcv, s.posts, buf);
    FreedTarget(s.n, s.target, s.posts, s.invalidated, s.arrived, buf);
    FreedBack(s.n, s.back, s.target, s.posts, s.arrived, buf);
  }

  lemma FreedRcv(n: nat, rcv: seq<nat>, posts: seq<nat>, buf: nat)
    requires RcvOk(n, rcv, posts)
    ensures RcvOk(n, rcv[At(|posts|, n) := buf], posts + [buf])
  {
    var last, posts' := |posts|, posts + [buf];
    var rcv' := rcv[At(last, n) := buf];
    forall p {:trigger posts'[p]} | 0 <= p < |posts'| <= p + n ensures rcv'[At(p, n)] == posts'[p] {
      if p < last {
        assert posts'[p] == posts[p];
        DifferentSlots(p, last, if last >= n then last - n + 1 else 0, n);
      }
    }
  }

  lemma FreedTarget(n: nat, target: seq<Slot>, posts: seq<nat>, invalidated: nat, arrived: nat, buf: nat)
    requires TargetOk(n, target, posts, invalidated, arrived)
    ensures TargetOk(n, target, posts + [buf], invalidated, arrived)
  {
    assert forall p {:trigger (posts + [buf])[p]} :: 0 <= p < |posts| ==> (posts + [buf])[p] == posts[p];
  }

  lemma FreedBack(n: nat, back: seq<Refresh>, target: seq<Slot>, posts: seq<nat>, arrived: nat, buf: nat)
    requires BackOk(n, back, target, posts, arrived)
    ensures BackOk(n, back + [Refresh(At(|posts|, n), buf, false)], target, posts + [buf], arrived)
  {
  }

  lemma FreedData(s: State, buf: nat)
    requires Circulating(s.n, s.held, s.posts, s.received) && DataOk(s.data, s.bufs, s.posts, s.msgs, s.landed)
    requires buf in s.held && |s.bufs| == s.n && s.received <= s.landed && PcOk(s.pc, s.next, s.posts, s.arrived)
    ensures var posts := s.posts + [buf];
            && DataOk(s.data, s.bufs[buf := s.bufs[buf].(len := 0)], posts, s.msgs, s.landed)
            && PcOk(s.pc, s.next, posts, s.arrived)
  {
  }

  lemma CallKeeps(s: State, content: Buffer)
    requires Inv(s) && Enabled(s, CallSend(content))
    ensures Inv(Apply(s, CallSend(content)))
  {
  }

  lemma StepKeeps(s: State, a: Action)
    requires Inv(s) && Enabled(s, a)
    ensures Inv(Apply(s, a))
  {
    match a {
      case CallSend(content) => CallKeeps(s, content);
      case SendStep => SendStepKeeps(s);
      case DataLands => DataLandsKeeps(s);
      case SlotLands => SlotLandsKeeps(s);
      case Receive => ReceiveKeeps(s);
      case Free(buf) => FreeKeeps(s, buf);
    }
  }

  // ----- Runs -----

  predicate IsNext(s: State, a: Action, t: State) { Enabled(s, a) && t == Apply(s, a) }

  ghost predicate IsRun(run: seq<State>, acts: seq<Action>, n: nat)
    requires 0 < n
  {
    && |run| == |acts| + 1 && run[0] == Start(n)
    && forall i, j {:trigger run[i], run[j]} :: 0 <= i < |acts| && j == i + 1 ==> IsNext(run[i], acts[i], run[j])
  }

  lemma StartKeeps(n: nat)
    requires 0 < n
    ensures Inv(Start(n))
  {
    AtIsRemainder(0, n);
  }

  lemma {:induction false} RunKeepsInvariant(run: seq<State>, acts: seq<Action>, n: nat, k: nat)
    requires 0 < n && IsRun(run, acts, n) && k < |run|
    ensures Inv(run[k])
  {
    if k == 0 {
      StartKeeps(n);
    } else {
      RunKeepsInvariant(run, acts, n, k - 1);
      assert IsNext(run[k - 1], acts[k - 1], run[k]);
      StepKeeps(run[k - 1], acts[k - 1]);
    }
  }

  // ----- What the protocol promises -----

  /** The content of the last send called within the first k steps. */
  function LastCall(acts: seq<Action>, k: nat): Buffer
    requires k <= |acts|
  {
    if k == 0 then Buffer(0, 0) else if acts[k - 1].CallSend? then acts[k - 1].content else LastCall(acts, k - 1)
  }

  /** A send that returns has sent what it was called with. */
  function SentBy(a: Action, t: State, content: Buffer): seq<Buffer> {
    if a.SendStep? && t.pc.Idle? then [content] else []
  }

  /** What a receive hands out: the buffer as it is then. */
  function TakenBy(s: State, a: Action): seq<Buffer> {
    if a.Receive? && s.head < |s.rcv| && s.rcv[s.head] < |s.bufs| then [s.bufs[s.rcv[s.head]]] else []
  }

  function AllSent(run: seq<State>, acts: seq<Action>, k: nat): seq<Buffer>
    requires k <= |acts| < |run|
  {
    if k == 0 then [] else AllSent(run, acts, k - 1) + SentBy(acts[k - 1], run[k], LastCall(acts, k - 1))
  }

  function AllTaken(run: seq<State>, acts: seq<Action>, k: nat): seq<Buffer>
    requires k <= |acts| < |run|
  {
    if k == 0 then [] else AllTaken(run, acts, k - 1) + TakenBy(run[k - 1], acts[k - 1])
  }

  /** A receive hands out the next message, in a buffer that was not held. */
  lemma ReceiveYields(s: State)
    requires Inv(s) && Enabled(s, Receive)
    ensures s.received < |s.msgs| && TakenBy(s, Receive) == [s.msgs[s.received]] && s.rcv[s.head] !in s.held
  {
    PolledIffLanded(s);
  }

  /** What a step sends and receives, and what the sender works on after it. */
  predicate Sent(s: State, a: Action, t: State) {
    && t.msgs == s.msgs + SentBy(a, t, s.sending) && t.received == s.received + (if a.Receive? then 1 else 0)
    && t.sending == if a.CallSend? then a.content else s.sending
  }

  lemma SenderSends(s: State)
    requires Enabled(s, SendStep)
    ensures Sent(s, SendStep, Sends(s))
  {
  }

  lemma NetworkSends(s: State, a: Action)
    requires Enabled(s, a) && (a.DataLands? || a.SlotLands?)
    ensures Sent(s, a, Apply(s, a))
  {
  }

  lemma StepSends(s: State, a: Action, t: State)
    requires IsNext(s, a, t)
    ensures Sent(s, a, t)
  {
    match a {
      case SendStep => SenderSends(s);
      case DataLands => NetworkSends(s, a);
      case SlotLands => NetworkSends(s, a);
      case _ =>
    }
  }

  /** What the sender works on is what it was last called with. */
  lemma {:induction false} SendingIsCalled(run: seq<State>, acts: seq<Action>, n: nat, k: nat)
    requires 0 < n && IsRun(run, acts, n) && k < |run|
    ensures run[k].sending == LastCall(acts, k)
  {
    if k > 0 {
      SendingIsCalled(run, acts, n, k - 1);
      assert IsNext(run[k - 1], acts[k - 1], run[k]);
      StepSends(run[k - 1], acts[k - 1], run[k]);
    }
  }

  lemma StepInRun(run: seq<State>, acts: seq<Action>, n: nat, k: nat)
    requires 0 < n && IsRun(run, acts, n) && k < |acts|
    ensures var s, t, taken := run[k], run[k + 1], TakenBy(run[k], acts[k]);
            && t.msgs == s.msgs + SentBy(acts[k], t, LastCall(acts, k))
            && t.received == s.received + |taken| && s.received <= |s.msgs|
            && (taken == [] || (s.received < |s.msgs| && taken == [s.msgs[s.received]]))
  {
    RunKeepsInvariant(run, acts, n, k);
    assert IsNext(run[k], acts[k], run[k + 1]);
    StepSends(run[k], acts[k], run[k + 1]);
    SendingIsCalled(run, acts, n, k);
    if acts[k].Receive? {
      ReceiveYields(run[k]);
    }
  }

  lemma PrefixGrows(all: seq<Buffer>, more: seq<Buffer>, n: nat, taken: seq<Buffer>)
    requires n <= |all| && (taken == [] || (n < |all| && taken == [all[n]]))
    ensures n + |taken| <= |all + more| && all[..n] + taken == (all + more)[..n + |taken|]
  {
  }

  /** The j-th receive returns the j-th message sent, whole. */
  lemma {:induction false} RunDelivers(run: seq<State>, acts: seq<Action>, n: nat, k: nat)
    requires 0 < n && IsRun(run, acts, n) && k < |run|
    ensures run[k].msgs == AllSent(run, acts, k) && run[k].received <= |run[k].msgs|
    ensures AllTaken(run, acts, k) == AllSent(run, acts, k)[..run[k].received]
  {
    if k > 0 {
      RunDelivers(run, acts, n, k - 1);
      StepInRun(run, acts, n, k - 1);
      PrefixGrows(run[k - 1].msgs, SentBy(acts[k - 1], run[k], LastCall(acts, k - 1)), run[k - 1].received,
                  TakenBy(run[k - 1], acts[k - 1]));
    }
  }

  /** No step but its own free touches a held buffer. */
  lemma HeldUntouched(s: State, a: Action, b: nat)
    requires Inv(s) && Enabled(s, a) && b in s.held && a != Free(b)
    ensures var t := Apply(s, a); b in t.held && b < |s.bufs| == |t.bufs| && t.bufs[b] == s.bufs[b]
  {
    if a.DataLands? {
      LandsElsewhere(s);
    } else {
      ReceiverTouches(s, a, b);
    }
  }

  lemma LandsElsewhere(s: State)
    requires Inv(s) && Enabled(s, DataLands)
    ensures s.data[0].buf !in s.held
  {
    assert s.data[0].buf == s.posts[s.landed];
  }

  lemma ReceiverTouches(s: State, a: Action, b: nat)
    requires Enabled(s, a) && b in s.held && b < s.n && a != Free(b) && !a.DataLands?
    ensures var t := Apply(s, a); b in t.held && |s.bufs| == |t.bufs| && t.bufs[b] == s.bufs[b]
  {
  }

  /** A held buffer that came with a message still has it. */
  lemma HeldIntact(s: State, b: nat)
    requires Inv(s) && b in s.cameWith
    ensures b in s.held && s.cameWith[b] < s.received && s.bufs[b] == s.msgs[s.cameWith[b]]
  {
  }

  /** No refresh is lost: a sender that waits finds its slot valid exactly if the buffer for its message has arrived. */
  lemma NoRefreshLost(s: State)
    requires Inv(s) && s.pc.Polling?
    ensures SlotOf(s) < s.n && (s.target[SlotOf(s)].valid <==> s.next < s.arrived)
    ensures s.next < s.arrived ==> s.target[SlotOf(s)].addr == s.posts[s.next]
    ensures s.arrived == |s.posts| && |s.held| == 0 ==> s.next < s.arrived || s.next == s.received + s.n
  {
    AtIsRemainder(s.next, s.n);
    assert s.target[At(s.next, s.n)].valid <==> s.next < s.arrived;
  }

  /**
   Why the application must not hold all buffers: once every buffer has been received and is held, the receiver polls
   a buffer that is held, and sees the length of a message received before.
   */
  lemma AllHeldIsStale(s: State)
    requires Inv(s) && |s.held| == s.n && s.n <= s.received
    ensures Polled(s) != 0
    ensures var b := s.rcv[s.head]; b in s.held && b in s.cameWith && s.bufs[b] == s.msgs[s.cameWith[b]] && s.cameWith[b] < s.received
  {
    var p := s.received - s.n;
    SameSlot(p, s.n);
    assert s.rcv[At(p, s.n)] == s.posts[p];
    HoldsAll(s.held, s.n, s.posts[p]);
    assert s.posts[p] in s.cameWith;
    assert s.msgs[s.cameWith[s.posts[p]]].len > 0;
  }

  /** n numbers below n are all of them. */
  lemma HoldsAll(held: set<nat>, n: nat, b: nat)
    requires |held| == n && b < n && forall x: nat :: x in held ==> x < n
    ensures b in held
  {
    if b !in held {
      SubsetSize(held, Below(n) - {b});
    }
  }

  lemma {:induction false} SubsetSize(a: set<nat>, b: set<nat>)
    requires a <= b
    ensures |a| <= |b|
    decreases |a|
  {
    if a != {} {
      var x: nat :| x in a;
      SubsetSize(a - {x}, b - {x});
    }
  }

  /** Receiving is right exactly while not all buffers are held, once each has been received. */
  lemma FreshIff(s: State)
    requires Inv(s) && s.n <= s.received && Polled(s) != 0
    ensures |s.held| < s.n <==> s.rcv[s.head] !in s.held
  {
    if |s.held| < s.n {
      PolledIffLanded(s);
    } else {
      AllHeldIsStale(s);
    }
  }
}
