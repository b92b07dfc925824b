/** The two ends of the write-offset protocol as the objects they are, over the ring objects. */
module WriteOffset {
  import opened Bytes
  import opened RingBuffer
  import BufferedWrite

  // ----- The sender -----

  /** A remote write: of a message to an offset of the ring, or of the tail. */
  datatype Request = Message(off: nat, bytes: seq<Byte>) | NewTail(value: nat)

  /** The sender's view after it took heads, oldest first, until there was room. */
  function AfterHeads(r: Remote, heads: seq<nat>, len: nat): (t: Remote)
    ensures t.length == r.length && t.tail == r.tail
    decreases |heads|
  {
    if Accepts(r, len) || heads == [] then r else AfterHeads(HeadUpdated(r, heads[0]), heads[1..], len)
  }

  /** How many heads it took. */
  function Taken(r: Remote, heads: seq<nat>, len: nat): (n: nat)
    ensures n <= |heads|
    decreases |heads|
  {
    if Accepts(r, len) || heads == [] then 0 else 1 + Taken(HeadUpdated(r, heads[0]), heads[1..], len)
  }

  /** A message as it goes out, and the view and the heads that are left after it. */
  function AfterMessage(r: Remote, heads: seq<nat>, wire: seq<Byte>): (Remote, seq<nat>)
    requires 0 < r.length
  {
    (Written(AfterHeads(r, heads, |wire|), |wire|), heads[Taken(r, heads, |wire|)..])
  }

  /** The messages of a batch one after the other: where each goes, and what is left. */
  function Messages(r: Remote, wires: seq<seq<Byte>>): seq<Request>
    decreases |wires|
  {
    if wires == [] || r.length == 0 then []
    else [Message(r.tail, wires[0])] + Messages(Written(r, |wires[0]|), wires[1..])
  }

  function FinalTail(r: Remote, wires: seq<seq<Byte>>): nat
    decreases |wires|
  {
    if wires == [] || r.length == 0 then r.tail else FinalTail(Written(r, |wires[0]|), wires[1..])
  }

  /** Where messages go does not depend on the heads seen in between. */
  lemma {:induction false} TailOnly(r: Remote, q: Remote, wires: seq<seq<Byte>>)
    requires q.length == r.length && q.tail == r.tail
    ensures Messages(q, wires) == Messages(r, wires) && FinalTail(q, wires) == FinalTail(r, wires)
    decreases |wires|
  {
    if wires != [] && r.length != 0 {
      TailOnly(Written(r, |wires[0]|), Written(q, |wires[0]|), wires[1..]);
    }
  }

  /** What single sends post: each message followed by its tail. */
  function Singles(r: Remote, wires: seq<seq<Byte>>): seq<Request>
    decreases |wires|
  {
    if wires == [] || r.length == 0 then []
    else
      var next := Written(r, |wires[0]|);
      [Message(r.tail, wires[0]), NewTail(next.tail)] + Singles(next, wires[1..])
  }

  function OnlyMessages(ops: seq<Request>): seq<Request> {
    if ops == [] then [] else (if ops[0].Message? then [ops[0]] else []) + OnlyMessages(ops[1..])
  }

  /** A batch writes the same messages to the same places as single sends, and its one tail is their last. */
  lemma {:induction false} BatchIsSingles(r: Remote, wires: seq<seq<Byte>>)
    requires wires != [] && 0 < r.length
    ensures OnlyMessages(Singles(r, wires)) == Messages(r, wires)
    ensures Singles(r, wires) != [] && Singles(r, wires)[|Singles(r, wires)| - 1] == NewTail(FinalTail(r, wires))
    decreases |wires|
  {
    var next := Written(r, |wires[0]|);
    var rest := Singles(next, wires[1..]);
    var two := [Message(r.tail, wires[0]), NewTail(next.tail)];
    assert (two + rest)[1..] == [NewTail(next.tail)] + rest;
    assert ([NewTail(next.tail)] + rest)[1..] == rest;
    assert OnlyMessages(two + rest) == [Message(r.tail, wires[0])] + OnlyMessages(rest);
    if |wires| > 1 {
      BatchIsSingles(next, wires[1..]);
    } else {
      assert rest == [];
    }
  }

  /** Whether the acknowledger delivers heads that make room for each message of a batch in turn. */
  ghost predicate Sendable(r: Remote, hs: seq<nat>, wires: seq<seq<Byte>>)
    decreases |wires|
  {
    wires == [] || (
      && 0 < r.length
      && Accepts(AfterHeads(r, hs, |wires[0]|), |wires[0]|)
      && Sendable(AfterMessage(r, hs, wires[0]).0, AfterMessage(r, hs, wires[0]).1, wires[1..]))
  }

  class WriteOffsetSender {
    const rbuf: MagicRemoteBuffer
    var next_id_: nat
    /** The heads the acknowledger will deliver, in order. */
    var heads: seq<nat>

    constructor (r: MagicRemoteBuffer, acks: seq<nat>)
      ensures rbuf == r && heads == acks && next_id_ == 1
    {
      rbuf, heads, next_id_ := r, acks, 1;
    }

    /** get_write_addr_or_die: asks for heads until there is room, and so needs one that makes room. */
    method GetWriteAddr(len: nat) returns (offset: nat)
      requires Accepts(AfterHeads(rbuf.Model(), heads, len), len)
      modifies this`heads, rbuf
      ensures rbuf.Model() == old(AfterHeads(rbuf.Model(), heads, len)) && Accepts(rbuf.Model(), len)
      ensures heads == old(heads[Taken(rbuf.Model(), heads, len)..]) && offset == rbuf.Model().tail
    {
      ghost var goal, left := AfterHeads(rbuf.Model(), heads, len), heads[Taken(rbuf.Model(), heads, len)..];
      var ok: bool;
      ok, offset := rbuf.GetWriteAddr(len);
      while !ok
        invariant ok <==> Accepts(rbuf.Model(), len)
        invariant ok ==> offset == rbuf.Model().tail
        invariant AfterHeads(rbuf.Model(), heads, len) == goal && heads[Taken(rbuf.Model(), heads, len)..] == left
        decreases |heads|
      {
        assert heads != [];
        rbuf.UpdateHead(heads[0]);
        heads := heads[1..];
        ok, offset := rbuf.GetWriteAddr(len);
      }
    }

    /** One message, and the tail after it. */
    method SendAsync(wire: seq<Byte>) returns (id: nat, ops: seq<Request>)
      requires 0 < rbuf.length_ && Accepts(AfterHeads(rbuf.Model(), heads, |wire|), |wire|)
      modifies this, rbuf
      ensures id == old(next_id_) && ops == Singles(old(rbuf.Model()), [wire])
      ensures (rbuf.Model(), heads) == old(AfterMessage(rbuf.Model(), heads, wire))
    {
      id := next_id_;
      next_id_ := next_id_ + 1;
      ghost var before := rbuf.Model();
      var addr := GetWriteAddr(|wire|);
      var ok, tail := rbuf.GetNextTail(|wire|);
      ops := [Message(addr, wire), NewTail(tail)];
      assert Singles(before, [wire]) == [Message(before.tail, wire), NewTail(Written(before, |wire|).tail)] + [];
      ok, addr := rbuf.Write(|wire|);
    }

    /** All messages of a batch, and one tail at the end. */
    method SendBatch(wires: seq<seq<Byte>>) returns (id: nat, ops: seq<Request>)
      requires 0 < rbuf.length_ && Sendable(rbuf.Model(), heads, wires)
      modifies this, rbuf
      ensures id == old(next_id_)
      ensures ops == Messages(old(rbuf.Model()), wires) + [NewTail(FinalTail(old(rbuf.Model()), wires))]
      ensures rbuf.Model().tail == FinalTail(old(rbuf.Model()), wires)
    {
      id := next_id_;
      next_id_ := next_id_ + 1;
      ops := [];
      ghost var before := rbuf.Model();
      var i := 0;
      while i < |wires|
        invariant 0 <= i <= |wires| && rbuf.length_ == before.length
        invariant Sendable(rbuf.Model(), heads, wires[i..])
        invariant Messages(before, wires) == ops + Messages(rbuf.Model(), wires[i..])
        invariant FinalTail(before, wires) == FinalTail(rbuf.Model(), wires[i..])
      {
        ghost var r, hs := rbuf.Model(), heads;
        assert wires[i..][0] == wires[i] && wires[i..][1..] == wires[i + 1..];
        var len := |wires[i]|;
        var addr := GetWriteAddr(len);
        TailOnly(r, rbuf.Model(), wires[i..]);
        var ok, off := rbuf.Write(len);
        ops := ops + [Message(addr, wires[i])];
        i := i + 1;
      }
      ops := ops + [NewTail(rbuf.GetTail())];
    }
  }

  // ----- The receiver -----

  datatype Region = Region(off: nat, len: int)

  /** A message with its prefix at an offset: the prefix tells its length, and the payload follows. */
  lemma MessageThere(mem: seq<Byte>, off: nat, payload: seq<Byte>)
    requires mem != [] && 4 + |payload| < WORD32 && Cells(mem, off, 4 + |payload|) == BufferedWrite.Wire(false, payload)
    ensures Decode(Cells(mem, off, 4)) == 4 + |payload| && Cells(mem, off + 4, |payload|) == payload
  {
    var all := Cells(mem, off, 4 + |payload|);
    assert Cells(mem, off, 4) == all[..4] == Encode(4 + |payload|);
    DecodeEncode(4 + |payload|);
    forall k | 0 <= k < |payload| ensures Cells(mem, off + 4, |payload|)[k] == payload[k] {
      assert all[4 + k] == payload[k];
    }
  }

  /** Whatever message lies at the offset with its prefix, the region is its payload. */
  ghost predicate ShowsPayload(mem: seq<Byte>, off: nat, reg: Region)
    requires mem != []
  {
    forall payload: seq<Byte> ::
      4 + |payload| < WORD32 && Cells(mem, off, 4 + |payload|) == BufferedWrite.Wire(false, payload) ==>
        reg.len == |payload| && Cells(mem, reg.off, |payload|) == payload
  }

  lemma PayloadShown(mem: seq<Byte>, off: nat, reg: Region)
    requires mem != [] && reg == Region(off + 4, Decode(Cells(mem, off, 4)) - 4)
    ensures ShowsPayload(mem, off, reg)
  {
    forall payload: seq<Byte> | 4 + |payload| < WORD32 && Cells(mem, off, 4 + |payload|) == BufferedWrite.Wire(false, payload)
      ensures reg.len == |payload| && Cells(mem, reg.off, |payload|) == payload
    {
      MessageThere(mem, off, payload);
    }
  }

  lemma HeadAfterRead(outs: seq<nat>, read: nat, len: nat)
    ensures HeadOf(outs + [read], read + len) == HeadOf(outs, read)
  {
  }

  class WriteOffsetReceiver {
    const rbuf: MagicRingBuffer
    /** The ring's memory and the tail, which the network writes. */
    const mem: array<Byte>
    var tail_: nat
    var acked_: nat
    const length_: nat
    const max_unacked_: nat
    /** The heads that were flushed. History: the position of the last one. */
    var flushes: seq<nat>
    ghost var flushed: nat

    /** The ring is in step, and `acked_` is the offset of the head of some time before. */
    ghost predicate Valid()
      reads this, rbuf
    {
      && rbuf.Valid() && rbuf.length_ == length_ == mem.Length && max_unacked_ == length_ / 2
      && acked_ == flushed % length_ && flushed <= HeadOf(rbuf.outs, rbuf.read)
    }

    constructor (ring: MagicRingBuffer, memory: array<Byte>)
      requires ring.Valid() && ring.outs == [] && ring.read == 0 && memory.Length == ring.length_
      ensures Valid() && rbuf == ring && mem == memory && flushes == [] && flushed == 0
    {
      rbuf, mem := ring, memory;
      tail_, acked_, flushes, flushed := 0, 0, [], 0;
      length_, max_unacked_ := ring.length_, ring.length_ / 2;
    }

    /** The length at the read offset. */
    function NextLength(): nat
      reads this, rbuf, mem
      requires mem.Length > 0
    {
      Decode(Cells(mem[..], rbuf.read_ptr_, 4))
    }

    /**
     Once the tail differs from the read offset, takes the message whose length, len, stands there: whatever message
     lies there with its prefix, the region is its payload, and what is read next is behind it.
     */
    method Receive(ghost len: nat) returns (reg: Region)
      requires Valid() && mem.Length > 0 && tail_ != rbuf.read_ptr_
      requires len == NextLength() && 0 < len && rbuf.read + len < HeadOf(rbuf.outs, rbuf.read) + length_
      modifies rbuf
      ensures Valid() && rbuf.Model() == ReadFrom(old(rbuf.Model()), len)
      ensures reg == Region(old(rbuf.read_ptr_) + 4, len - 4)
      ensures ShowsPayload(mem[..], old(rbuf.read_ptr_), reg)
      ensures rbuf.outs == old(rbuf.outs) + [old(rbuf.read)] && rbuf.read == old(rbuf.read) + len
    {
      var length := NextLength();
      reg := RegionAt(rbuf.read_ptr_, length);
      Take(length);
    }

    /** The payload of the message that stands at an offset with this length. */
    method RegionAt(off: nat, length: nat) returns (reg: Region)
      requires mem.Length > 0 && length == Decode(Cells(mem[..], off, 4))
      ensures reg == Region(off + 4, length - 4) && ShowsPayload(mem[..], off, reg)
    {
      reg := Region(off + 4, length as int - 4);
      PayloadShown(mem[..], off, reg);
    }

    method Take(length: nat)
      requires Valid() && 0 < length && rbuf.read + length < HeadOf(rbuf.outs, rbuf.read) + length_
      modifies rbuf
      ensures Valid() && rbuf.Model() == ReadFrom(old(rbuf.Model()), length)
      ensures rbuf.outs == old(rbuf.outs) + [old(rbuf.read)] && rbuf.read == old(rbuf.read) + length
    {
      HeadAfterRead(rbuf.outs, rbuf.read, length);
      var off := rbuf.Read(length);
    }

    /**
     Frees the region at position x; afterwards the last flushed head trails the head by at most half the buffer,
     exactly if it trailed it by less than a length, or by more than half a length above a multiple of it.
     */
    method Free(reg: Region, ghost x: nat)
      requires Valid() && x in rbuf.outs && reg.off == x % length_ + 4
      modifies this, rbuf
      ensures Valid() && rbuf.Model() == old(Freed(rbuf.Model(), reg.off - 4))
      ensures rbuf.outs == Remove(old(rbuf.outs), x) && rbuf.read == old(rbuf.read)
      ensures var head, before := HeadOf(rbuf.outs, rbuf.read), old(flushed);
              head - flushed <= length_ / 2 <==> head - before < length_ || (head - before) % length_ > length_ / 2
      ensures if (HeadOf(rbuf.outs, rbuf.read) - old(flushed)) % length_ > length_ / 2
              then flushes == old(flushes) + [rbuf.head_] && flushed == HeadOf(rbuf.outs, rbuf.read)
              else flushes == old(flushes) && flushed == old(flushed)
    {
      FreeKeeps(rbuf.Model(), rbuf.outs, rbuf.read, x);
      var head := rbuf.Free(reg.off - 4, x);
      BufferedWrite.ExceedsByOffset(flushed, HeadOf(rbuf.outs, rbuf.read), length_);
      BufferedWrite.LagBelowLength(HeadOf(rbuf.outs, rbuf.read) - flushed, length_);
      if (head > acked_ && head - acked_ > max_unacked_)
         || (head < acked_ && head + (length_ - acked_) > max_unacked_) {
        flushes := flushes + [head];
        acked_ := head;
        flushed := HeadOf(rbuf.outs, rbuf.read);
      }
    }
  }
}
