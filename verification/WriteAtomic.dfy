/** The two classes of the shared-write connection, as code over their fields. */
module WriteAtomic {
  import opened SharedWrite

  /** The receiving end: owns the ring's head and the map of freed regions. */
  class WriteAtomicInstance {
    const bufSize: nat
    const useDm: bool
    var head: nat
    var dmHead: nat
    var ackedHead: nat
    var freedRegions: map<nat, nat>

    ghost predicate Valid()
      reads this
    {
      0 < bufSize && ackedHead == ACKED_HEAD
    }

    ghost function Model(): Instance
      reads this
    {
      Instance(head, freedRegions, if useDm then dmHead else head)
    }

    constructor (bufSize: nat, useDm: bool)
      requires 0 < bufSize
      ensures Valid() && this.bufSize == bufSize && this.useDm == useDm
      ensures Model() == Instance(0, map[], 0)
    {
      this.bufSize, this.useDm := bufSize, useDm;
      head, dmHead, ackedHead, freedRegions := 0, 0, 0, map[];
    }

    /**
     Turns a completion with ring offset `imm` into a region with its stream offset: whatever offset was reserved,
     as long as the head is at most there and less than a ring behind.
     */
    method Receive(imm: nat, byteLen: nat) returns (reg: Region)
      requires Valid()
      ensures reg == Region(GlobalOffset(head, bufSize, imm), imm, byteLen)
      ensures forall start: nat :: head <= start < head + bufSize && imm == start % bufSize ==> reg.context == start
    {
      forall start: nat | head <= start < head + bufSize && imm == start % bufSize
        ensures GlobalOffset(head, bufSize, imm) == start
      {
        GlobalOffsetExact(head, bufSize, start);
      }
      var localHead := head % bufSize;
      var globalOff;
      if localHead <= imm {
        globalOff := head / bufSize * bufSize + imm;
      } else {
        globalOff := (head / bufSize + 1) * bufSize + imm;
      }
      reg := Region(globalOff, imm, byteLen);
    }

    method Free(reg: Region)
      requires Valid()
      modifies this
      ensures Valid() && Model() == FreeRegion(old(Model()), useDm, reg.context, reg.len)
    {
      var globalStart := reg.context;
      var globalEnd: nat := globalStart + reg.len;
      while globalEnd in freedRegions
        invariant Merge(freedRegions, globalEnd) == Merge(old(freedRegions), globalStart + reg.len)
        invariant head == old(head) && dmHead == old(dmHead) && ackedHead == old(ackedHead)
        decreases |freedRegions|
      {
        var tmp := freedRegions[globalEnd];
        freedRegions := freedRegions - {globalEnd};
        globalEnd := tmp;
      }
      if globalStart == head {
        head := globalEnd;
        if useDm && ackedHead + DM_UPDATE_DISTANCE < head {
          dmHead := head;
        }
      } else {
        freedRegions := freedRegions[globalStart := globalEnd];
      }
    }
  }

  datatype SendResult = TooLarge | StillWaiting | WriteTo(off: nat)

  /** The first head, cached or read, from which `need` fits into the ring. */
  function FirstOpening(cached: nat, heads: seq<nat>, size: nat, need: nat): (r: (nat, bool))
    ensures r.1 ==> r.0 + size > need && (r.0 == cached || r.0 in heads)
    ensures !r.1 ==> cached + size <= need && forall k :: 0 <= k < |heads| ==> heads[k] + size <= need
    decreases |heads|
  {
    if cached + size > need then (cached, true)
    else if heads == [] then (cached, false)
    else FirstOpening(heads[0], heads[1..], size, need)
  }

  /** The sending end: caches the remote head and the tail it reserved. */
  class WriteAtomicConnection {
    const rbufSize: nat
    var cachedHead: nat
    var cachedTail: nat

    constructor (rbufSize: nat)
      requires 0 < rbufSize
      ensures this.rbufSize == rbufSize && cachedHead == 0 && cachedTail == 0
    {
      this.rbufSize := rbufSize;
      cachedHead, cachedTail := 0, 0;
    }

    /** `fetched` is what the fetch-and-add returns, `heads` what successive reads of the remote head return. */
    method SendAsync(len: nat, fetched: nat, heads: seq<nat>) returns (r: SendResult)
      requires 0 < rbufSize
      modifies this
      ensures r.TooLarge? <==> len >= rbufSize
      ensures r.TooLarge? ==> cachedHead == old(cachedHead) && cachedTail == old(cachedTail)
      ensures !r.TooLarge? ==>
                && cachedTail == fetched
                && (cachedHead, r.WriteTo?) == FirstOpening(old(cachedHead), heads, rbufSize, fetched + len)
      ensures r.WriteTo? ==> r.off == fetched % rbufSize
    {
      if len >= rbufSize {
        return TooLarge;
      }
      cachedTail := fetched;
      var i := 0;
      while cachedHead + rbufSize <= cachedTail + len
        invariant i <= |heads| && cachedTail == fetched
        invariant FirstOpening(cachedHead, heads[i..], rbufSize, fetched + len)
               == FirstOpening(old(cachedHead), heads, rbufSize, fetched + len)
        decreases |heads| - i
      {
        if i == |heads| {
          return StillWaiting;
        }
        cachedHead := heads[i];
        i := i + 1;
      }
      return WriteTo(cachedTail % rbufSize);
    }
  }
}
