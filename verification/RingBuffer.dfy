/**
 The double-mapped ring: the receiver's buffer and the sender's view of it.

 Both keep offsets into a buffer of `length` bytes. The models below are values, on which the protocols are built;
 the classes are the objects of the source. Positions count bytes of the stream from its beginning and are never
 reduced: an offset is a position modulo the length.
 */
module RingBuffer {
  import opened Modular

  // ----- The sender's view -----

  /** What the sender knows: its copy of the head, and the tail. */
  datatype Remote = Remote(length: nat, head: nat, tail: nat, full: bool)

  function NewRemote(length: nat): Remote { Remote(length, 0, 0, false) }

  /** Whether GetWriteAddr hands out the tail for a message of len bytes. */
  predicate Accepts(r: Remote, len: nat) {
    if r.head == r.tail then !r.full && len <= r.length
    else if r.head < r.tail then (r.length - r.tail) + r.head > len
    else r.head - r.tail > len
  }

  function Written(r: Remote, len: nat): Remote
    requires 0 < r.length
  {
    var tail := (r.tail + len) % r.length;
    r.(tail := tail, full := tail == r.head)
  }

  function HeadUpdated(r: Remote, head: nat): Remote { r.(head := head, full := false) }

  /** The sender's offsets stand for these positions of its copy of the head and the tail. */
  predicate Tracks(r: Remote, head: nat, tail: nat) {
    && 0 < r.length && head <= tail < head + r.length && !r.full
    && r.head == head % r.length && r.tail == tail % r.length
  }

  /** The offset comparisons decide exactly whether the message leaves at least one byte free. */
  lemma AcceptsIffRoom(r: Remote, head: nat, tail: nat, len: nat)
    requires Tracks(r, head, tail) && 0 < len < r.length
    ensures Accepts(r, len) <==> tail + len < head + r.length
    ensures Accepts(r, len) ==> Tracks(Written(r, len), head, tail + len)
  {
    var l := r.length;
    OffsetDistance(head, tail, l);
    AddToReduced(tail, len, l);
    if Accepts(r, len) {
      DifferentCells(head, tail + len, head, l);
    }
  }

  /** The distance between two positions less than a length apart, from their offsets. */
  lemma OffsetDistance(a: nat, b: nat, l: nat)
    requires 0 < l && a <= b < a + l
    ensures var x, y := a % l, b % l;
            (a == b <==> x == y) && b - a == if x <= y then y - x else y + l - x
  {
    var x, y := a % l, b % l;
    assert l * (b / l - a / l) == (b - a) - (y - x);
    if x <= y {
      assert 0 - l < (b - a) - (y - x) < l;
      SmallMultiple(l, b / l - a / l);
    } else {
      assert l * (b / l - a / l - 1) == (b - a) - (y + l - x);
      SmallMultiple(l, b / l - a / l - 1);
    }
  }

  /** A newer head only makes room. */
  lemma UpdateKeepsTracking(r: Remote, head: nat, tail: nat, newer: nat)
    requires Tracks(r, head, tail) && head <= newer <= tail
    ensures Tracks(HeadUpdated(r, newer % r.length), newer, tail)
  {
  }

  /** No byte handed out shares its cell with a byte between the head and the tail. */
  lemma HandedOutIsFree(r: Remote, head: nat, tail: nat, len: nat, x: nat, y: nat)
    requires Tracks(r, head, tail) && 0 < len < r.length && Accepts(r, len)
    requires tail <= x < tail + len && head <= y < tail
    ensures x % r.length != y % r.length
  {
    AcceptsIffRoom(r, head, tail, len);
    DifferentCells(x, y, head, r.length);
  }

  /**
   Why messages must be shorter than the buffer: into an empty ring goes a message of its whole length, and when the
   head is then updated before anything is freed, all of it is handed out again.
   */
  lemma WholeLengthIsLost(r: Remote, head: nat, tail: nat)
    requires Tracks(r, head, tail)
    ensures Accepts(r, r.length) <==> head == tail
    ensures head == tail ==>
              && !Accepts(Written(r, r.length), 1)
              && forall len :: 0 < len <= r.length ==> Accepts(HeadUpdated(Written(r, r.length), r.head), len)
  {
    OffsetDistance(head, tail, r.length);
    AddToReduced(tail, r.length, r.length);
    if head == tail {
      SameRemainder(tail, r.length);
    }
  }

  lemma SameRemainder(a: nat, l: nat)
    requires 0 < l
    ensures (a + l) % l == a % l
  {
    UniqueRemainder(a + l, a / l + 1, a % l, l);
  }

  class MagicRemoteBuffer {
    const length_: nat
    var head_: nat
    var tail_: nat
    var full_: bool

    ghost function Model(): Remote
      reads this
    {
      Remote(length_, head_, tail_, full_)
    }

    constructor (length: nat)
      ensures Model() == NewRemote(length)
    {
      length_ := length;
      head_, tail_, full_ := 0, 0, false;
    }

    method UpdateHead(head: nat)
      modifies this
      ensures Model() == HeadUpdated(old(Model()), head)
    {
      head_ := head;
      full_ := false;
    }

    function GetTail(): nat
      reads this
    {
      tail_
    }

    /** The offset to write to, if there is space. */
    method GetWriteAddr(len: nat) returns (ok: bool, offset: nat)
      ensures ok <==> Accepts(Model(), len)
      ensures ok ==> offset == Model().tail
    {
      offset := 0;
      if head_ == tail_ && full_ {
        return false, 0;
      } else if head_ == tail_ && len > length_ {
        return false, 0;
      } else if head_ < tail_ && (length_ - tail_) + head_ <= len {
        return false, 0;
      } else if head_ > tail_ && head_ - tail_ <= len {
        return false, 0;
      }
      return true, tail_;
    }

    method GetNextTail(len: nat) returns (ok: bool, tail: nat)
      requires 0 < length_
      ensures ok <==> Accepts(Model(), len)
      ensures ok ==> tail == Written(Model(), len).tail
      ensures forall head: nat, at: nat :: Tracks(Model(), head, at) && ok ==> tail == (at + len) % length_
    {
      forall at: nat ensures (at % length_ + len) % length_ == (at + len) % length_ {
        AddToReduced(at, len, length_);
      }
      ok, tail := GetWriteAddr(len);
      if ok {
        tail := (tail_ + len) % length_;
      }
    }

    method Write(len: nat) returns (ok: bool, offset: nat)
      requires 0 < length_
      modifies this
      ensures ok <==> Accepts(old(Model()), len)
      ensures Model() == if ok then Written(old(Model()), len) else old(Model())
      ensures ok ==> offset == old(Model()).tail
      ensures forall head: nat, tail: nat :: Tracks(old(Model()), head, tail) && 0 < len < length_ ==>
                (ok <==> tail + len < head + length_) && Tracks(Model(), head, if ok then tail + len else tail)
    {
      forall head: nat, tail: nat | Tracks(Model(), head, tail) && 0 < len < length_
        ensures Accepts(Model(), len) <==> tail + len < head + length_
        ensures Accepts(Model(), len) ==> Tracks(Written(Model(), len), head, tail + len)
      {
        AcceptsIffRoom(Model(), head, tail, len);
      }
      ok, offset := GetWriteAddr(len);
      if ok {
        tail_ := (tail_ + len) % length_;
        full_ := tail_ == head_;
      }
    }
  }

  // ----- The receiver's buffer -----

  /** Offsets of the head, of what is read next, and of the regions handed out and not freed, oldest first. */
  datatype Ring = Ring(length: nat, head: nat, readPtr: nat, outstanding: seq<nat>)

  function NewRing(length: nat): Ring { Ring(length, 0, 0, []) }

  function ReadFrom(r: Ring, len: nat): Ring
    requires 0 < r.length
  {
    r.(readPtr := (r.readPtr + len) % r.length, outstanding := r.outstanding + [r.readPtr])
  }

  /** `list.remove(x)`: all elements equal to x go. */
  function Remove(s: seq<nat>, x: nat): seq<nat> {
    if s == [] then [] else (if s[0] == x then [] else [s[0]]) + Remove(s[1..], x)
  }

  function Freed(r: Ring, start: nat): Ring
    requires r.outstanding != []
  {
    var front := r.outstanding[0];
    var head := if start != front then r.head else if |r.outstanding| == 1 then r.readPtr else r.outstanding[1];
    r.(head := head, outstanding := Remove(r.outstanding, start))
  }

  /** Positions in increasing order, from `low` on and below `high`. */
  predicate Ordered(s: seq<nat>, low: nat, high: nat) {
    if s == [] then low <= high else low <= s[0] && Ordered(s[1..], s[0] + 1, high)
  }

  function Offsets(s: seq<nat>, l: nat): (r: seq<nat>)
    requires 0 < l
    ensures |r| == |s| && forall i :: 0 <= i < |s| ==> r[i] == s[i] % l
  {
    if s == [] then [] else [s[0] % l] + Offsets(s[1..], l)
  }

  /** The position of the head: everything before it is freed, and it is the oldest region in use. */
  function HeadOf(outs: seq<nat>, read: nat): nat { if outs == [] then read else outs[0] }

  /** The receiver's offsets stand for the position `read` and the regions starting at the positions `outs`. */
  predicate Holds(r: Ring, outs: seq<nat>, read: nat) {
    && 0 < r.length && Ordered(outs, 0, read) && read < HeadOf(outs, read) + r.length
    && r.readPtr == read % r.length && r.outstanding == Offsets(outs, r.length)
    && r.head == HeadOf(outs, read) % r.length
  }

  lemma {:induction false} OrderedAppend(s: seq<nat>, low: nat, high: nat, more: nat)
    requires Ordered(s, low, high) && 0 < more
    ensures Ordered(s + [high], low, high + more)
  {
    if s != [] {
      assert (s + [high])[1..] == s[1..] + [high];
      OrderedAppend(s[1..], s[0] + 1, high, more);
    } else {
      assert (s + [high])[1..] == [];
    }
  }

  lemma {:induction false} OffsetsAppend(s: seq<nat>, x: nat, l: nat)
    requires 0 < l
    ensures Offsets(s + [x], l) == Offsets(s, l) + [x % l]
  {
  }

  // ----- Heads on their way to the sender -----

  /** The heads on their way are not older than the sender's and not newer than the true one, oldest first. */
  predicate HeadsBetween(senderHead: nat, onWay: seq<nat>, head: nat) {
    && (forall i :: 0 <= i < |onWay| ==> senderHead <= onWay[i] <= head)
    && (forall i, j :: 0 <= i < j < |onWay| ==> onWay[i] <= onWay[j])
  }

  lemma HeadsTaken(senderHead: nat, onWay: seq<nat>, head: nat)
    requires HeadsBetween(senderHead, onWay, head) && onWay != []
    ensures HeadsBetween(onWay[0], onWay[1..], head) && senderHead <= onWay[0] <= head
  {
  }

  /** The head moves on, and may be sent. */
  lemma HeadsAdded(senderHead: nat, onWay: seq<nat>, head: nat, newer: nat)
    requires HeadsBetween(senderHead, onWay, head) && senderHead <= head <= newer
    ensures HeadsBetween(senderHead, onWay, newer) && HeadsBetween(senderHead, onWay + [newer], newer)
  {
  }

  /** With send acknowledgements the sender knows only flushed heads, all of them but those on their way. */
  predicate OnlyFlushed(senderHead: nat, onWay: seq<nat>, flushed: nat) {
    && senderHead <= flushed
    && (forall i :: 0 <= i < |onWay| ==> onWay[i] <= flushed)
    && flushed == (if onWay == [] then senderHead else onWay[|onWay| - 1])
  }

  lemma FlushedTaken(senderHead: nat, onWay: seq<nat>, flushed: nat)
    requires OnlyFlushed(senderHead, onWay, flushed) && onWay != []
    ensures OnlyFlushed(onWay[0], onWay[1..], flushed)
  {
  }

  lemma FlushedAdded(senderHead: nat, onWay: seq<nat>, flushed: nat, head: nat)
    requires OnlyFlushed(senderHead, onWay, flushed) && flushed <= head
    ensures OnlyFlushed(senderHead, onWay + [head], head)
  {
  }

  // ----- Reading and freeing -----

  /** Reading a message keeps the buffer in step, as long as what is in use stays shorter than the buffer. */
  lemma ReadKeeps(r: Ring, outs: seq<nat>, read: nat, len: nat)
    requires Holds(r, outs, read) && 0 < len && read + len < HeadOf(outs, read) + r.length
    ensures Holds(ReadFrom(r, len), outs + [read], read + len)
  {
    OrderedAppend(outs, 0, read, len);
    OffsetsAppend(outs, read, r.length);
    AddToReduced(read, len, r.length);
  }

  lemma {:induction false} OrderedRange(s: seq<nat>, low: nat, high: nat, i: nat)
    requires Ordered(s, low, high) && i < |s|
    ensures low <= s[i] < high
  {
    if i > 0 {
      OrderedRange(s[1..], s[0] + 1, high, i - 1);
    } else if |s| > 1 {
      OrderedRange(s[1..], s[0] + 1, high, 0);
    }
  }

  /** Removing by offset removes the one region with that position, since all are within one length. */
  lemma {:induction false} RemoveOffset(s: seq<nat>, low: nat, high: nat, l: nat, x: nat)
    requires 0 < l && Ordered(s, low, high) && high <= low + l && low <= x < high
    ensures Remove(Offsets(s, l), x % l) == Offsets(Remove(s, x), l)
  {
    if s != [] {
      assert Offsets(s, l)[1..] == Offsets(s[1..], l);
      OrderedRange(s, low, high, 0);
      DifferentCells(s[0], x, low, l);
      if s[0] < x {
        RemoveOffset(s[1..], s[0] + 1, high, l, x);
      } else {
        RemoveBelow(s[1..], s[0] + 1, high, l, x, low);
      }
    }
  }

  lemma {:induction false} RemoveOrdered(s: seq<nat>, low: nat, high: nat, x: nat)
    requires Ordered(s, low, high)
    ensures Ordered(Remove(s, x), low, high)
  {
    if s != [] {
      var rest := Remove(s[1..], x);
      RemoveOrdered(s[1..], s[0] + 1, high, x);
      if s[0] == x {
        OrderedWeaker(rest, s[0] + 1, high, low);
        assert Remove(s, x) == rest;
      } else {
        assert ([s[0]] + rest)[1..] == rest;
      }
    }
  }

  /** Nothing is removed when the position lies below all of them. */
  lemma {:induction false} RemoveBelow(s: seq<nat>, low: nat, high: nat, l: nat, x: nat, base: nat)
    requires 0 < l && Ordered(s, low, high) && base <= x < low && high <= base + l
    ensures Remove(Offsets(s, l), x % l) == Offsets(s, l) && Remove(s, x) == s
  {
    if s != [] {
      var o := Offsets(s, l);
      assert o[1..] == Offsets(s[1..], l);
      OrderedRange(s, low, high, 0);
      DifferentCells(s[0], x, base, l);
      RemoveBelow(s[1..], s[0] + 1, high, l, x, base);
    }
  }

  lemma OrderedWeaker(s: seq<nat>, low: nat, high: nat, lower: nat)
    requires Ordered(s, low, high) && lower <= low
    ensures Ordered(s, lower, high)
  {
  }

  /** Frees in any order: the head is always the start of the oldest region in use, or what is read next. */
  lemma FreeKeeps(r: Ring, outs: seq<nat>, read: nat, x: nat)
    requires Holds(r, outs, read) && x in outs
    ensures Holds(Freed(r, x % r.length), Remove(outs, x), read)
    ensures HeadOf(outs, read) <= HeadOf(Remove(outs, x), read) <= read
  {
    var i :| 0 <= i < |outs| && outs[i] == x;
    var l, h := r.length, outs[0];
    OrderedRange(outs, 0, read, i);
    FirstIsLeast(outs, read, i);
    OrderedFrom(outs, 0, read);
    RemoveOffset(outs, h, read, l, x);
    RemoveOrdered(outs, h, read, x);
    DifferentCells(x, h, h, l);
    OrderedWeaker(Remove(outs, x), h, read, 0);
    if x == h {
      RemoveBelow(outs[1..], h + 1, read, l, x, h);
      if |outs| > 1 {
        assert Remove(outs, x) == outs[1..];
        OrderedRange(outs, 0, read, 1);
      }
    }
  }

  lemma OrderedFrom(s: seq<nat>, low: nat, high: nat)
    requires Ordered(s, low, high) && s != []
    ensures Ordered(s, s[0], high)
  {
  }

  lemma FirstIsLeast(s: seq<nat>, high: nat, i: nat)
    requires i < |s| && Ordered(s, 0, high)
    ensures s[0] <= s[i]
  {
    OrderedFrom(s, 0, high);
    OrderedRange(s, s[0], high, i);
  }

  lemma RemoveNext(list: seq<nat>, i: nat, x: nat, rest: seq<nat>)
    requires i < |list|
    ensures rest + Remove(list[i..], x) == (if list[i] == x then rest else rest + [list[i]]) + Remove(list[i + 1..], x)
  {
    assert list[i..][1..] == list[i + 1..];
    var more := Remove(list[i + 1..], x);
    assert rest + ([list[i]] + more) == (rest + [list[i]]) + more;
    assert [] + more == more;
  }

  method RemoveAll(list: seq<nat>, x: nat) returns (rest: seq<nat>)
    ensures rest == Remove(list, x)
  {
    rest := [];
    var i := 0;
    assert list[0..] == list;
    while i < |list|
      invariant 0 <= i <= |list|
      invariant Remove(list, x) == rest + Remove(list[i..], x)
    {
      RemoveNext(list, i, x, rest);
      if list[i] != x {
        rest := rest + [list[i]];
      }
      i := i + 1;
    }
    assert list[i..] == [];
  }

  class MagicRingBuffer {
    const length_: nat
    var head_: nat
    var read_ptr_: nat
    var outstanding_: seq<nat>
    /** History: the positions of the regions in use, and of what is read next. */
    ghost var outs: seq<nat>
    ghost var read: nat

    ghost function Model(): Ring
      reads this
    {
      Ring(length_, head_, read_ptr_, outstanding_)
    }

    ghost predicate Valid()
      reads this
    {
      Holds(Model(), outs, read)
    }

    constructor (length: nat)
      requires 0 < length
      ensures Valid() && Model() == NewRing(length) && outs == [] && read == 0
    {
      length_ := length;
      head_, read_ptr_, outstanding_ := 0, 0, [];
      outs, read := [], 0;
    }

    /** Offsets stand for addresses in the double mapping. */
    method Read(len: nat) returns (offset: nat)
      requires Valid() && 0 < len && read + len < HeadOf(outs, read) + length_
      modifies this
      ensures Valid() && Model() == ReadFrom(old(Model()), len)
      ensures offset == old(read) % length_ && outs == old(outs) + [old(read)] && read == old(read) + len
    {
      ReadKeeps(Model(), outs, read, len);
      offset := read_ptr_;
      read_ptr_ := (read_ptr_ + len) % length_;
      outstanding_ := outstanding_ + [offset];
      outs, read := outs + [read], read + len;
    }

    /** Frees the region at position x, which the caller names by its offset. */
    method Free(region_start: nat, ghost x: nat) returns (head: nat)
      requires Valid() && x in outs && region_start == x % length_
      modifies this
      ensures Valid() && Model() == Freed(old(Model()), region_start)
      ensures outs == Remove(old(outs), x) && read == old(read) && head == HeadOf(outs, read) % length_
    {
      FreeKeeps(Model(), outs, read, x);
      var front := outstanding_[0];
      if region_start == front {
        head_ := if |outstanding_| == 1 then read_ptr_ else outstanding_[1];
      }
      outstanding_ := RemoveAll(outstanding_, region_start);
      outs := Remove(outs, x);
      head := head_;
    }
  }
}
