/**
 The reversed ring: offsets go down from the end of the buffer.

 Positions count bytes of the stream from its beginning. The byte at position p is kept in the cell that lies p + 1
 cells below the end, modulo the length. Offsets run from 1 to the length, and are 0 only as long as nothing was
 written or read.
 */
module ReverseRing {
  import opened Modular
  import RingBuffer

  /** The cell of position p. */
  function Cell(p: nat, l: nat): nat
    requires 0 < l
  {
    l - 1 - p % l
  }

  /** The offset that stands for position p: the cell of p - 1, that is, one above the cell of p. */
  function Offset(p: nat, l: nat): nat
    requires 0 < l
  {
    if p == 0 then 0 else l - p % l
  }

  /** `(offset > len) ? offset - len : offset + length - len` */
  function Down(offset: nat, len: nat, l: nat): int { if offset > len then offset - len else offset + l - len }

  lemma DownIsOffset(p: nat, len: nat, l: nat)
    requires 0 < len < l
    ensures Down(Offset(p, l), len, l) == Offset(p + len, l)
  {
    WrapOnce(p, len, l);
    if p == 0 {
      UniqueRemainder(0, 0, 0, l);
    }
  }

  lemma WrapOnce(p: nat, len: nat, l: nat)
    requires len < l
    ensures (p + len) % l == if p % l + len < l then p % l + len else p % l + len - l
  {
    AddToReduced(p, len, l);
    if p % l + len < l {
      UniqueRemainder(p % l + len, 0, p % l + len, l);
    } else {
      UniqueRemainder(p % l + len, 1, p % l + len - l, l);
    }
  }

  /** Going up from an offset one meets the cells of the positions below it, latest first. */
  lemma CellsUpwards(q: nat, k: nat, l: nat)
    requires 0 < l && k < q
    ensures (Offset(q, l) + k) % l == Cell(q - 1 - k, l)
  {
    var r := q - 1 - k;
    UpwardsQuotient(l, q / l, r / l, q, r, q % l, r % l);
    UniqueRemainder(l - q % l + k, q / l - r / l, l - 1 - r % l, l);
  }

  lemma UpwardsQuotient(l: nat, a: nat, b: nat, q: nat, r: nat, x: nat, y: nat)
    requires 0 < l && q == l * a + x && r == l * b + y && x < l && y < l && r < q
    ensures b <= a && l - x + (q - 1 - r) == l * (a - b) + (l - 1 - y)
  {
    assert b > a ==> l * b >= l * (a + 1) == l * a + l;
    assert l * (a - b) == l * a - l * b;
  }

  /** Within one length different positions have different cells. */
  lemma DifferentReverseCells(a: nat, b: nat, low: nat, l: nat)
    requires 0 < l && low <= a < low + l && low <= b < low + l
    ensures a != b <==> Cell(a, l) != Cell(b, l)
  {
    DifferentCells(a, b, low, l);
  }

  // ----- The sender's view -----

  type Remote = RingBuffer.Remote

  /** Whether GetNextTail has room for len bytes. */
  predicate Accepts(r: Remote, len: nat) {
    if r.head == r.tail then !r.full && len <= r.length
    else if r.head > r.tail then (r.length - r.head) + r.tail > len
    else r.tail - r.head > len
  }

  function Written(r: Remote, len: nat): Remote
    requires len <= r.tail + r.length
  {
    var tail := Down(r.tail, len, r.length);
    r.(tail := tail, full := tail == r.head)
  }

  predicate Tracks(r: Remote, head: nat, tail: nat) {
    && 0 < r.length && head <= tail < head + r.length && !r.full
    && r.head == Offset(head, r.length) && r.tail == Offset(tail, r.length)
  }

  /** The descending offsets decide exactly whether the message leaves at least one byte free. */
  lemma AcceptsIffRoom(r: Remote, head: nat, tail: nat, len: nat)
    requires Tracks(r, head, tail) && 0 < len < r.length
    ensures Accepts(r, len) <==> tail + len < head + r.length
    ensures Accepts(r, len) ==> Tracks(Written(r, len), head, tail + len)
  {
    var l := r.length;
    RingBuffer.OffsetDistance(head, tail, l);
    DownIsOffset(tail, len, l);
    if head == 0 {
      UniqueRemainder(tail, 0, tail, l);
    }
    if Accepts(r, len) {
      DifferentCells(head, tail + len, head, l);
      if head == 0 {
        UniqueRemainder(tail + len, 0, tail + len, l);
      }
    }
  }

  class ReverseRemoteBuffer {
    const length_: nat
    var head_: nat
    var tail_: nat
    var full_: bool

    ghost function Model(): Remote
      reads this
    {
      RingBuffer.Remote(length_, head_, tail_, full_)
    }

    constructor (length: nat)
      ensures Model() == RingBuffer.NewRemote(length)
    {
      length_ := length;
      head_, tail_, full_ := 0, 0, false;
    }

    method UpdateHead(head: nat)
      modifies this
      ensures Model() == RingBuffer.HeadUpdated(old(Model()), head)
    {
      head_ := head;
      full_ := false;
    }

    /** The offset len bytes below the tail, if there is space. */
    method GetNextTail(len: nat) returns (ok: bool, offset: int)
      ensures ok <==> Accepts(Model(), len)
      ensures ok ==> offset == Down(Model().tail, len, Model().length)
    {
      offset := 0;
      if head_ == tail_ && full_ {
        return false, 0;
      } else if head_ == tail_ && len > length_ {
        return false, 0;
      } else if head_ > tail_ && (length_ - head_) + tail_ <= len {
        return false, 0;
      } else if head_ < tail_ && tail_ - head_ <= len {
        return false, 0;
      }
      return true, if tail_ > len then tail_ - len else tail_ + length_ - len;
    }

    method Write(len: nat) returns (ok: bool, offset: int)
      requires len <= tail_ + length_
      modifies this
      ensures ok <==> Accepts(old(Model()), len)
      ensures Model() == if ok then Written(old(Model()), len) else old(Model())
      ensures ok ==> offset == Down(old(Model()).tail, len, old(Model()).length)
      ensures forall head: nat, tail: nat :: Tracks(old(Model()), head, tail) && 0 < len < length_ ==>
                (ok <==> tail + len < head + length_) && Tracks(Model(), head, if ok then tail + len else tail)
    {
      forall head: nat, tail: nat | Tracks(Model(), head, tail) && 0 < len < length_
        ensures Accepts(Model(), len) <==> tail + len < head + length_
        ensures Accepts(Model(), len) ==> Tracks(Written(Model(), len), head, tail + len)
      {
        AcceptsIffRoom(Model(), head, tail, len);
      }
      ok, offset := GetNextTail(len);
      if ok {
        tail_ := offset;
        full_ := tail_ == head_;
      }
    }
  }

  // ----- The receiver's buffer -----

  /** `outstanding` keeps the offsets of the low ends of the regions in use, oldest first. */
  datatype Ring = Ring(length: nat, head: nat, readPtr: nat, outstanding: seq<nat>)

  function NewRing(length: nat): Ring { Ring(length, 0, 0, []) }

  /** `(read_ptr > 0) ? read_ptr - 1 : length - 1` */
  function ReadOff(r: Ring): int { if r.readPtr > 0 then r.readPtr - 1 else r.length - 1 }

  function ReadFrom(r: Ring, len: nat): Ring
    requires len <= r.readPtr + r.length
  {
    var at := Down(r.readPtr, len, r.length);
    r.(readPtr := at, outstanding := r.outstanding + [at])
  }

  function Freed(r: Ring, start: nat): Ring
    requires r.outstanding != []
  {
    var front := r.outstanding[0];
    var head := if start != front then r.head else if |r.outstanding| == 1 then r.readPtr else r.outstanding[1];
    r.(head := head, outstanding := RingBuffer.Remove(r.outstanding, start))
  }

  lemma ReadOffIsCell(r: Ring, p: nat)
    requires 0 < r.length && r.readPtr == Offset(p, r.length)
    ensures ReadOff(r) == Cell(p, r.length)
  {
    if p == 0 {
      UniqueRemainder(0, 0, 0, r.length);
    }
  }

  class ReverseRingBuffer {
    const length_: nat
    var head_: nat
    var read_ptr_: nat
    var outstanding_: seq<nat>

    ghost function Model(): Ring
      reads this
    {
      Ring(length_, head_, read_ptr_, outstanding_)
    }

    constructor (length: nat)
      ensures Model() == NewRing(length)
    {
      length_ := length;
      head_, read_ptr_, outstanding_ := 0, 0, [];
    }

    method Read(len: nat) returns (offset: nat)
      requires len <= read_ptr_ + length_
      modifies this
      ensures Model() == ReadFrom(old(Model()), len) && offset == Model().readPtr
    {
      read_ptr_ := if read_ptr_ > len then read_ptr_ - len else length_ + read_ptr_ - len;
      offset := read_ptr_;
      outstanding_ := outstanding_ + [offset];
    }

    method Free(region_start: nat) returns (head: nat)
      requires outstanding_ != []
      modifies this
      ensures Model() == Freed(old(Model()), region_start) && head == Model().head
      ensures old(outstanding_) == [region_start] ==> head == read_ptr_ && outstanding_ == []
    {
      assert [region_start][1..] == [];
      var front := outstanding_[0];
      if region_start == front {
        head_ := if |outstanding_| == 1 then read_ptr_ else outstanding_[1];
      }
      outstanding_ := RingBuffer.RemoveAll(outstanding_, region_start);
      head := head_;
    }
  }

  // ----- More than one region in use -----

  /** A region of the stream. */
  datatype Span = Span(start: nat, end: nat)

  /** Regions one after the other up to what is read next, within one length, and their offsets in the ring. */
  predicate InUse(r: Ring, spans: seq<Span>, read: nat) {
    && 0 < r.length && spans != [] && |r.outstanding| == |spans| && r.readPtr == Offset(read, r.length)
    && (forall i :: 0 <= i < |spans| ==> spans[i].start < spans[i].end <= read && r.outstanding[i] == Offset(spans[i].end, r.length))
    && (forall i, j :: 0 <= i < j < |spans| ==> spans[i].end <= spans[j].start)
    && read < spans[0].start + r.length && r.head == Offset(spans[0].start, r.length)
  }

  /** The head is the offset of a position that no region in use lies before. */
  predicate HeadSafe(r: Ring, spans: seq<Span>, low: nat, head: nat) {
    && 0 < r.length && low <= head && r.head == Offset(head, r.length) && forall i :: 0 <= i < |spans| ==> head <= spans[i].start
  }

  /** Freeing the oldest region leaves the head safe exactly if it was the only one. */
  lemma FreeOldestSafeIff(r: Ring, spans: seq<Span>, read: nat)
    requires InUse(r, spans, read)
    ensures |spans| == 1 <==> exists head: nat :: head <= read && HeadSafe(Freed(r, r.outstanding[0]), spans[1..], spans[0].start, head)
  {
    var t := Freed(r, r.outstanding[0]);
    if |spans| == 1 {
      assert HeadSafe(t, spans[1..], spans[0].start, read);
    } else {
      var second := spans[1];
      forall head: nat | head <= read && HeadSafe(t, spans[1..], spans[0].start, head) ensures false {
        assert spans[1..][0] == second;
        SameOffset(head, second.end, spans[0].start, r.length);
      }
    }
  }

  lemma SameOffset(a: nat, b: nat, low: nat, l: nat)
    requires 0 < l && low <= a < low + l && low <= b < low + l && Offset(a, l) == Offset(b, l)
    ensures a == b
  {
    DifferentCells(a, b, low, l);
  }

  lemma {:induction false} RemoveAt(s: seq<nat>, i: nat)
    requires i < |s| && forall j :: 0 <= j < |s| && j != i ==> s[j] != s[i]
    ensures RingBuffer.Remove(s, s[i]) == s[..i] + s[i + 1..]
  {
    if i == 0 {
      RemoveNone(s[1..], s[0]);
    } else {
      RemoveAt(s[1..], i - 1);
      assert s[..i] == [s[0]] + s[1..][..i - 1];
    }
  }

  lemma {:induction false} RemoveNone(s: seq<nat>, x: nat)
    requires x !in s
    ensures RingBuffer.Remove(s, x) == s
  {
    if s != [] {
      RemoveNone(s[1..], x);
    }
  }

  lemma OffsetsDiffer(r: Ring, spans: seq<Span>, read: nat, i: nat, j: nat)
    requires InUse(r, spans, read) && i < |spans| && j < |spans| && i != j
    ensures r.outstanding[i] != r.outstanding[j]
  {
    if r.outstanding[i] == r.outstanding[j] {
      SameOffset(spans[i].end, spans[j].end, spans[0].start + 1, r.length);
    }
  }

  lemma InUseWithout(r: Ring, t: Ring, spans: seq<Span>, less: seq<Span>, read: nat, i: nat)
    requires InUse(r, spans, read) && 0 < i < |spans| && less == spans[..i] + spans[i + 1..]
    requires t == r.(outstanding := r.outstanding[..i] + r.outstanding[i + 1..])
    ensures InUse(t, less, read)
  {
    forall j | 0 <= j < |less| ensures less[j] == spans[if j < i then j else j + 1] {
    }
    forall j | 0 <= j < |less| ensures t.outstanding[j] == r.outstanding[if j < i then j else j + 1] {
    }
  }

  /** Freeing any other region leaves the head, and the rest of the regions in use. */
  lemma FreeYoungerKeeps(r: Ring, spans: seq<Span>, read: nat, i: nat)
    requires InUse(r, spans, read) && 0 < i < |spans|
    ensures var t := Freed(r, r.outstanding[i]);
            t.head == r.head && t.readPtr == r.readPtr && InUse(t, spans[..i] + spans[i + 1..], read)
  {
    forall j | 0 <= j < |r.outstanding| && j != i ensures r.outstanding[j] != r.outstanding[i] {
      OffsetsDiffer(r, spans, read, i, j);
    }
    RemoveAt(r.outstanding, i);
    InUseWithout(r, Freed(r, r.outstanding[i]), spans, spans[..i] + spans[i + 1..], read, i);
  }

  /**
   With that head the sender is handed bytes of the next region, which is in use, as soon as the stream reaches its
   cells again.
   */
  lemma SecondRegionLost(r: Ring, spans: seq<Span>, read: nat, remote: Remote, senderHead: nat, tail: nat, len: nat)
    requires InUse(r, spans, read) && |spans| > 1 && remote.length == r.length
    requires Tracks(remote, senderHead, tail) && senderHead <= spans[0].start && read <= tail
    requires 0 < len < r.length && tail + len == spans[1].start + r.length + 1 && spans[1].end > spans[1].start + 1
    ensures var newer := RingBuffer.HeadUpdated(remote, Freed(r, r.outstanding[0]).head);
            Tracks(newer, spans[1].end, tail) && Accepts(newer, len)
    ensures tail <= spans[1].start + r.length < tail + len
    ensures Cell(spans[1].start + r.length, r.length) == Cell(spans[1].start, r.length)
  {
    var newer := RingBuffer.HeadUpdated(remote, Freed(r, r.outstanding[0]).head);
    AcceptsIffRoom(newer, spans[1].end, tail, len);
    RingBuffer.SameRemainder(spans[1].start, r.length);
  }

  // ----- Regions come into use, and one is lost -----

  /** With nothing in use, the first region read is in use alone. */
  lemma FirstReadInUse(r: Ring, read: nat, len: nat)
    requires 0 < len < r.length && r.outstanding == [] && r.readPtr == r.head == Offset(read, r.length)
    ensures InUse(ReadFrom(r, len), [Span(read, read + len)], read + len)
  {
    DownIsOffset(read, len, r.length);
  }

  /** The next region read is in use after the others, as long as all are within one length. */
  lemma ReadInUse(r: Ring, spans: seq<Span>, read: nat, len: nat)
    requires InUse(r, spans, read) && 0 < len < r.length && read + len < spans[0].start + r.length
    ensures InUse(ReadFrom(r, len), spans + [Span(read, read + len)], read + len)
  {
    DownIsOffset(read, len, r.length);
  }

  function TwoRead(length: nat, a: nat, b: nat): Ring
    requires a <= length && b <= length
  {
    ReadFrom(ReadFrom(NewRing(length), a), b)
  }

  lemma TwoInUse(length: nat, a: nat, b: nat)
    requires 0 < a && 0 < b && a + b < length
    ensures InUse(TwoRead(length, a, b), [Span(0, a), Span(a, a + b)], a + b)
  {
    var r := ReadFrom(NewRing(length), a);
    FirstReadInUse(NewRing(length), 0, a);
    ReadInUse(r, [Span(0, a)], a, b);
    assert [Span(0, a)] + [Span(a, a + b)] == [Span(0, a), Span(a, a + b)];
  }

  function TwoWritten(length: nat, a: nat, b: nat): Remote
    requires a + b <= length
  {
    Written(Written(RingBuffer.NewRemote(length), a), b)
  }

  lemma TwoTracked(length: nat, a: nat, b: nat)
    requires 0 < a && 0 < b && a + b < length
    ensures var first := RingBuffer.NewRemote(length);
            && Accepts(first, a) && Accepts(Written(first, a), b) && Tracks(TwoWritten(length, a, b), 0, a + b)
  {
    AcceptsIffRoom(RingBuffer.NewRemote(length), 0, 0, a);
    AcceptsIffRoom(Written(RingBuffer.NewRemote(length), a), 0, a, b);
  }

  lemma TwoOutstanding(length: nat, a: nat, b: nat)
    requires 0 < a && 0 < b && a + b < length
    ensures var ring := TwoRead(length, a, b);
            && ring.outstanding == [Offset(a, length), Offset(a + b, length)]
            && Freed(ring, Offset(a, length)).outstanding == [Offset(a + b, length)]
  {
    DownIsOffset(0, a, length);
    DownIsOffset(a, b, length);
    DifferentOffsets(a, a + b, length);
    RemoveOlder(Offset(a, length), Offset(a + b, length));
  }

  /**
   In a ring of any length: of any two messages sent and received, the second of at least two bytes, free the older.
   With the head that this leaves, the sender is handed enough bytes to reach the second region, which is in use.
   */
  lemma SecondRegionLostReachable(length: nat, a: nat, b: nat)
    requires 0 < a && 2 <= b && a + b < length
    ensures var remote, ring := TwoWritten(length, a, b), TwoRead(length, a, b);
            && ring.outstanding == [Offset(a, length), Offset(a + b, length)]
            && var freed := Freed(ring, ring.outstanding[0]);
            && freed.outstanding == [Offset(a + b, length)]
            && Accepts(RingBuffer.HeadUpdated(remote, freed.head), length + 1 - b)
    ensures a + b <= a + length < (a + b) + (length + 1 - b) && Cell(a + length, length) == Cell(a, length)
  {
    var spans := [Span(0, a), Span(a, a + b)];
    var ring := TwoRead(length, a, b);
    TwoInUse(length, a, b);
    TwoTracked(length, a, b);
    TwoOutstanding(length, a, b);
    SecondRegionLost(ring, spans, a + b, TwoWritten(length, a, b), 0, a + b, length + 1 - b);
  }

  lemma RemoveOlder(x: nat, y: nat)
    requires x != y
    ensures RingBuffer.Remove([x, y], x) == [y]
  {
    assert [y][1..] == [];
    assert RingBuffer.Remove([y], x) == [y];
    assert [x, y][1..] == [y];
  }

  lemma DifferentOffsets(a: nat, b: nat, length: nat)
    requires a < b < length
    ensures Offset(a, length) != Offset(b, length)
  {
    DifferentCells(a, b, a, length);
    if a == 0 {
      UniqueRemainder(b, 0, b, length);
    }
  }
}
