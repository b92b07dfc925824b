/**
 The reversed ring with send acknowledgements: each free announces the head if the flush policy says so, and the head
 is announced at no other time.
 */
module ReverseFlush {
  import opened Bytes
  import opened ReverseRing
  import RingBuffer
  import RW = ReverseWrite

  /** `acked` is the offset of the last flushed head. History: its position. */
  datatype State = State(base: RW.State, acked: nat, flushed: nat)

  function Start(length: nat): State { State(RW.Start(length), 0, 0) }

  /** Other steps of sender, network and application. */
  predicate Other(a: RW.Action) { !a.Free? && !a.Announce? }

  datatype Action = Free | Base(a: RW.Action)

  predicate Enabled(s: State, a: Action) {
    match a
    case Free => RW.Enabled(s.base, RW.Free)
    case Base(b) => Other(b) && RW.Enabled(s.base, b)
  }

  /** The flush that follows a free, or not. */
  function Flushed(s: State): State {
    if !RW.Exceeds(s.base.ring.head, s.acked, s.base.ring.length) then s
    else
      State(RW.Announced(s.base), s.base.ring.head, if s.base.received < |s.base.cuts| then RW.Head(s.base) else 0)
  }

  function Apply(s: State, a: Action): State
    requires Enabled(s, a)
  {
    match a
    case Free => Flushed(s.(base := RW.Apply(s.base, RW.Free)))
    case Base(b) => s.(base := RW.Apply(s.base, b))
  }

  // ----- The invariant -----

  predicate FlushedOk(s: State)
    requires RW.Counts(s.base)
  {
    var b := s.base;
    && 0 < |b.mem| && s.acked == Offset(s.flushed, |b.mem|)
    && s.flushed <= RW.Head(b) && RingBuffer.OnlyFlushed(b.senderHead, b.ackPos, s.flushed)
  }

  predicate LagOk(s: State)
    requires RW.Counts(s.base)
  {
    RW.Head(s.base) <= s.flushed + |s.base.mem| / 2
  }

  ghost predicate Inv(s: State) { RW.Inv(s.base) && FlushedOk(s) && LagOk(s) }

  /** What the bound depends on. */
  predicate SameHeads(b: RW.State, c: RW.State)
    requires RW.Counts(b) && RW.Counts(c)
  {
    |c.mem| == |b.mem| && RW.Head(c) == RW.Head(b) && c.senderHead == b.senderHead && c.ackPos == b.ackPos
  }

  lemma SendHeads(b: RW.State, payload: seq<Byte>)
    requires RW.Counts(b) && RW.Enabled(b, RW.Send(payload))
    ensures RW.Counts(RW.Sent(b, payload)) && SameHeads(b, RW.Sent(b, payload))
  {
  }

  lemma DeliverHeads(b: RW.State)
    requires RW.Counts(b) && RW.Enabled(b, RW.Deliver) && RW.Counts(RW.Delivered(b))
    ensures SameHeads(b, RW.Delivered(b))
  {
  }

  lemma ReceiveHeads(b: RW.State)
    requires RW.Counts(b) && RW.Enabled(b, RW.Receive) && 4 <= ReadOff(b.ring) + b.ring.length
    requires RW.Counts(RW.ReceivedNow(b))
    ensures SameHeads(b, RW.ReceivedNow(b))
  {
  }

  lemma HeadsStay(b: RW.State, a: RW.Action)
    requires RW.Inv(b) && RW.Enabled(b, a) && Other(a) && !a.GetHead? && RW.Inv(RW.Apply(b, a))
    ensures SameHeads(b, RW.Apply(b, a))
  {
    match a {
      case Send(payload) => SendHeads(b, payload);
      case Deliver => DeliverHeads(b);
      case Receive => if 4 <= ReadOff(b.ring) + b.ring.length { ReceiveHeads(b); }
    }
  }

  lemma SameBound(s: State, c: RW.State)
    requires RW.Counts(s.base) && RW.Counts(c) && SameHeads(s.base, c) && FlushedOk(s) && LagOk(s)
    ensures FlushedOk(s.(base := c)) && LagOk(s.(base := c))
  {
  }

  lemma GetHeadBound(s: State)
    requires RW.Counts(s.base) && FlushedOk(s) && LagOk(s) && RW.AcksOk(s.base) && RW.Enabled(s.base, RW.GetHead)
    ensures var t := s.(base := RW.HeadGot(s.base)); RW.Counts(t.base) && FlushedOk(t) && LagOk(t)
  {
    RingBuffer.FlushedTaken(s.base.senderHead, s.base.ackPos, s.flushed);
  }

  /** A free moves the head on, but not beyond what has been sent. */
  lemma FreeHeads(b: RW.State)
    requires RW.Places(b) && RW.Enabled(b, RW.Free) && RW.Counts(RW.FreedNow(b))
    ensures var c := RW.FreedNow(b);
            |c.mem| == |b.mem| && RW.Head(b) <= RW.Head(c) && c.senderHead == b.senderHead && c.ackPos == b.ackPos
  {
  }

  /** The flush restores the bound. */
  lemma FlushKeeps(s: State)
    requires RW.Inv(s.base) && FlushedOk(s)
    ensures Inv(Flushed(s))
  {
    RW.HeadLags(s.base);
    RW.ExceedsIff(s.flushed, RW.Head(s.base), |s.base.mem|);
    if RW.Exceeds(s.base.ring.head, s.acked, s.base.ring.length) {
      RW.AnnounceKeeps(s.base);
      AnnouncedBound(s);
    }
  }

  lemma AnnouncedBound(s: State)
    requires RW.Counts(s.base) && RW.RingOk(s.base) && FlushedOk(s)
    ensures var t := State(RW.Announced(s.base), s.base.ring.head, RW.Head(s.base));
            RW.Counts(t.base) && FlushedOk(t) && LagOk(t)
  {
    RingBuffer.FlushedAdded(s.base.senderHead, s.base.ackPos, s.flushed, RW.Head(s.base));
  }

  lemma FreeKeeps(s: State)
    requires Inv(s) && RW.Enabled(s.base, RW.Free)
    ensures Inv(Apply(s, Free))
  {
    RW.StepKeeps(s.base, RW.Free);
    FreeHeads(s.base);
    FlushKeeps(s.(base := RW.FreedNow(s.base)));
  }

  lemma StepKeeps(s: State, a: Action)
    requires Inv(s) && Enabled(s, a)
    ensures Inv(Apply(s, a))
  {
    if a.Free? {
      FreeKeeps(s);
    } else {
      RW.StepKeeps(s.base, a.a);
      if a.a.GetHead? {
        GetHeadBound(s);
      } else {
        HeadsStay(s.base, a.a);
        SameBound(s, RW.Apply(s.base, a.a));
      }
    }
  }

  // ----- Runs -----

  predicate IsNext(s: State, a: Action, t: State) { Enabled(s, a) && t == Apply(s, a) }

  ghost predicate IsRun(run: seq<State>, acts: seq<Action>, length: nat) {
    && |run| == |acts| + 1 && run[0] == Start(length)
    && forall i, j {:trigger run[i], run[j]} :: 0 <= i < |acts| && j == i + 1 ==> IsNext(run[i], acts[i], run[j])
  }

  lemma StartKeeps(length: nat)
    requires 0 < length
    ensures Inv(Start(length))
  {
    RW.StartKeeps(length);
  }

  lemma {:induction false} RunKeepsInvariant(run: seq<State>, acts: seq<Action>, length: nat, k: nat)
    requires 0 < length && IsRun(run, acts, length) && k < |run|
    ensures Inv(run[k])
  {
    if k == 0 {
      StartKeeps(length);
    } else {
      RunKeepsInvariant(run, acts, length, k - 1);
      assert IsNext(run[k - 1], acts[k - 1], run[k]);
      StepKeeps(run[k - 1], acts[k - 1]);
    }
  }

  /** In every reachable state the last flushed head trails the head by at most half the buffer. */
  lemma FlushedHeadIsRecent(run: seq<State>, acts: seq<Action>, length: nat, k: nat)
    requires 0 < length && IsRun(run, acts, length) && k < |run|
    ensures RW.Counts(run[k].base)
    ensures run[k].flushed <= RW.Head(run[k].base) <= run[k].flushed + |run[k].base.mem| / 2
  {
    RunKeepsInvariant(run, acts, length, k);
  }

  /** After a free the head is announced exactly if it has moved by more than half the buffer since the last time. */
  lemma FlushesExactly(run: seq<State>, acts: seq<Action>, length: nat, k: nat)
    requires 0 < length && IsRun(run, acts, length) && k < |acts| && acts[k].Free?
    ensures var s, t := run[k], run[k + 1];
            && RW.Counts(t.base) && |t.base.mem| == |s.base.mem|
            && var head := RW.Head(t.base);
            if head - s.flushed > |s.base.mem| / 2 then t.flushed == head && t.base.acks == s.base.acks + [t.base.ring.head]
            else t.flushed == s.flushed && t.base.acks == s.base.acks
  {
    RunKeepsInvariant(run, acts, length, k);
    assert IsNext(run[k], acts[k], run[k + 1]);
    FreeFlushes(run[k]);
  }

  lemma FreeFlushes(s: State)
    requires Inv(s) && RW.Enabled(s.base, RW.Free)
    ensures var t := Apply(s, Free);
            && RW.Counts(t.base) && |t.base.mem| == |s.base.mem|
            && var head := RW.Head(t.base);
            if head - s.flushed > |s.base.mem| / 2 then t.flushed == head && t.base.acks == s.base.acks + [t.base.ring.head]
            else t.flushed == s.flushed && t.base.acks == s.base.acks
  {
    RW.StepKeeps(s.base, RW.Free);
    FreeHeads(s.base);
    var c := RW.FreedNow(s.base);
    RW.HeadLags(c);
    RW.ExceedsIff(s.flushed, RW.Head(c), |c.mem|);
  }

  /**
   Once all is freed and the sender has taken the heads on their way, it can send a message exactly if that, with what
   the last flushed head lags behind, is less than the buffer; so any of less than half the buffer passes.
   */
  lemma AllFreedAccepts(s: State, payload: seq<Byte>)
    requires Inv(s) && s.base.acks == [] && RW.Head(s.base) == |s.base.stream| && RW.Sendable(s.base, payload)
    ensures var len, l := |payload| + 6, |s.base.mem|;
            && (Accepts(s.base.remote, len) <==> |s.base.stream| - s.flushed + len < l)
            && |s.base.stream| - s.flushed <= l / 2 && (2 * len < l ==> Accepts(s.base.remote, len))
  {
    AcceptsIffRoom(s.base.remote, s.base.senderHead, |s.base.stream|, |payload| + 6);
  }

  /** With a sender that reads the head itself, one head read once all is freed lets any message through. */
  lemma FreshHeadAccepts(b: RW.State, payload: seq<Byte>)
    requires RW.Inv(b) && b.acks == [] && RW.Head(b) == |b.stream| && RW.Sendable(b, payload)
    ensures Accepts(RW.HeadGot(RW.Announced(b)).remote, |payload| + 6)
  {
    RW.AnnounceKeeps(b);
    RW.GetHeadKeeps(RW.Announced(b));
    FreshTracks(b);
    var c := RW.HeadGot(RW.Announced(b));
    AcceptsIffRoom(c.remote, c.senderHead, |c.stream|, |payload| + 6);
  }

  lemma FreshTracks(b: RW.State)
    requires RW.Counts(b) && b.acks == [] && b.ackPos == []
    ensures var c := RW.HeadGot(RW.Announced(b)); c.senderHead == RW.Head(b) && c.stream == b.stream && |c.mem| == |b.mem|
  {
  }
}
