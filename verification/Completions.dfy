/**
 Waiting for sends while reads of the receiver's head share the completion queue.

 The queue pair completes what was posted in order, so the completions to come are known in order once posted. The
 receiver of acknowledgements reads the head and polls until it sees its own read, whose id is 0; the completions of
 sends that it polls on the way are lost to whoever waits for them.
 */
module Completions {

  const WORD32 := 0x1_0000_0000

  /** The work request id as the `int` that ReadAckReceiver compares with 0: only the low 32 bits count. */
  predicate LooksLikeRead(id: nat) { id % WORD32 == 0 }

  /** What is left after polling up to the first completion that looks like a read. */
  function AfterRead(s: seq<nat>): seq<nat> {
    if s == [] then [] else if LooksLikeRead(s[0]) then s[1..] else AfterRead(s[1..])
  }

  /** A read of the head is waited for exactly if no earlier completion has an id whose low 32 bits are 0. */
  lemma {:induction false} ReadAwaitedIff(pending: seq<nat>)
    ensures AfterRead(pending + [0]) == [] <==> forall i :: 0 <= i < |pending| ==> !LooksLikeRead(pending[i])
  {
    if pending == [] {
      assert pending + [0] == [0];
    } else {
      assert (pending + [0])[0] == pending[0] && (pending + [0])[1..] == pending[1..] + [0];
      ReadAwaitedIff(pending[1..]);
      if !LooksLikeRead(pending[0]) && AfterRead(pending + [0]) == [] {
        forall i | 0 <= i < |pending| ensures !LooksLikeRead(pending[i]) {
          if i > 0 {
            assert pending[i] == pending[1..][i - 1];
          }
        }
      }
    }
  }

  class Endpoint {
    /** The ids of the completions to come, in order. */
    var pending: seq<nat>
    /** History: the largest id whose completion was polled. */
    ghost var seen: nat

    constructor ()
      ensures pending == [] && seen == 0
    {
      pending, seen := [], 0;
    }

    method Post(id: nat)
      modifies this
      ensures pending == old(pending) + [id] && seen == old(seen)
    {
      pending := pending + [id];
    }

    /** Spins until there is a completion, and so needs one to come. */
    method PollSendCq() returns (id: nat)
      requires pending != []
      modifies this
      ensures id == old(pending)[0] && pending == old(pending)[1..]
      ensures seen == if id > old(seen) then id else old(seen)
    {
      id := pending[0];
      pending := pending[1..];
      seen := if id > seen then id else seen;
    }

    /** ReadAckReceiver::Get, up to the head it returns. */
    method Get()
      modifies this
      ensures pending == AfterRead(old(pending) + [0]) && seen >= old(seen)
    {
      Post(0);
      ghost var start := pending;
      var id := 1;
      ReadIsThere(pending);
      while id != 0
        invariant AfterRead(start) == if id == 0 then pending else AfterRead(pending)
        invariant id != 0 ==> pending != [] && pending[|pending| - 1] == 0
        invariant seen >= old(seen)
        decreases |pending|, id
      {
        var wr_id := PollSendCq();
        id := wr_id % WORD32;
      }
    }
  }

  lemma ReadIsThere(s: seq<nat>)
    requires s != [] && s[|s| - 1] == 0
    ensures LooksLikeRead(s[|s| - 1])
  {
  }

  /** Ids in increasing order, from low on and below high. */
  predicate Increasing(s: seq<nat>, low: nat, high: nat) {
    if s == [] then low <= high else low <= s[0] < high && Increasing(s[1..], s[0] + 1, high)
  }

  lemma {:induction false} IncreasingAppend(s: seq<nat>, low: nat, high: nat)
    requires Increasing(s, low, high)
    ensures Increasing(s + [high], low, high + 1)
  {
    if s == [] {
      assert (s + [high])[1..] == [];
    } else {
      assert (s + [high])[1..] == s[1..] + [high];
      IncreasingAppend(s[1..], s[0] + 1, high);
    }
  }

  lemma {:induction false} IncreasingNoRead(s: seq<nat>, low: nat, high: nat)
    requires Increasing(s, low, high) && 1 <= low && high <= WORD32
    ensures forall i :: 0 <= i < |s| ==> !LooksLikeRead(s[i])
  {
    if s != [] {
      IncreasingNoRead(s[1..], s[0] + 1, high);
    }
  }

  /** Both kinds of sender: they differ in how Wait takes over the id of a completion. */
  class WriteSender {
    const ep: Endpoint
    var ackd_id_: nat
    var next_id_: nat

    /**
     The completions to come are those of sends after the acknowledged one, in order; and as long as that is not the
     newest send, the completion of the newest send is still to come, whatever Get has swallowed.
     */
    ghost predicate Valid()
      reads this, ep
    {
      && ackd_id_ < next_id_ <= WORD32 && ackd_id_ <= ep.seen
      && Increasing(ep.pending, ackd_id_ + 1, next_id_)
      && (ackd_id_ < next_id_ - 1 ==> ep.pending != [] && ep.pending[|ep.pending| - 1] == next_id_ - 1)
    }

    constructor (e: Endpoint)
      requires e.pending == []
      ensures Valid() && ep == e && next_id_ == 1
    {
      ep := e;
      ackd_id_, next_id_ := 0, 1;
    }

    /** `gets` is how often get_write_addr_or_die has to ask for the head. */
    method SendAsync(gets: nat) returns (id: nat)
      requires Valid() && next_id_ < WORD32
      modifies this, ep
      ensures Valid() && id == old(next_id_) == next_id_ - 1 && ackd_id_ == old(ackd_id_)
    {
      id := next_id_;
      next_id_ := next_id_ + 1;
      var i := 0;
      while i < gets
        invariant 0 <= i <= gets && ackd_id_ == old(ackd_id_) && next_id_ == old(next_id_) + 1
        invariant ackd_id_ <= ep.seen && Increasing(ep.pending, ackd_id_ + 1, id)
      {
        IncreasingNoRead(ep.pending, ackd_id_ + 1, id);
        ReadAwaitedIff(ep.pending);
        ep.Get();
        i := i + 1;
      }
      IncreasingAppend(ep.pending, ackd_id_ + 1, id);
      ep.Post(id);
    }

    /** WriteOffsetSender: terminates, and returns only after a completion of this send or a later one. */
    method Wait(id: nat)
      requires Valid() && id < next_id_
      modifies this, ep
      ensures Valid() && id <= ackd_id_ <= ep.seen && next_id_ == old(next_id_)
    {
      while ackd_id_ < id
        invariant Valid() && next_id_ == old(next_id_)
        decreases |ep.pending|
      {
        var wr_id := ep.PollSendCq();
        if wr_id > ackd_id_ {
          ackd_id_ := wr_id;
        }
      }
    }

    /** WriteImmSender, which takes over any id it polls. */
    method WaitImm(id: nat)
      requires Valid() && id < next_id_
      modifies this, ep
      ensures Valid() && id <= ackd_id_ <= ep.seen && next_id_ == old(next_id_)
    {
      while ackd_id_ < id
        invariant Valid() && next_id_ == old(next_id_)
        decreases |ep.pending|
      {
        ackd_id_ := ep.PollSendCq();
      }
    }
  }
}
