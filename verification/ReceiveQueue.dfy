/**
 Reposting receive buffers in batches: both kinds of receive queue collect 64 ids in a chain of work requests, filled
 from its end, and post the whole chain at once.
 */
module ReceiveQueue {

  const BATCH := 64

  /** A receive request as the network interface gets it. */
  datatype Request = Request(id: nat, addr: nat)

  /** Where the buffers lie, the ids collected (latest first) and the requests posted so far, in order. */
  datatype Reposter = Reposter(base: nat, size: nat, staged: seq<nat>, posted: seq<Request>)

  function Chain(base: nat, size: nat, ids: seq<nat>): seq<Request> {
    if ids == [] then [] else [Request(ids[0], base + ids[0] * size)] + Chain(base, size, ids[1..])
  }

  function Reposted(r: Reposter, id: nat): Reposter {
    var staged := [id] + r.staged;
    if |staged| == BATCH then r.(staged := [], posted := r.posted + Chain(r.base, r.size, staged)) else r.(staged := staged)
  }

  function Initial(base: nat, size: nat, inflight: nat): seq<Request> {
    if inflight == 0 then []
    else Initial(base, size, inflight - 1) + [Request(inflight - 1, base + (inflight - 1) * size)]
  }

  /** A chain has one request for each id, with the address of its buffer. */
  lemma {:induction false} ChainAt(base: nat, size: nat, ids: seq<nat>, i: nat)
    requires i < |ids|
    ensures |Chain(base, size, ids)| == |ids| && Chain(base, size, ids)[i] == Request(ids[i], base + ids[i] * size)
  {
    if |ids| > 1 {
      ChainAt(base, size, ids[1..], if i > 0 then i - 1 else 0);
    }
  }

  /** At first every buffer is posted once, under its number. */
  lemma {:induction false} InitialAt(base: nat, size: nat, inflight: nat, i: nat)
    requires i < inflight
    ensures |Initial(base, size, inflight)| == inflight && Initial(base, size, inflight)[i] == Request(i, base + i * size)
  {
    if inflight > 1 {
      InitialAt(base, size, inflight - 1, if i < inflight - 1 then i else 0);
    }
  }

  lemma {:induction false} ChainAppend(base: nat, size: nat, ids: seq<nat>, id: nat)
    ensures Chain(base, size, ids + [id]) == Chain(base, size, ids) + [Request(id, base + id * size)]
  {
    if ids == [] {
      assert ids + [id] == [id];
    } else {
      assert (ids + [id])[1..] == ids[1..] + [id];
      ChainAppend(base, size, ids[1..], id);
    }
  }

  class ReceiveQueue {
    const base: nat
    const transfer_size_: nat
    var current_rcv_mr_: nat
    const wr_ids: array<nat>
    const sge_addrs: array<nat>
    /** What the queue pair, or the shared receive queue, was given. */
    var posted: seq<Request>

    ghost predicate Valid()
      reads this, wr_ids, sge_addrs
    {
      && wr_ids.Length == sge_addrs.Length == BATCH && wr_ids != sge_addrs && 0 < current_rcv_mr_ <= BATCH
      && forall i :: current_rcv_mr_ <= i < BATCH ==> sge_addrs[i] == base + wr_ids[i] * transfer_size_
    }

    ghost function Model(): Reposter
      requires Valid()
      reads this, wr_ids, sge_addrs
    {
      Reposter(base, transfer_size_, wr_ids[current_rcv_mr_..], posted)
    }

    constructor (address: nat, transfer_size: nat, inflight: nat)
      ensures Valid() && fresh(wr_ids) && fresh(sge_addrs)
      ensures Model() == Reposter(address, transfer_size, [], Initial(address, transfer_size, inflight))
    {
      base, transfer_size_ := address, transfer_size;
      current_rcv_mr_ := BATCH;
      wr_ids := new nat[BATCH](i => i);
      sge_addrs := new nat[BATCH](_ => 0);
      var list: seq<Request> := [];
      var i := 0;
      while i < inflight
        invariant 0 <= i <= inflight && list == Initial(address, transfer_size, i)
      {
        list := list + [Request(i, address + i * transfer_size)];
        i := i + 1;
      }
      posted := list;
    }

    method PostMR(wr_id: nat)
      requires Valid()
      modifies this, wr_ids, sge_addrs
      ensures Valid() && Model() == Reposted(old(Model()), wr_id)
    {
      var addr := base + wr_id * transfer_size_;
      current_rcv_mr_ := current_rcv_mr_ - 1;
      var i := current_rcv_mr_;
      sge_addrs[i] := addr;
      wr_ids[i] := wr_id;
      assert wr_ids[i..] == [wr_id] + old(wr_ids[current_rcv_mr_..]);
      if current_rcv_mr_ == 0 {
        current_rcv_mr_ := BATCH;
        PostChain();
      }
    }

    /** The interface walks the chain from its first request on. */
    method PostChain()
      requires wr_ids.Length == sge_addrs.Length == BATCH
      requires forall i :: 0 <= i < BATCH ==> sge_addrs[i] == base + wr_ids[i] * transfer_size_
      modifies this`posted
      ensures posted == old(posted) + Chain(base, transfer_size_, wr_ids[..])
    {
      var i := 0;
      while i < BATCH
        invariant 0 <= i <= BATCH && posted == old(posted) + Chain(base, transfer_size_, wr_ids[..i])
      {
        assert wr_ids[..i + 1] == wr_ids[..i] + [wr_ids[i]];
        ChainAppend(base, transfer_size_, wr_ids[..i], wr_ids[i]);
        posted := posted + [Request(wr_ids[i], sge_addrs[i])];
        i := i + 1;
      }
      assert wr_ids[..BATCH] == wr_ids[..];
    }
  }
}
