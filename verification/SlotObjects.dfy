/** The two ends of the direct-write protocol as objects with their arrays of slots, tied to the states of the protocol. */
module SlotObjects {
  import opened DirectWrite

  class Sender {
    const nr_buffers_: nat
    const target_buf_: array<Slot>
    var next_: nat
    /** What was posted to the network and has not landed. */
    var data: seq<Write>

    /** The sender's part of a state between two sends. */
    ghost predicate Matches(s: State)
      reads this, target_buf_
    {
      && 0 < nr_buffers_ == s.n == target_buf_.Length && target_buf_[..] == s.target
      && next_ == s.next && data == s.data && s.pc.Idle?
    }

    constructor (n: nat)
      requires 0 < n
      ensures Matches(Start(n)) && fresh(target_buf_)
    {
      nr_buffers_ := n;
      target_buf_ := new Slot[n](_ => Slot(0, false));
      next_, data := 0, [];
    }

    /** All of SendAsync once its slot is valid: the four atomic steps of the protocol, one after the other. */
    method SendAsync(content: Buffer, ghost s: State)
      requires Matches(s) && Enabled(s, CallSend(content)) && s.target[SlotOf(s)].valid
      modifies this, target_buf_
      ensures var s1 := Apply(s, CallSend(content));
              var s2 := Sends(s1);
              var s3 := Sends(s2);
              var s4 := Sends(s3);
              s2.pc.ReadAddr? && Matches(Sends(s4)) && Sends(s4).msgs == s.msgs + [content]
    {
      var slot := (next_ + 1) % nr_buffers_;
      var addr := target_buf_[slot].addr;
      target_buf_[slot] := target_buf_[slot].(valid := false);
      data := data + [Write(addr, content, false)];
      next_ := next_ + 1;
    }
  }

  class Receiver {
    const nr_buffers_: nat
    const bufs: array<Buffer>
    const rcv_buffers_: array<nat>
    var rcv_head_: nat
    var rcv_tail_: nat
    /** What was posted to the network and has not landed. */
    var back: seq<Refresh>

    ghost predicate Matches(s: State)
      reads this, bufs, rcv_buffers_
    {
      && 0 < nr_buffers_ == s.n == bufs.Length == rcv_buffers_.Length
      && bufs[..] == s.bufs && rcv_buffers_[..] == s.rcv && rcv_head_ == s.head && rcv_tail_ == s.tail && back == s.back
    }

    constructor (n: nat)
      requires 0 < n
      ensures Matches(Start(n)) && fresh(bufs) && fresh(rcv_buffers_)
    {
      nr_buffers_ := n;
      bufs := new Buffer[n](_ => Buffer(0, 0));
      rcv_buffers_ := new nat[n](_ => 0);
      rcv_head_, rcv_tail_, back := 1 % n, 1 % n, [];
    }

    /** Once the length is there: the buffer it returns holds the next message, and was not held. */
    method Receive(ghost s: State) returns (buf: nat)
      requires Matches(s) && Inv(s) && Enabled(s, DirectWrite.Receive)
      modifies this
      ensures Matches(ReceivedNow(s)) && buf !in s.held
      ensures buf < bufs.Length && s.received < |s.msgs| && bufs[buf] == s.msgs[s.received]
    {
      ReceiveYields(s);
      buf := rcv_buffers_[rcv_head_];
      rcv_head_ := (rcv_head_ + 1) % nr_buffers_;
    }

    method Free(buf: nat, ghost s: State)
      requires Matches(s) && Enabled(s, DirectWrite.Free(buf))
      modifies this, bufs, rcv_buffers_
      ensures Matches(FreedNow(s, buf))
    {
      bufs[buf] := bufs[buf].(len := 0);
      back := back + [Refresh(rcv_tail_, buf, false)];
      rcv_buffers_[rcv_tail_] := buf;
      rcv_tail_ := (rcv_tail_ + 1) % nr_buffers_;
    }
  }
}
