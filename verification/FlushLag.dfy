/**
 With read acknowledgements, where a flush does nothing and the sender reads the head itself, the head that counts as
 flushed can fall behind by more than half the buffer: once by a whole length or more, the offsets look alike.
 */
module FlushLag {
  import opened Bytes
  import opened BufferedWrite
  import opened Modular
  import opened RingBuffer

  ghost predicate Reachable(s: State, length: nat, imm: bool, readAck: bool) {
    exists run: seq<State>, acts: seq<Action> :: IsRun(run, acts, length, imm, readAck) && s == run[|run| - 1]
  }

  lemma Step(s: State, a: Action) returns (t: State)
    requires Reachable(s, 3, true, true) && Enabled(s, a)
    ensures t == Apply(s, a) && Reachable(t, 3, true, true)
  {
    var run: seq<State>, acts: seq<Action> :| IsRun(run, acts, 3, true, true) && s == run[|run| - 1];
    t := Apply(s, a);
    assert IsNext(s, a, t);
    assert IsRun(run + [t], acts + [a], 3, true, true);
  }

  /** Nothing is on its way; n one-byte messages were sent and received. */
  predicate Quiet(s: State, n: nat, senderHead: nat, outs: seq<nat>) {
    && s.imm && s.readAck && |s.mem| == 3 && s.chain == [] && s.net == [] && s.acks == [] && s.ackPos == [] && s.cq == []
    && s.remote == Remote(3, senderHead % 3, n % 3, false)
    && s.ring == Ring(3, HeadOf(outs, n) % 3, n % 3, Offsets(outs, 3)) && s.outs == outs
    && |s.stream| == n && |s.msgs| == n && s.received == n && |s.cuts| == n + 1 && s.cuts[n] == n
    && s.acked == 0 && s.flushed == 0
  }

  /** One more one-byte message reaches the network. */
  lemma Posting(s: State, n: nat, senderHead: nat, outs: seq<nat>) returns (t: State)
    requires Reachable(s, 3, true, true) && Quiet(s, n, senderHead, outs) && senderHead <= n < senderHead + 2
    ensures Reachable(t, 3, true, true) && t.net == [Data(n, n % 3, [7]), Note(n + 1, 1)]
    ensures |t.cuts| == n + 2 && t.cuts[n] == n && t.cuts[n + 1] == n + 1 && |t.stream| == |t.msgs| == n + 1
    ensures Quiet(t.(net := [], remote := t.remote.(tail := n % 3), stream := s.stream, msgs := s.msgs, cuts := s.cuts),
                  n, senderHead, outs)
    ensures t.remote.tail == (n + 1) % 3
  {
    AcceptsIffRoom(s.remote, senderHead, n, 1);
    t := Step(s, Prepare([7]));
    t := Step(t, Post);
  }

  /** The network delivers it: the byte, the empty rest, the completion. */
  lemma Landing(s: State, n: nat) returns (t: State)
    requires Reachable(s, 3, true, true) && s.net == [Data(n, n % 3, [7]), Note(n + 1, 1)] && s.cq == []
    requires s.remote.length == s.ring.length == |s.mem| == 3
    ensures Reachable(t, 3, true, true) && |t.mem| == 3
    ensures t == s.(net := [], mem := t.mem, landed := t.landed, cq := [1], published := n + 1)
  {
    t := Step(s, Deliver);
    assert [7][1..] == [];
    assert t.net == [Data(n + 1, n % 3 + 1, []), Note(n + 1, 1)];
    t := Step(t, Deliver);
    assert t.net == [Note(n + 1, 1)];
    t := Step(t, Deliver);
  }

  lemma Taking(s: State, n: nat, outs: seq<nat>) returns (t: State)
    requires Reachable(s, 3, true, true) && s.imm && s.remote.length == |s.mem| == 3 && s.cq == [1] && s.received == n
    requires n < |s.cuts| && s.cuts[n] == n && s.outs == outs && s.ring == Ring(3, s.ring.head, n % 3, Offsets(outs, 3))
    ensures Reachable(t, 3, true, true)
    ensures t == s.(ring := Ring(3, s.ring.head, (n + 1) % 3, Offsets(outs + [n], 3)), cq := [], held := t.held,
                    outs := outs + [n], received := n + 1)
  {
    t := Step(s, Receive);
    OffsetsAppend(outs, n, 3);
    AddToReduced(n, 1, 3);
  }

  /** One more one-byte message goes all the way. */
  lemma Message(s: State, n: nat, senderHead: nat, outs: seq<nat>) returns (t: State)
    requires Reachable(s, 3, true, true) && Quiet(s, n, senderHead, outs) && senderHead <= n < senderHead + 2
    requires HeadOf(outs, n) == HeadOf(outs + [n], n + 1)
    ensures Reachable(t, 3, true, true) && Quiet(t, n + 1, senderHead, outs + [n])
  {
    t := Posting(s, n, senderHead, outs);
    t := Landing(t, n);
    t := Taking(t, n, outs);
  }

  lemma FirstFreed(s: State) returns (t: State)
    requires Reachable(s, 3, true, true) && Quiet(s, 2, 0, [0, 1])
    ensures Reachable(t, 3, true, true) && Quiet(t, 2, 1, [1])
  {
    t := Step(s, Free(0));
    t := Step(t, ReadHead);
    t := Step(t, GetHead);
  }

  lemma NewerRemoved()
    ensures Remove([1, 2], 2) == [1]
  {
    assert [2][1..] == [];
    assert [1, 2][1..] == [2];
  }

  lemma NewerFreed(s: State) returns (t: State)
    requires Reachable(s, 3, true, true) && Quiet(s, 3, 1, [1, 2])
    ensures Reachable(t, 3, true, true) && t == s.(ring := t.ring, outs := [1], held := t.held)
    ensures t.ring == Ring(3, 1, 0, [1])
  {
    NewerRemoved();
    assert s.ring == Ring(3, 1, 0, [1, 2]);
    t := Step(s, Free(2));
  }

  /** The newer of two regions is freed first, then the older: nothing is flushed, since the offsets are 0 and 0. */
  lemma RestFreed(s: State) returns (t: State)
    requires Reachable(s, 3, true, true) && Quiet(s, 3, 1, [1, 2])
    ensures Reachable(t, 3, true, true) && Counts(t) && Head(t) == 3 && t.flushed == 0 && t.ring.length == 3
  {
    t := NewerFreed(s);
    t := Step(t, Free(1));
    assert t.outs == [] && t.ring.head == 0;
    Counted(t);
  }

  lemma Counted(s: State)
    requires Reachable(s, 3, true, true)
    ensures Counts(s)
  {
    var run: seq<State>, acts: seq<Action> :| IsRun(run, acts, 3, true, true) && s == run[|run| - 1];
    RunKeepsInvariant(run, acts, 3, true, true, |run| - 1);
  }

  lemma Begin() returns (s: State)
    ensures Reachable(s, 3, true, true) && Quiet(s, 0, 0, [])
  {
    s := Start(3, true, true);
    assert IsRun([s], [], 3, true, true);
  }

  /** Two messages, of which the first is freed and the sender told; a third, after which the others are freed, newest first. */
  lemma LagGrows()
    ensures exists s: State :: Reachable(s, 3, true, true) && Counts(s) && Head(s) > s.flushed + s.ring.length / 2
  {
    var s := Begin();
    s := Message(s, 0, 0, []);
    s := Message(s, 1, 0, [0]);
    assert [0] + [1] == [0, 1];
    s := FirstFreed(s);
    s := Message(s, 2, 1, [1]);
    assert [1] + [2] == [1, 2];
    s := RestFreed(s);
  }
}
