/**
 Runs of the direct-write protocol, with any number of buffers, that lead to where the application holds all of them
 and the receiver polls one it has handed out before.
 */
module StaleReceive {
  import opened DirectWrite

  ghost predicate Reachable(s: State, n: nat)
    requires 0 < n
  {
    exists run: seq<State>, acts: seq<Action> :: IsRun(run, acts, n) && s == run[|run| - 1]
  }

  lemma Step(s: State, a: Action, n: nat) returns (t: State)
    requires 0 < n && Reachable(s, n) && Enabled(s, a)
    ensures t == Apply(s, a) && Reachable(t, n)
  {
    var run: seq<State>, acts: seq<Action> :| IsRun(run, acts, n) && s == run[|run| - 1];
    t := Apply(s, a);
    assert IsNext(s, a, t);
    assert IsRun(run + [t], acts + [a], n);
  }

  lemma Kept(s: State, n: nat)
    requires 0 < n && Reachable(s, n)
    ensures Inv(s)
  {
    var run: seq<State>, acts: seq<Action> :| IsRun(run, acts, n) && s == run[|run| - 1];
    RunKeepsInvariant(run, acts, n, |run| - 1);
  }

  /** Nothing is on its way, k messages were received, and the application holds every buffer. */
  predicate Quiet(s: State, n: nat, k: nat) {
    && s.n == n && s.pc.Idle? && s.data == [] && s.back == [] && |s.held| == n
    && |s.posts| == |s.msgs| == s.next == s.arrived == s.invalidated == s.landed == s.received == k
  }

  lemma Begin(n: nat) returns (s: State)
    requires 0 < n
    ensures Reachable(s, n) && Quiet(s, n, 0)
  {
    s := Start(n);
    assert IsRun([s], [], n);
  }

  /** A buffer is freed, and its slot arrives at the sender. */
  lemma BufferPosted(s: State, n: nat, k: nat) returns (t: State)
    requires 0 < n && Reachable(s, n) && Quiet(s, n, k)
    ensures Reachable(t, n) && t.n == n && t.pc.Idle? && t.data == [] && t.back == [] && |t.held| == n - 1
    ensures |t.posts| == t.arrived == k + 1 && |t.msgs| == t.next == t.invalidated == t.landed == t.received == k
  {
    Kept(s, n);
    HoldsAll(s.held, n, 0);
    t := Step(s, Free(0), n);
    assert t.back[1..] == [];
    t := Step(t, SlotLands, n);
    assert t.back[1..] == [];
    t := Step(t, SlotLands, n);
  }

  /** The sender finds its slot valid and reads the address. */
  lemma AddressRead(s: State, n: nat, k: nat) returns (t: State)
    requires 0 < n && Reachable(s, n) && s.n == n && s.pc.Idle? && s.data == [] && s.back == [] && |s.held| == n - 1
    requires |s.posts| == s.arrived == k + 1 && |s.msgs| == s.next == s.invalidated == s.landed == s.received == k
    ensures Reachable(t, n) && t == s.(pc := t.pc, sending := t.sending) && t.pc.Invalidate?
  {
    Kept(s, n);
    t := Step(s, CallSend(Buffer(7, 1)), n);
    Kept(t, n);
    NoRefreshLost(t);
    t := Step(t, SendStep, n);
    t := Step(t, SendStep, n);
  }

  /** It invalidates the slot and posts a message. */
  lemma MessagePosted(s: State, n: nat, k: nat) returns (t: State)
    requires 0 < n && Reachable(s, n) && s.n == n && s.pc.Idle? && s.data == [] && s.back == [] && |s.held| == n - 1
    requires |s.posts| == s.arrived == k + 1 && |s.msgs| == s.next == s.invalidated == s.landed == s.received == k
    ensures Reachable(t, n) && t.n == n && t.pc.Idle? && |t.data| == 1 && !t.data[0].bodyLanded && t.back == []
    ensures |t.held| == n - 1 && |t.posts| == t.arrived == |t.msgs| == t.next == t.invalidated == k + 1
    ensures t.landed == t.received == k
  {
    t := AddressRead(s, n, k);
    Kept(t, n);
    t := Step(t, SendStep, n);
    t := Step(t, SendStep, n);
  }

  /** The message lands. */
  lemma MessageLanded(s: State, n: nat, k: nat) returns (t: State)
    requires 0 < n && Reachable(s, n) && s.n == n && s.pc.Idle? && |s.data| == 1 && !s.data[0].bodyLanded && s.back == []
    requires |s.held| == n - 1 && |s.posts| == s.arrived == |s.msgs| == s.next == s.invalidated == k + 1
    requires s.landed == s.received == k
    ensures Reachable(t, n) && t.n == n && t.pc.Idle? && t.data == [] && t.back == [] && |t.held| == n - 1
    ensures |t.posts| == t.arrived == |t.msgs| == t.next == t.invalidated == t.landed == k + 1 && t.received == k
  {
    Kept(s, n);
    assert s.data[0].buf == s.posts[k] < n;
    t := Step(s, DataLands, n);
    assert t.data[1..] == [];
    t := Step(t, DataLands, n);
  }

  /** The message is received. */
  lemma MessageReceived(s: State, n: nat, k: nat) returns (t: State)
    requires 0 < n && Reachable(s, n) && s.n == n && s.pc.Idle? && s.data == [] && s.back == [] && |s.held| == n - 1
    requires |s.posts| == s.arrived == |s.msgs| == s.next == s.invalidated == s.landed == k + 1 && s.received == k
    ensures Reachable(t, n) && Quiet(t, n, k + 1)
  {
    Kept(s, n);
    PolledIffLanded(s);
    t := Step(s, Receive, n);
    Kept(t, n);
  }

  lemma {:induction false} Rounds(n: nat, k: nat) returns (s: State)
    requires 0 < n
    ensures Reachable(s, n) && Quiet(s, n, k)
  {
    if k == 0 {
      s := Begin(n);
    } else {
      s := Rounds(n, k - 1);
      s := BufferPosted(s, n, k - 1);
      s := MessagePosted(s, n, k - 1);
      s := MessageLanded(s, n, k - 1);
      s := MessageReceived(s, n, k - 1);
    }
  }

  /**
   However many buffers there are, a run leads to where the application holds all of them and the receiver sees a
   length: that of a message received before, in a buffer it would hand out a second time.
   */
  lemma StaleReachable(n: nat)
    requires 0 < n
    ensures exists s: State :: Reachable(s, n) && |s.held| == n == |s.bufs| && s.head < |s.rcv| && Polled(s) != 0
              && s.rcv[s.head] in s.held && s.rcv[s.head] in s.cameWith && s.cameWith[s.rcv[s.head]] < s.received
  {
    var s := Rounds(n, n);
    Kept(s, n);
    AllHeldIsStale(s);
  }
}
