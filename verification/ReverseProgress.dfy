/**
 Messages get through the reversed ring: what is sent lands in a fixed number of steps, and then the receiver, freeing
 each region before the next, takes out just what is left.
 */
module ReverseProgress {
  import opened Bytes
  import opened ReverseRing
  import opened ReverseWrite
  import RingBuffer

  // ----- The steps of a run -----

  ghost predicate NextAt(run: seq<State>, acts: seq<Action>, k: nat) {
    k < |acts| && k + 1 < |run| && IsNext(run[k], acts[k], run[k + 1])
  }

  ghost predicate Steps(run: seq<State>, acts: seq<Action>) {
    |run| == |acts| + 1 && forall k: nat {:trigger NextAt(run, acts, k)} :: k < |acts| ==> NextAt(run, acts, k)
  }

  lemma RunSteps(run: seq<State>, acts: seq<Action>, length: nat)
    requires IsRun(run, acts, length)
    ensures Steps(run, acts)
  {
    forall k: nat | k < |acts| ensures NextAt(run, acts, k) {
      assert IsNext(run[k], acts[k], run[k + 1]);
    }
  }

  // ----- The network gets done -----

  function PutWork(w: Put): nat { if w.bytes == [] then 1 else |w.bytes| }

  /** How many steps it takes to land these writes: one for each byte. */
  function Work(net: seq<Put>): nat { if net == [] then 0 else PutWork(net[0]) + Work(net[1..]) }

  lemma WorkOf(w: Put, rest: seq<Put>)
    ensures Work([w] + rest) == PutWork(w) + Work(rest)
  {
    assert ([w] + rest)[1..] == rest;
  }

  lemma DeliverLowers(s: State)
    requires s.net != [] && s.mem != []
    ensures Work(Delivered(s).net) == Work(s.net) - 1
  {
    var w, rest := s.net[0], s.net[1..];
    if |w.bytes| > 1 {
      WorkOf(Put(w.off + 1, w.bytes[1..]), rest);
    }
  }

  function Delivers(acts: seq<Action>, i: nat, j: nat): nat
    requires i <= j <= |acts|
  {
    if i == j then 0 else Delivers(acts, i, j - 1) + if acts[j - 1].Deliver? then 1 else 0
  }

  predicate NoneSent(acts: seq<Action>, i: nat, j: nat) { forall k :: i <= k < j <= |acts| ==> !acts[k].Send? }

  lemma OthersNet(s: State, a: Action)
    requires Enabled(s, a) && !a.Send? && !a.Deliver?
    ensures Apply(s, a).net == s.net
  {
  }

  lemma {:induction false} WorkDone(run: seq<State>, acts: seq<Action>, i: nat, j: nat)
    requires Steps(run, acts) && i <= j < |run| && NoneSent(acts, i, j)
    ensures Delivers(acts, i, j) + Work(run[j].net) == Work(run[i].net)
  {
    if i < j {
      WorkDone(run, acts, i, j - 1);
      assert NextAt(run, acts, j - 1);
      if acts[j - 1].Deliver? { DeliverLowers(run[j - 1]); } else { OthersNet(run[j - 1], acts[j - 1]); }
    }
  }

  /** What is on its way has landed after just as many steps of the network as it has bytes. */
  lemma NetworkDrains(run: seq<State>, acts: seq<Action>, length: nat, i: nat, j: nat)
    requires IsRun(run, acts, length) && i <= j < |run| && NoneSent(acts, i, j)
    ensures Delivers(acts, i, j) <= Work(run[i].net)
    ensures Delivers(acts, i, j) == Work(run[i].net) <==> run[j].net == []
  {
    RunSteps(run, acts, length);
    WorkDone(run, acts, i, j);
  }

  // ----- The receiver gets all of it -----

  lemma LandedNow(s: State)
    requires Inv(s) && s.net == []
    ensures s.landed == |s.msgs|
    ensures Enabled(s, Receive) <==> s.held == [] && s.received < |s.msgs|
  {
    PolledIffLanded(s);
    CellIsSmall(s.cuts[s.received], |s.mem|);
  }

  /** With nothing on its way all messages have landed, and with none in use there is one to receive while any is left. */
  lemma DrainedIsLanded(run: seq<State>, acts: seq<Action>, length: nat, k: nat)
    requires 0 < length && IsRun(run, acts, length) && k < |run| && run[k].net == []
    ensures run[k].landed == |AllSent(acts, k)|
    ensures Enabled(run[k], Receive) <==> run[k].held == [] && run[k].received < |AllSent(acts, k)|
  {
    RunKeepsInvariant(run, acts, length, k);
    RunDelivers(run, acts, length, k);
    LandedNow(run[k]);
  }

  function Receives(acts: seq<Action>, i: nat, j: nat): nat
    requires i <= j <= |acts|
  {
    if i == j then 0 else Receives(acts, i, j - 1) + if acts[j - 1].Receive? then 1 else 0
  }

  lemma NothingSent(s: State, a: Action)
    requires Enabled(s, a) && s.net == [] && !a.Send?
    ensures Apply(s, a).net == []
  {
    OthersNet(s, a);
  }

  lemma {:induction false} StaysDrained(run: seq<State>, acts: seq<Action>, i: nat, j: nat)
    requires Steps(run, acts) && i <= j < |run| && NoneSent(acts, i, j) && run[i].net == []
    ensures run[j].net == []
  {
    if i < j {
      StaysDrained(run, acts, i, j - 1);
      assert NextAt(run, acts, j - 1);
      NothingSent(run[j - 1], acts[j - 1]);
    }
  }

  lemma ReceiveCounts(run: seq<State>, acts: seq<Action>, length: nat, k: nat)
    requires 0 < length && IsRun(run, acts, length) && k < |acts|
    ensures run[k + 1].received == run[k].received + if acts[k].Receive? then 1 else 0
  {
    RunKeepsInvariant(run, acts, length, k);
    assert IsNext(run[k], acts[k], run[k + 1]);
    if acts[k].Receive? { ReceiveYields(run[k]); } else { NotReceived(run[k], acts[k], run[k + 1]); }
  }

  lemma {:induction false} ReceivedCount(run: seq<State>, acts: seq<Action>, length: nat, i: nat, j: nat)
    requires 0 < length && IsRun(run, acts, length) && i <= j < |run|
    ensures run[j].received == run[i].received + Receives(acts, i, j)
  {
    if i < j {
      ReceivedCount(run, acts, length, i, j - 1);
      ReceiveCounts(run, acts, length, j - 1);
    }
  }

  /**
   From there on each receive takes the next message there is, and one is possible whenever the last one is freed, until
   all are taken: as many receives as messages are left give exactly the rest of what was sent.
   */
  lemma RestReceived(run: seq<State>, acts: seq<Action>, length: nat, i: nat, j: nat)
    requires 0 < length && IsRun(run, acts, length) && i <= j < |run| && run[i].net == [] && NoneSent(acts, i, j)
    ensures var taken := run[i].received + Receives(acts, i, j);
            && taken <= |AllSent(acts, j)| && AllTaken(run, acts, j) == AllSent(acts, j)[..taken]
            && (Enabled(run[j], Receive) <==> run[j].held == [] && taken < |AllSent(acts, j)|)
  {
    RunSteps(run, acts, length);
    StaysDrained(run, acts, i, j);
    ReceivedCount(run, acts, length, i, j);
    DrainedIsLanded(run, acts, length, j);
    RunDelivers(run, acts, length, j);
  }

  // ----- What is in use -----

  lemma FreedAll(s: State)
    requires Inv(s) && Enabled(s, Free)
    ensures var t := FreedNow(s); Counts(t) && t.held == [] && t.ring.head == Offset(t.cuts[t.received], |t.mem|)
  {
    FreeKeeps(s);
  }

  lemma OthersHeld(s: State, a: Action)
    requires Enabled(s, a) && !a.Free? && !a.Receive?
    ensures Apply(s, a).held == s.held
  {
  }

  /** A receive brings one region into use, and the free that has to come before the next makes the head what is read next. */
  lemma InUseExactly(run: seq<State>, acts: seq<Action>, length: nat, k: nat)
    requires 0 < length && IsRun(run, acts, length) && k < |acts|
    ensures var s, t := run[k], run[k + 1];
            match acts[k]
            case Receive => s.held == [] && |t.held| == 1
            case Free => |s.held| == 1 && t.held == [] && Counts(t) && t.ring.head == Offset(t.cuts[t.received], length)
            case _ => t.held == s.held
    ensures Enabled(run[k], Free) <==> run[k].held != []
  {
    RunKeepsInvariant(run, acts, length, k);
    MessagesFit(run, acts, length, k + 1);
    assert IsNext(run[k], acts[k], run[k + 1]);
    match acts[k] {
      case Receive => ReceiveKeeps(run[k]);
      case Free => FreedAll(run[k]);
      case _ => OthersHeld(run[k], acts[k]);
    }
  }
}
