/**
 The direct-write protocol gets everything through: a sender with a slot gets done, buffers posted reach the sender,
 messages sent reach their buffers, and the receiver takes out just what is left.
 */
module DirectProgress {
  import opened DirectWrite

  // ----- The steps of a run -----

  ghost predicate NextAt(run: seq<State>, acts: seq<Action>, k: nat) {
    k < |acts| && k + 1 < |run| && IsNext(run[k], acts[k], run[k + 1])
  }

  ghost predicate Steps(run: seq<State>, acts: seq<Action>) {
    |run| == |acts| + 1 && forall k: nat {:trigger NextAt(run, acts, k)} :: k < |acts| ==> NextAt(run, acts, k)
  }

  lemma RunSteps(run: seq<State>, acts: seq<Action>, n: nat)
    requires 0 < n && IsRun(run, acts, n)
    ensures Steps(run, acts)
  {
    forall k: nat | k < |acts| ensures NextAt(run, acts, k) {
      assert IsNext(run[k], acts[k], run[k + 1]);
    }
  }

  // ----- A sender with a slot gets done -----

  const SEND_STEPS := 4

  function SendRank(pc: SenderPc): nat {
    match pc
    case Idle => 0
    case Polling => SEND_STEPS
    case ReadAddr => 3
    case Invalidate(_) => 2
    case Post(_) => 1
  }

  lemma RankPositive(pc: SenderPc)
    ensures SendRank(pc) <= SEND_STEPS && (SendRank(pc) == 0 <==> pc.Idle?)
  {
  }

  lemma SendLowers(s: State)
    requires Inv(s) && Enabled(s, SendStep) && s.next < s.arrived
    ensures var t := Sends(s);
            SendRank(t.pc) < SendRank(s.pc) && t.arrived == s.arrived && (!t.pc.Idle? ==> t.next == s.next)
  {
    if s.pc.Polling? {
      NoRefreshLost(s);
    }
  }

  lemma OthersSend(s: State, a: Action)
    requires Enabled(s, a) && !a.SendStep? && !a.CallSend?
    ensures var t := Apply(s, a); t.pc == s.pc && t.next == s.next && t.arrived >= s.arrived
  {
  }

  function SendSteps(acts: seq<Action>, i: nat, j: nat): nat
    requires i <= j <= |acts|
  {
    if i == j then 0 else SendSteps(acts, i, j - 1) + if acts[j - 1].SendStep? then 1 else 0
  }

  ghost predicate Sending(run: seq<State>, i: nat, j: nat) { forall l :: i <= l <= j < |run| ==> !run[l].pc.Idle? }

  lemma {:induction false} SendCounted(run: seq<State>, acts: seq<Action>, n: nat, i: nat, j: nat)
    requires 0 < n && IsRun(run, acts, n) && Steps(run, acts) && i <= j < |run| && Sending(run, i, j)
    requires run[i].next < run[i].arrived
    ensures run[j].next == run[i].next < run[j].arrived
    ensures SendSteps(acts, i, j) + SendRank(run[j].pc) <= SendRank(run[i].pc)
  {
    if i < j {
      SendCounted(run, acts, n, i, j - 1);
      SendNext(run, acts, n, j - 1);
    }
  }

  lemma SendNext(run: seq<State>, acts: seq<Action>, n: nat, k: nat)
    requires 0 < n && IsRun(run, acts, n) && Steps(run, acts) && k < |acts|
    requires !run[k].pc.Idle? && run[k].next < run[k].arrived
    ensures run[k + 1].arrived >= run[k].arrived && (!run[k + 1].pc.Idle? ==> run[k + 1].next == run[k].next)
    ensures SendRank(run[k + 1].pc) <= SendRank(run[k].pc) - if acts[k].SendStep? then 1 else 0
  {
    RunKeepsInvariant(run, acts, n, k);
    assert NextAt(run, acts, k);
    if acts[k].SendStep? { SendLowers(run[k]); } else { OthersSend(run[k], acts[k]); }
  }

  /** A sender whose slot has arrived returns at the latest with its fourth step from then on. */
  lemma SendReturnsInTime(run: seq<State>, acts: seq<Action>, n: nat, i: nat, j: nat)
    requires 0 < n && IsRun(run, acts, n) && i <= j < |run| && run[i].next < run[i].arrived
    requires SendSteps(acts, i, j) >= SEND_STEPS
    ensures exists l :: i <= l <= j && run[l].pc.Idle?
  {
    RunSteps(run, acts, n);
    if Sending(run, i, j) {
      SendCounted(run, acts, n, i, j);
      RankPositive(run[i].pc);
      RankPositive(run[j].pc);
    }
  }

  // ----- The network gets done -----

  /** A write takes two steps, or the one that is left of it. */
  function DataWork(data: seq<Write>): nat {
    if data == [] then 0 else (if data[0].bodyLanded then 1 else 2) + DataWork(data[1..])
  }

  function BackWork(back: seq<Refresh>): nat {
    if back == [] then 0 else (if back[0].addrLanded then 1 else 2) + BackWork(back[1..])
  }

  lemma DataWorkOf(w: Write, rest: seq<Write>)
    ensures DataWork([w] + rest) == (if w.bodyLanded then 1 else 2) + DataWork(rest)
  {
    assert ([w] + rest)[1..] == rest;
  }

  lemma BackWorkOf(w: Refresh, rest: seq<Refresh>)
    ensures BackWork([w] + rest) == (if w.addrLanded then 1 else 2) + BackWork(rest)
  {
    assert ([w] + rest)[1..] == rest;
  }

  lemma {:induction false} DataWorkAdded(data: seq<Write>, w: Write)
    ensures DataWork(data + [w]) == DataWork(data) + if w.bodyLanded then 1 else 2
  {
    if data == [] {
      assert [] + [w] == [w];
      DataWorkOf(w, []);
    } else {
      assert (data + [w])[1..] == data[1..] + [w];
      DataWorkAdded(data[1..], w);
    }
  }

  lemma {:induction false} BackWorkAdded(back: seq<Refresh>, w: Refresh)
    ensures BackWork(back + [w]) == BackWork(back) + if w.addrLanded then 1 else 2
  {
    if back == [] {
      assert [] + [w] == [w];
      BackWorkOf(w, []);
    } else {
      assert (back + [w])[1..] == back[1..] + [w];
      BackWorkAdded(back[1..], w);
    }
  }

  lemma DataInside(s: State)
    requires Inv(s) && s.data != []
    ensures s.data[0].buf < |s.bufs|
  {
    assert s.data[0].buf == s.posts[s.landed];
  }

  lemma BackInside(s: State)
    requires Inv(s) && s.back != []
    ensures s.back[0].slot < |s.target|
  {
    assert s.back[0].slot == At(s.arrived, s.n);
  }

  lemma DataLandsLowers(s: State)
    requires s.data != [] && s.data[0].buf < |s.bufs|
    ensures DataWork(DataLanded(s).data) == DataWork(s.data) - 1
  {
    DataWorkOf(s.data[0].(bodyLanded := true), s.data[1..]);
  }

  lemma SlotLandsLowers(s: State)
    requires s.back != [] && s.back[0].slot < |s.target|
    ensures BackWork(SlotLanded(s).back) == BackWork(s.back) - 1
  {
    BackWorkOf(s.back[0].(addrLanded := true), s.back[1..]);
  }

  lemma PostAdds(s: State)
    requires Enabled(s, SendStep)
    ensures DataWork(Sends(s).data) == DataWork(s.data) + (if Sends(s).pc.Idle? then 2 else 0) && Sends(s).back == s.back
  {
    if s.pc.Post? {
      DataWorkAdded(s.data, Write(s.pc.addr, s.sending, false));
    }
  }

  lemma FreeAdds(s: State, buf: nat)
    requires Enabled(s, Free(buf))
    ensures BackWork(FreedNow(s, buf).back) == BackWork(s.back) + 2 && FreedNow(s, buf).data == s.data
  {
    BackWorkAdded(s.back, Refresh(s.tail, buf, false));
  }

  lemma LandsFrame(s: State, a: Action)
    requires Enabled(s, a)
    ensures !a.SlotLands? && !a.Free? ==> Apply(s, a).back == s.back
    ensures !a.DataLands? && !a.SendStep? ==> Apply(s, a).data == s.data
  {
    if a.SendStep? { PostAdds(s); }
  }

  /** What there is left to do for the network changes by what a step adds and does. */
  predicate Works(s: State, a: Action, t: State) {
    && DataWork(t.data) + (if a.DataLands? then 1 else 0) == DataWork(s.data) + (if a.SendStep? && t.pc.Idle? then 2 else 0)
    && BackWork(t.back) + (if a.SlotLands? then 1 else 0) == BackWork(s.back) + (if a.Free? then 2 else 0)
  }

  lemma StepWorks(s: State, a: Action)
    requires Inv(s) && Enabled(s, a)
    ensures Works(s, a, Apply(s, a))
  {
    LandsFrame(s, a);
    match a {
      case SendStep => PostAdds(s);
      case DataLands => DataInside(s); DataLandsLowers(s);
      case SlotLands => BackInside(s); SlotLandsLowers(s);
      case Free(buf) => FreeAdds(s, buf);
      case _ =>
    }
  }

  ghost predicate WorksAt(run: seq<State>, acts: seq<Action>, k: nat) {
    k < |acts| && k + 1 < |run| && Works(run[k], acts[k], run[k + 1])
  }

  lemma WorksInRun(run: seq<State>, acts: seq<Action>, n: nat)
    requires 0 < n && IsRun(run, acts, n)
    ensures forall k: nat {:trigger WorksAt(run, acts, k)} :: k < |acts| ==> WorksAt(run, acts, k)
  {
    RunSteps(run, acts, n);
    forall k: nat | k < |acts| ensures WorksAt(run, acts, k) {
      RunKeepsInvariant(run, acts, n, k);
      assert NextAt(run, acts, k);
      StepWorks(run[k], acts[k]);
    }
  }

  /** How many of the steps from i up to j land something of a message, or of a slot; send a message; free a buffer. */
  function Lands(acts: seq<Action>, i: nat, j: nat): nat
    requires i <= j <= |acts|
  {
    if i == j then 0 else Lands(acts, i, j - 1) + if acts[j - 1].DataLands? then 1 else 0
  }

  function SlotSteps(acts: seq<Action>, i: nat, j: nat): nat
    requires i <= j <= |acts|
  {
    if i == j then 0 else SlotSteps(acts, i, j - 1) + if acts[j - 1].SlotLands? then 1 else 0
  }

  function Posts(run: seq<State>, acts: seq<Action>, i: nat, j: nat): nat
    requires i <= j <= |acts| < |run|
  {
    if i == j then 0 else Posts(run, acts, i, j - 1) + if acts[j - 1].SendStep? && run[j].pc.Idle? then 1 else 0
  }

  function Frees(acts: seq<Action>, i: nat, j: nat): nat
    requires i <= j <= |acts|
  {
    if i == j then 0 else Frees(acts, i, j - 1) + if acts[j - 1].Free? then 1 else 0
  }

  lemma {:induction false} WorkCounted(run: seq<State>, acts: seq<Action>, i: nat, j: nat)
    requires i <= j < |run| == |acts| + 1
    requires forall k: nat {:trigger WorksAt(run, acts, k)} :: k < |acts| ==> WorksAt(run, acts, k)
    ensures DataWork(run[j].data) + Lands(acts, i, j) == DataWork(run[i].data) + 2 * Posts(run, acts, i, j)
    ensures BackWork(run[j].back) + SlotSteps(acts, i, j) == BackWork(run[i].back) + 2 * Frees(acts, i, j)
  {
    if i < j {
      WorkCounted(run, acts, i, j - 1);
      assert WorksAt(run, acts, j - 1);
    }
  }

  /** From the start, two steps of the network for each message sent bring all of them, and so for each buffer freed. */
  lemma NetworkDrains(run: seq<State>, acts: seq<Action>, n: nat, k: nat)
    requires 0 < n && IsRun(run, acts, n) && k < |run|
    ensures Lands(acts, 0, k) <= 2 * |AllSent(run, acts, k)| && SlotSteps(acts, 0, k) <= 2 * Frees(acts, 0, k)
    ensures Lands(acts, 0, k) == 2 * |AllSent(run, acts, k)| <==> run[k].landed == |AllSent(run, acts, k)|
    ensures SlotSteps(acts, 0, k) == 2 * Frees(acts, 0, k) <==> run[k].arrived == Frees(acts, 0, k)
  {
    WorksInRun(run, acts, n);
    WorkCounted(run, acts, 0, k);
    PostsAreSent(run, acts, n, k);
    FreesArePosts(run, acts, n, k);
    RunDelivers(run, acts, n, k);
    RunKeepsInvariant(run, acts, n, k);
  }

  lemma {:induction false} PostsAreSent(run: seq<State>, acts: seq<Action>, n: nat, k: nat)
    requires 0 < n && IsRun(run, acts, n) && k < |run|
    ensures Posts(run, acts, 0, k) == |AllSent(run, acts, k)|
  {
    if k > 0 {
      PostsAreSent(run, acts, n, k - 1);
    }
  }

  // ----- What is freed and what is held -----

  /** The buffers freed within the first k steps, in order. */
  function AllFreed(acts: seq<Action>, k: nat): seq<nat>
    requires k <= |acts|
  {
    if k == 0 then [] else AllFreed(acts, k - 1) + FreedBy(acts[k - 1])
  }

  function FreedBy(a: Action): seq<nat> { if a.Free? then [a.buf] else [] }

  lemma {:induction false} FreesCount(acts: seq<Action>, k: nat)
    requires k <= |acts|
    ensures Frees(acts, 0, k) == |AllFreed(acts, k)|
  {
    if k > 0 {
      FreesCount(acts, k - 1);
    }
  }

  lemma StepPosts(s: State, a: Action)
    requires Enabled(s, a)
    ensures Apply(s, a).posts == s.posts + FreedBy(a)
  {
  }

  lemma {:induction false} FreedArePosted(run: seq<State>, acts: seq<Action>, n: nat, k: nat)
    requires 0 < n && IsRun(run, acts, n) && k < |run|
    ensures run[k].posts == AllFreed(acts, k)
  {
    if k > 0 {
      FreedArePosted(run, acts, n, k - 1);
      assert IsNext(run[k - 1], acts[k - 1], run[k]);
      StepPosts(run[k - 1], acts[k - 1]);
    }
  }

  lemma FreesArePosts(run: seq<State>, acts: seq<Action>, n: nat, k: nat)
    requires 0 < n && IsRun(run, acts, n) && k < |run|
    ensures Frees(acts, 0, k) == |run[k].posts|
  {
    FreesCount(acts, k);
    FreedArePosted(run, acts, n, k);
  }

  lemma StepHeld(s: State, a: Action)
    requires Enabled(s, a)
    ensures var t := Apply(s, a);
            t.held == (if a.Receive? then s.held + {s.rcv[s.head]} else if a.Free? then s.held - {a.buf} else s.held)
  {
  }

  /** The buffers are received in the order in which they were freed, and just those received and not freed since are held. */
  lemma HeldExactly(run: seq<State>, acts: seq<Action>, n: nat, k: nat)
    requires 0 < n && IsRun(run, acts, n) && k < |acts|
    ensures var s, t := run[k], run[k + 1];
            match acts[k]
            case Receive =>
              s.received < |AllFreed(acts, k)| && AllFreed(acts, k)[s.received] !in s.held
              && t.held == s.held + {AllFreed(acts, k)[s.received]}
            case Free(buf) => buf in s.held && t.held == s.held - {buf}
            case _ => t.held == s.held
  {
    RunKeepsInvariant(run, acts, n, k);
    FreedArePosted(run, acts, n, k);
    assert IsNext(run[k], acts[k], run[k + 1]);
    StepHeld(run[k], acts[k]);
    if acts[k].Receive? {
      PolledIffLanded(run[k]);
      ReceiveYields(run[k]);
    }
  }

  // ----- The receiver gets all of it -----

  lemma LandedNow(s: State)
    requires Inv(s) && s.landed == |s.msgs|
    ensures Enabled(s, Receive) <==> |s.held| < s.n && s.received < |s.msgs|
  {
    if |s.held| < s.n {
      PolledIffLanded(s);
    }
  }

  function Receives(acts: seq<Action>, i: nat, j: nat): nat
    requires i <= j <= |acts|
  {
    if i == j then 0 else Receives(acts, i, j - 1) + if acts[j - 1].Receive? then 1 else 0
  }

  lemma {:induction false} ReceivedCount(run: seq<State>, acts: seq<Action>, n: nat, k: nat)
    requires 0 < n && IsRun(run, acts, n) && k < |run|
    ensures run[k].received == Receives(acts, 0, k)
  {
    if k > 0 {
      ReceivedCount(run, acts, n, k - 1);
      assert IsNext(run[k - 1], acts[k - 1], run[k]);
      StepSends(run[k - 1], acts[k - 1], run[k]);
    }
  }

  /**
   Each receive takes the next message sent. With all that was sent landed, one is possible exactly while some message
   is not received and some buffer not held; so as many receives as messages are left give exactly these.
   */
  lemma RestReceived(run: seq<State>, acts: seq<Action>, n: nat, k: nat)
    requires 0 < n && IsRun(run, acts, n) && k < |run| && Lands(acts, 0, k) == 2 * |AllSent(run, acts, k)|
    ensures var taken := Receives(acts, 0, k);
            && taken <= |AllSent(run, acts, k)| && AllTaken(run, acts, k) == AllSent(run, acts, k)[..taken]
            && (Enabled(run[k], Receive) <==> |run[k].held| < n && taken < |AllSent(run, acts, k)|)
  {
    NetworkDrains(run, acts, n, k);
    RunDelivers(run, acts, n, k);
    ReceivedCount(run, acts, n, k);
    RunKeepsInvariant(run, acts, n, k);
    SameNumber(run, acts, n, k);
    LandedNow(run[k]);
  }

  lemma {:induction false} SameNumber(run: seq<State>, acts: seq<Action>, n: nat, k: nat)
    requires 0 < n && IsRun(run, acts, n) && k < |run|
    ensures run[k].n == n
  {
    if k > 0 {
      SameNumber(run, acts, n, k - 1);
      assert IsNext(run[k - 1], acts[k - 1], run[k]);
      NumberStays(run[k - 1], acts[k - 1]);
    }
  }

  lemma NumberStays(s: State, a: Action)
    requires Enabled(s, a)
    ensures Apply(s, a).n == s.n
  {
  }
}
