/**
 Waiting for sends on a direct-write connection that also receives.

 Both directions share the queue of send completions. Wait polls it until it has seen the awaited id or a later one;
 Free drains it before it posts the freed buffer, whose own completion has the id 0. A completion is polled once, so
 Free may take the one that Wait needs. One thread sends and waits, one receives and frees; their steps interleave.
 */
module DirectWait {

  datatype Sender = Idle | Waiting(id: nat)

  /**
   `pending` are the ids of what was posted and not polled, oldest first, of which the first `there` have completed.
   History: `lost` is the last send whose completion Free has taken.
   */
  datatype State = State(pending: seq<nat>, there: nat, ackd: nat, next: nat, sender: Sender, freeing: bool, lost: nat)

  function Start(): State { State([], 0, 0, 1, Idle, false, 0) }

  datatype Action = Send | Complete | CallWait(id: nat) | WaitStep | CallFree | FreeStep

  /** Wait spins while no completion is there; only ids of sends are waited for. */
  predicate Enabled(s: State, a: Action) {
    match a
    case Send => s.sender.Idle?
    case Complete => s.there < |s.pending|
    case CallWait(id) => s.sender.Idle? && id < s.next
    case WaitStep => s.sender.Waiting? && (s.ackd < s.sender.id ==> 0 < s.there <= |s.pending|)
    case CallFree => !s.freeing
    case FreeStep => s.freeing && s.there <= |s.pending|
  }

  function Apply(s: State, a: Action): State
    requires Enabled(s, a)
  {
    match a
    case Send => s.(pending := s.pending + [s.next], next := s.next + 1)
    case Complete => s.(there := s.there + 1)
    case CallWait(id) => s.(sender := Waiting(id))
    case WaitStep =>
      if s.ackd >= s.sender.id then s.(sender := Idle)
      else s.(ackd := s.pending[0], pending := s.pending[1..], there := s.there - 1)
    case CallFree => s.(freeing := true)
    case FreeStep =>
      if s.there == 0 then s.(pending := s.pending + [0], freeing := false)
      else
        s.(pending := s.pending[1..], there := s.there - 1, lost := if s.pending[0] > 0 then s.pending[0] else s.lost)
  }

  /** Sends complete in order; those to come are later than the last one Free has taken. */
  predicate InOrder(pending: seq<nat>, next: nat, lost: nat) {
    && (forall i :: 0 <= i < |pending| ==> pending[i] < next && (pending[i] > 0 ==> lost < pending[i]))
    && (forall i, j :: 0 <= i < j < |pending| && 0 < pending[j] ==> pending[i] < pending[j])
  }

  /** The completion of the newest send is still to come, or was polled by Wait, or by Free. */
  predicate Inv(s: State) {
    && s.there <= |s.pending| && 1 <= s.next && s.ackd < s.next && s.lost < s.next && InOrder(s.pending, s.next, s.lost)
    && (s.next - 1 in s.pending || s.lost == s.next - 1 || s.ackd == s.next - 1)
    && (s.sender.Waiting? ==> s.sender.id < s.next)
  }

  lemma FirstPolled(pending: seq<nat>, next: nat, lost: nat)
    requires InOrder(pending, next, lost) && pending != []
    ensures InOrder(pending[1..], next, lost) && pending[0] < next
    ensures pending[0] > 0 ==> InOrder(pending[1..], next, pending[0])
    ensures forall n: nat :: n in pending ==> n == pending[0] || n in pending[1..]
  {
  }

  lemma OnePosted(pending: seq<nat>, next: nat, lost: nat)
    requires InOrder(pending, next, lost) && lost < next
    ensures InOrder(pending + [next], next + 1, lost) && next in pending + [next]
    ensures InOrder(pending + [0], next, lost)
    ensures forall n: nat :: n in pending ==> n in pending + [0]
  {
  }

  lemma SendKeeps(s: State)
    requires Inv(s) && Enabled(s, Send)
    ensures Inv(Apply(s, Send))
  {
    OnePosted(s.pending, s.next, s.lost);
  }

  lemma WaitStepKeeps(s: State)
    requires Inv(s) && Enabled(s, WaitStep)
    ensures Inv(Apply(s, WaitStep))
  {
    if s.ackd < s.sender.id {
      FirstPolled(s.pending, s.next, s.lost);
    }
  }

  lemma FreeStepKeeps(s: State)
    requires Inv(s) && Enabled(s, FreeStep)
    ensures Inv(Apply(s, FreeStep))
  {
    OnePosted(s.pending, s.next, s.lost);
    if s.there > 0 {
      FirstPolled(s.pending, s.next, s.lost);
    }
  }

  lemma StepKeeps(s: State, a: Action)
    requires Inv(s) && Enabled(s, a)
    ensures Inv(Apply(s, a))
  {
    match a {
      case Send => SendKeeps(s);
      case WaitStep => WaitStepKeeps(s);
      case FreeStep => FreeStepKeeps(s);
      case _ =>
    }
  }

  // ----- When a sender waits in vain -----

  /** The sender waits, and none of the completions to come lets it go on. */
  predicate Stuck(s: State) {
    && s.sender.Waiting? && s.ackd < s.sender.id
    && forall i :: 0 <= i < |s.pending| ==> s.pending[i] < s.sender.id
  }

  /** A waiting sender waits in vain exactly if Free has taken the completion of the newest send. */
  lemma StuckIff(s: State)
    requires Inv(s) && s.sender.Waiting? && s.ackd < s.sender.id
    ensures Stuck(s) <==> s.lost == s.next - 1
  {
    if s.lost == s.next - 1 {
      forall i | 0 <= i < |s.pending| ensures s.pending[i] < s.sender.id {
        assert s.pending[i] == 0;
      }
    } else {
      var i :| 0 <= i < |s.pending| && s.pending[i] == s.next - 1;
    }
  }

  /** It then waits for good: nothing anyone does changes that, and no completion is left that could. */
  lemma StuckForGood(s: State, a: Action)
    requires Stuck(s) && Enabled(s, a)
    ensures Stuck(Apply(s, a)) && Apply(s, a).sender == s.sender
  {
  }

  /** Only Free can do that to a sender: taking a completion from it, or having taken it before it waits. */
  lemma OnlyFreeStarves(s: State, a: Action)
    requires Inv(s) && Enabled(s, a) && !Stuck(s) && !(a.FreeStep? && s.there > 0) && (a.CallWait? ==> s.lost < s.next - 1)
    ensures !Stuck(Apply(s, a))
  {
    if a.CallWait? {
      if s.ackd < a.id {
        StepKeeps(s, a);
        StuckIff(Apply(s, a));
      }
    } else if s.sender.Waiting? && s.ackd < s.sender.id {
      var i :| 0 <= i < |s.pending| && s.pending[i] >= s.sender.id;
      assert a.WaitStep? && i > 0 ==> s.pending[1..][i - 1] == s.pending[i];
      assert (s.pending + [0])[i] == s.pending[i];
    }
  }

  /** Otherwise a waiting sender goes on as soon as a completion is there, and each poll leaves fewer to come. */
  lemma WaitGoesOn(s: State)
    requires Inv(s) && s.sender.Waiting? && !Stuck(s)
    ensures Enabled(s, WaitStep) || Enabled(s, Complete)
    ensures Enabled(s, WaitStep) ==>
              var t := Apply(s, WaitStep);
              (t.sender.Idle? && s.ackd >= s.sender.id) || (|t.pending| < |s.pending| && !Stuck(t) && t.sender == s.sender)
  {
    if Enabled(s, WaitStep) && s.ackd < s.sender.id {
      var i :| 0 <= i < |s.pending| && s.pending[i] >= s.sender.id;
      assert i > 0 ==> s.pending[1..][i - 1] == s.pending[i];
    }
  }

  // ----- Runs -----

  predicate IsNext(s: State, a: Action, t: State) { Enabled(s, a) && t == Apply(s, a) }

  ghost predicate IsRun(run: seq<State>, acts: seq<Action>) {
    && |run| == |acts| + 1 && run[0] == Start()
    && forall i, j {:trigger run[i], run[j]} :: 0 <= i < |acts| && j == i + 1 ==> IsNext(run[i], acts[i], run[j])
  }

  lemma {:induction false} RunKeepsInvariant(run: seq<State>, acts: seq<Action>, k: nat)
    requires IsRun(run, acts) && k < |run|
    ensures Inv(run[k])
  {
    if k > 0 {
      RunKeepsInvariant(run, acts, k - 1);
      assert IsNext(run[k - 1], acts[k - 1], run[k]);
      StepKeeps(run[k - 1], acts[k - 1]);
    }
  }

  lemma {:induction false} NothingLost(run: seq<State>, acts: seq<Action>, from: nat, k: nat)
    requires IsRun(run, acts) && from <= k < |run| && forall i :: from <= i < k ==> !acts[i].FreeStep?
    ensures run[k].lost == run[from].lost
  {
    if from < k {
      NothingLost(run, acts, from, k - 1);
      assert IsNext(run[k - 1], acts[k - 1], run[k]);
    }
  }

  /** If nothing is freed between a send and the wait for it, the wait comes to an end. */
  lemma NoFreeNoStarvation(run: seq<State>, acts: seq<Action>, from: nat, k: nat)
    requires IsRun(run, acts) && from < k < |run| && acts[from].Send? && run[k].sender == Waiting(run[from].next)
    requires forall i :: from < i < k ==> !acts[i].FreeStep?
    ensures !Stuck(run[k])
  {
    RunKeepsInvariant(run, acts, from);
    RunKeepsInvariant(run, acts, k);
    NothingLost(run, acts, from, k);
    if run[k].ackd < run[k].sender.id {
      StuckIff(run[k]);
    }
  }

  /** How many of the first k steps complete something, and how many poll a completion. */
  function Completed(acts: seq<Action>, k: nat): nat
    requires k <= |acts|
  {
    if k == 0 then 0 else Completed(acts, k - 1) + if acts[k - 1].Complete? then 1 else 0
  }

  function Polled(run: seq<State>, acts: seq<Action>, k: nat): nat
    requires k <= |acts| < |run|
  {
    if k == 0 then 0 else Polled(run, acts, k - 1) + if |run[k].pending| < |run[k - 1].pending| then 1 else 0
  }

  /** Each completion is polled once: those there are those completed and not polled. */
  lemma {:induction false} PolledOnce(run: seq<State>, acts: seq<Action>, k: nat)
    requires IsRun(run, acts) && k < |run|
    ensures run[k].there == Completed(acts, k) - Polled(run, acts, k)
  {
    if k > 0 {
      PolledOnce(run, acts, k - 1);
      RunKeepsInvariant(run, acts, k - 1);
      assert IsNext(run[k - 1], acts[k - 1], run[k]);
    }
  }

  /** Step l polls the completion of this id, which is there. */
  ghost predicate TakenAt(run: seq<State>, acts: seq<Action>, l: nat, id: nat) {
    && l < |acts| < |run| && acts[l].WaitStep? && run[l].pending != [] && run[l].there > 0 && run[l].pending[0] == id
    && |run[l + 1].pending| < |run[l].pending|
  }

  /** What the sender has acknowledged is the id of a completion that Wait has polled. */
  lemma {:induction false} AckdIsPolled(run: seq<State>, acts: seq<Action>, k: nat)
    requires IsRun(run, acts) && k < |run|
    ensures run[k].ackd == 0 || exists l: nat :: l < k && TakenAt(run, acts, l, run[k].ackd)
  {
    if k > 0 {
      AckdIsPolled(run, acts, k - 1);
      RunKeepsInvariant(run, acts, k - 1);
      assert IsNext(run[k - 1], acts[k - 1], run[k]);
      if run[k].ackd != run[k - 1].ackd {
        assert TakenAt(run, acts, k - 1, run[k].ackd);
      }
    }
  }

  lemma {:induction false} WaitsFor(run: seq<State>, acts: seq<Action>, call: nat, k: nat)
    requires IsRun(run, acts) && call < k < |run| && acts[call].CallWait?
    requires forall l :: call < l <= k ==> run[l].sender.Waiting?
    ensures run[k].sender.id == acts[call].id
  {
    assert IsNext(run[k - 1], acts[k - 1], run[k]);
    if call + 1 < k {
      WaitsFor(run, acts, call, k - 1);
    }
  }

  /** Wait returns only once it has polled a completion of the send it waits for, or of a later one. */
  lemma WaitReturnsAcked(run: seq<State>, acts: seq<Action>, call: nat, k: nat)
    requires IsRun(run, acts) && call < k < |acts| && acts[call].CallWait?
    requires (forall l :: call < l <= k ==> run[l].sender.Waiting?) && run[k + 1].sender.Idle?
    ensures acts[call].id == 0 || exists l: nat, id: nat :: l < k && acts[call].id <= id && TakenAt(run, acts, l, id)
  {
    WaitsFor(run, acts, call, k);
    AckdIsPolled(run, acts, k);
    assert IsNext(run[k], acts[k], run[k + 1]);
  }

  /** A free takes what has completed, one after the other, posts its buffer behind what is left, and is done. */
  lemma {:induction false} FreeEnds(run: seq<State>, acts: seq<Action>, i: nat, n: nat)
    requires IsRun(run, acts) && i + n < |acts| && run[i].freeing && n == run[i].there
    requires forall k :: i <= k <= i + n ==> acts[k].FreeStep?
    ensures n <= |run[i].pending| && !run[i + n + 1].freeing && run[i + n + 1].pending == run[i].pending[n..] + [0]
    decreases n
  {
    assert IsNext(run[i], acts[i], run[i + 1]);
    if n > 0 {
      FreeEnds(run, acts, i + 1, n - 1);
      assert run[i].pending[1..][n - 1..] == run[i].pending[n..];
    } else {
      assert run[i].pending[0..] == run[i].pending;
    }
  }

  ghost predicate Reachable(s: State) {
    exists run: seq<State>, acts: seq<Action> :: IsRun(run, acts) && s == run[|run| - 1]
  }

  lemma Step(s: State, a: Action) returns (t: State)
    requires Reachable(s) && Enabled(s, a)
    ensures t == Apply(s, a) && Reachable(t)
  {
    var run: seq<State>, acts: seq<Action> :| IsRun(run, acts) && s == run[|run| - 1];
    t := Apply(s, a);
    assert IsNext(s, a, t);
    assert IsRun(run + [t], acts + [a]);
  }

  /** A message is sent and completes, a buffer is freed, and then the sender waits for its message: in vain. */
  lemma StuckReachable()
    ensures exists s: State :: Reachable(s) && Stuck(s)
  {
    var s := Start();
    assert IsRun([s], []);
    s := Step(s, Send);
    s := Step(s, Complete);
    s := Step(s, CallFree);
    s := Step(s, FreeStep);
    s := Step(s, FreeStep);
    s := Step(s, CallWait(1));
  }
}
