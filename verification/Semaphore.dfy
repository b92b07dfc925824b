/**
 The lightweight semaphore with one signalling and one waiting thread, atomic access by atomic access.

 The waiter spins on the count, then takes the count below zero and sleeps in the kernel. When a timed sleep ends
 without a token, it puts the count back, unless the signaller has meanwhile counted it as waiting.
 */
module Semaphore {

  const SPINS := 1024

  /** tryWait, wait(), wait with a positive timeout, and wait(0). */
  datatype Kind = Try | Forever | Timed | NoTime

  datatype WaitPc =
    | Ready
    | TryLoad
    | TryTake
    | Spin(left: nat)
    | SpinTake
    | Take
    | Asleep
    | PutBack
    | TakeAgain
    | TryKernel

  /** Between its two accesses the signaller owes the kernel a token. */
  datatype SignalPc = NoDebt | OwesToken

  /**
   `tokens` is the value of the kernel semaphore. History: `permits` counts what was there initially and what was
   signalled, `granted` the waits that returned true.
   */
  datatype Sema = Sema(count: int, tokens: nat, waiter: WaitPc, kind: Kind, ok: bool, signaller: SignalPc,
                       permits: nat, granted: nat)

  function NewSema(initial: nat): Sema { Sema(initial, 0, Ready, Try, false, NoDebt, initial, 0) }

  datatype Action = CallWait(kind: Kind) | WaitStep | SleepEnds | Signal(n: nat) | PostToken

  function Returns(s: Sema, ok: bool): Sema {
    s.(waiter := Ready, ok := ok, granted := s.granted + if ok then 1 else 0)
  }

  /** SleepEnds is a sleep that ends without a token: a timeout, or an error of the kernel semaphore. */
  predicate Enabled(s: Sema, a: Action) {
    match a
    case CallWait(_) => s.waiter.Ready?
    case WaitStep => !s.waiter.Ready? && (s.waiter.Asleep? ==> s.tokens > 0)
    case SleepEnds => s.waiter.Asleep?
    case Signal(_) => s.signaller.NoDebt?
    case PostToken => s.signaller.OwesToken?
  }

  function Waits(s: Sema): Sema
    requires Enabled(s, WaitStep)
  {
    match s.waiter
    case Ready => s
    case TryLoad =>
      if s.count > 0 then s.(waiter := TryTake)
      else if s.kind.Try? then Returns(s, false)
      else s.(waiter := Spin(SPINS))
    case TryTake => Returns(s.(count := s.count - 1), true)
    case Spin(left) =>
      s.(waiter := if left == 0 then Take else if s.count > 0 then SpinTake else Spin(left - 1))
    case SpinTake => Returns(s.(count := s.count - 1), true)
    case Take =>
      var t := s.(count := s.count - 1);
      if s.count > 0 then Returns(t, true) else t.(waiter := if s.kind.NoTime? then PutBack else Asleep)
    case Asleep => Returns(s.(tokens := s.tokens - 1), true)
    case PutBack =>
      var t := s.(count := s.count + 1);
      if s.count < 0 then Returns(t, false) else t.(waiter := TakeAgain)
    case TakeAgain =>
      s.(count := s.count - 1, waiter := if s.count > 0 then TryKernel else PutBack)
    case TryKernel =>
      if s.tokens > 0 then Returns(s.(tokens := s.tokens - 1), true) else s.(waiter := PutBack)
  }

  function Apply(s: Sema, a: Action): Sema
    requires Enabled(s, a)
  {
    match a
    case CallWait(kind) => s.(waiter := TryLoad, kind := kind)
    case WaitStep => Waits(s)
    case SleepEnds => s.(waiter := PutBack)
    case Signal(n) =>
      s.(count := s.count + n, permits := s.permits + n, signaller := if s.count < 0 then OwesToken else NoDebt)
    case PostToken => s.(tokens := s.tokens + 1, signaller := NoDebt)
  }

  // ----- The invariant -----

  /** The waiter has lowered the count and does not know yet whether that gave it a permit. */
  predicate Counted(s: Sema) { s.waiter.Asleep? || s.waiter.PutBack? || s.waiter.TryKernel? }

  /** Tokens for the waiter, those in the kernel and the one owed. */
  function Tokens(s: Sema): int { s.tokens + if s.signaller.OwesToken? then 1 else 0 }

  predicate Inv(s: Sema) {
    && s.permits == s.granted + s.count + (if Counted(s) then 1 else 0)
    && s.count >= (if Counted(s) then -1 else 0)
    && Tokens(s) == (if (Counted(s) && s.count >= 0) || s.waiter.TakeAgain? then 1 else 0)
    && (s.waiter.TryTake? || s.waiter.SpinTake? || s.waiter.TakeAgain? ==> s.count >= 1)
    && (s.waiter.TryKernel? ==> s.count >= 0)
  }

  /** Every step keeps the invariant, except a signal of zero permits to a waiter that was counted. */
  lemma StepKeeps(s: Sema, a: Action)
    requires Inv(s) && Enabled(s, a)
    ensures a.Signal? && a.n == 0 && s.count < 0 <==> !Inv(Apply(s, a))
  {
  }

  // ----- Runs -----

  predicate IsNext(s: Sema, a: Action, t: Sema) { Enabled(s, a) && t == Apply(s, a) }

  ghost predicate Follows(run: seq<Sema>, acts: seq<Action>, initial: nat) {
    && |run| == |acts| + 1 && run[0] == NewSema(initial)
    && (forall i, j {:trigger run[i], run[j]} :: 0 <= i < |acts| && j == i + 1 ==> IsNext(run[i], acts[i], run[j]))
  }

  /** A run in which zero permits are never signalled. */
  ghost predicate IsRun(run: seq<Sema>, acts: seq<Action>, initial: nat) {
    Follows(run, acts, initial) && forall i :: 0 <= i < |acts| ==> acts[i] != Signal(0)
  }

  lemma {:induction false} RunKeepsInvariant(run: seq<Sema>, acts: seq<Action>, initial: nat, k: nat)
    requires IsRun(run, acts, initial) && k < |run|
    ensures Inv(run[k])
  {
    if k > 0 {
      RunKeepsInvariant(run, acts, initial, k - 1);
      assert IsNext(run[k - 1], acts[k - 1], run[k]);
      StepKeeps(run[k - 1], acts[k - 1]);
    }
  }

  /** What was signalled by the first k actions, and how many waits returned true during them. */
  function Signalled(acts: seq<Action>, k: nat): nat
    requires k <= |acts|
  {
    if k == 0 then 0 else Signalled(acts, k - 1) + match acts[k - 1] case Signal(n) => n case _ => 0
  }

  function Granted(run: seq<Sema>, acts: seq<Action>, k: nat): nat
    requires k <= |acts| < |run|
  {
    if k == 0 then 0
    else
      var grants := acts[k - 1].WaitStep? && run[k].waiter.Ready? && run[k].ok;
      Granted(run, acts, k - 1) + (if grants then 1 else 0)
  }

  lemma {:induction false} CountsAreExact(run: seq<Sema>, acts: seq<Action>, initial: nat, k: nat)
    requires IsRun(run, acts, initial) && k < |run|
    ensures run[k].permits == initial + Signalled(acts, k) && run[k].granted == Granted(run, acts, k)
  {
    if k > 0 {
      CountsAreExact(run, acts, initial, k - 1);
      assert IsNext(run[k - 1], acts[k - 1], run[k]);
    }
  }

  /**
   The permits are conserved: none is granted twice, none is lost, the count falls no lower than -1, and there is at
   most one token, none while no one waits. The assertion in signal, which looks at the count, holds.
   */
  lemma PermitsConserved(run: seq<Sema>, acts: seq<Action>, initial: nat, k: nat)
    requires IsRun(run, acts, initial) && k < |run|
    ensures var s, left := run[k], initial + Signalled(acts, k) - Granted(run, acts, k);
            && left >= 0 && s.count >= -1 && s.count == left - (if Counted(s) then 1 else 0)
            && 0 <= Tokens(s) <= 1 && (s.waiter.Ready? ==> Tokens(s) == 0 && s.count == left)
  {
    CountsAreExact(run, acts, initial, k);
    RunKeepsInvariant(run, acts, initial, k);
  }

  /** No wakeup is lost: a sleeper with neither a token nor the prospect of one has nothing to wake up for. */
  lemma SleeperMissesNothing(run: seq<Sema>, acts: seq<Action>, initial: nat, k: nat)
    requires IsRun(run, acts, initial) && k < |run| && run[k].waiter.Asleep?
    ensures Tokens(run[k]) == 0 <==> initial + Signalled(acts, k) == Granted(run, acts, k)
  {
    PermitsConserved(run, acts, initial, k);
    RunKeepsInvariant(run, acts, initial, k);
  }

  /** A wait that returns false does so at a moment when all permits are granted. */
  lemma FailsOnlyWithoutPermits(run: seq<Sema>, acts: seq<Action>, initial: nat, k: nat)
    requires IsRun(run, acts, initial) && k < |acts|
    requires acts[k].WaitStep? && run[k + 1].waiter.Ready? && !run[k + 1].ok
    ensures initial + Signalled(acts, k) == Granted(run, acts, k)
  {
    PermitsConserved(run, acts, initial, k);
    RunKeepsInvariant(run, acts, initial, k);
    assert IsNext(run[k], acts[k], run[k + 1]);
  }

  /** How often the waiter still has to take a step before it returns, and what, when nobody else does one. */
  predicate ReturnsIn(s: Sema, steps: nat, ok: bool)
    decreases steps
  {
    if steps == 0 then s.waiter.Ready? && s.ok == ok
    else !s.waiter.Ready? && Enabled(s, WaitStep) && ReturnsIn(Waits(s), steps - 1, ok)
  }

  /**
   The repair loop only waits for the signaller's post: as long as that is owed, three steps lead round to where they
   began, and nothing keeps the signaller from posting. Once it has posted, or was not counting on the waiter, the loop
   returns after three steps with a permit, or after one without.
   */
  lemma RepairEnds(s: Sema)
    requires Inv(s) && s.waiter.PutBack?
    ensures s.signaller.NoDebt? ==> if s.count < 0 then ReturnsIn(s, 1, false) else ReturnsIn(s, 3, true)
    ensures s.signaller.OwesToken? ==>
              && Enabled(s, WaitStep) && Enabled(Waits(s), WaitStep) && Enabled(Waits(Waits(s)), WaitStep)
              && Waits(Waits(Waits(s))) == s
              && Enabled(s, PostToken) && ReturnsIn(Apply(s, PostToken), 3, true)
  {
    if s.signaller.NoDebt? {
      RepairReturns(s);
    } else {
      RepairTurns(s);
      RepairReturns(Apply(s, PostToken));
    }
  }

  lemma RepairTurns(s: Sema)
    requires Inv(s) && s.waiter.PutBack? && s.signaller.OwesToken?
    ensures Enabled(s, WaitStep) && Enabled(Waits(s), WaitStep) && Enabled(Waits(Waits(s)), WaitStep)
    ensures Waits(Waits(Waits(s))) == s
    ensures Enabled(s, PostToken) && Inv(Apply(s, PostToken)) && Apply(s, PostToken).count >= 0
  {
  }

  lemma RepairReturns(s: Sema)
    requires Inv(s) && s.waiter.PutBack? && s.signaller.NoDebt?
    ensures if s.count < 0 then ReturnsIn(s, 1, false) else ReturnsIn(s, 3, true)
  {
    var t := Waits(s);
    if s.count < 0 {
      assert ReturnsIn(t, 0, false);
    } else {
      assert ReturnsIn(Waits(Waits(t)), 0, true);
      assert ReturnsIn(Waits(t), 1, true);
      assert ReturnsIn(t, 2, true);
    }
  }

  /**
   A sleep that ends without a token, by its timeout, is over for good: unless a post is owed the wait returns within
   three accesses, and otherwise within three once that is done; it returns false if the signaller has not counted it.
   */
  lemma TimeoutReturns(run: seq<Sema>, acts: seq<Action>, initial: nat, k: nat)
    requires IsRun(run, acts, initial) && k < |acts| && acts[k].SleepEnds?
    ensures var t := run[k + 1];
            && (t.signaller.NoDebt? ==> if t.count < 0 then ReturnsIn(t, 1, false) else ReturnsIn(t, 3, true))
            && (t.signaller.OwesToken? ==> Enabled(t, PostToken) && ReturnsIn(Apply(t, PostToken), 3, true))
  {
    assert IsNext(run[k], acts[k], run[k + 1]);
    RunKeepsInvariant(run, acts, initial, k + 1);
    RepairEnds(run[k + 1]);
  }

  // ----- Waits get done -----

  /** How many of the steps from i up to j are the waiter's. */
  function WaitSteps(acts: seq<Action>, i: nat, j: nat): nat
    requires i <= j <= |acts|
  {
    if i == j then 0 else WaitSteps(acts, i, j - 1) + if acts[j - 1].WaitStep? then 1 else 0
  }

  /** A waiter that is awake stays where it is until it takes a step. */
  lemma {:induction false} WaiterStays(run: seq<Sema>, acts: seq<Action>, initial: nat, i: nat, j: nat)
    requires Follows(run, acts, initial) && i <= j < |run| && WaitSteps(acts, i, j) == 0
    requires !run[i].waiter.Ready? && !run[i].waiter.Asleep?
    ensures run[j].waiter == run[i].waiter && run[j].kind == run[i].kind
  {
    if i < j {
      WaiterStays(run, acts, initial, i, j - 1);
      assert IsNext(run[j - 1], acts[j - 1], run[j]);
    }
  }

  /** A tryWait returns with its first access, at step i and with false, exactly if that sees no permit. */
  lemma TryWaitLoads(run: seq<Sema>, acts: seq<Action>, initial: nat, call: nat, i: nat)
    requires Follows(run, acts, initial) && call < i < |acts| && acts[call] == CallWait(Try)
    requires acts[i].WaitStep? && WaitSteps(acts, call + 1, i) == 0
    ensures run[i].count <= 0 <==> run[i + 1].waiter.Ready?
    ensures run[i].count <= 0 ==> !run[i + 1].ok
  {
    assert IsNext(run[call], acts[call], run[call + 1]);
    WaiterStays(run, acts, initial, call + 1, i);
    assert IsNext(run[i], acts[i], run[i + 1]);
  }

  /** Otherwise it returns true with its second access, at step j, and has taken a permit. */
  lemma TryWaitTakes(run: seq<Sema>, acts: seq<Action>, initial: nat, call: nat, i: nat, j: nat)
    requires Follows(run, acts, initial) && call < i < j < |acts| && acts[call] == CallWait(Try)
    requires acts[i].WaitStep? && WaitSteps(acts, call + 1, i) == 0 && run[i].count > 0
    requires acts[j].WaitStep? && WaitSteps(acts, i + 1, j) == 0
    ensures run[j + 1].waiter.Ready? && run[j + 1].ok && run[j + 1].count == run[j].count - 1
  {
    assert IsNext(run[call], acts[call], run[call + 1]);
    WaiterStays(run, acts, initial, call + 1, i);
    assert IsNext(run[i], acts[i], run[i + 1]);
    WaiterStays(run, acts, initial, i + 1, j);
    assert IsNext(run[j], acts[j], run[j + 1]);
  }

  /** A wait that sees a permit at step i while it spins returns true with its next access, at step j. */
  lemma SpinTakes(run: seq<Sema>, acts: seq<Action>, initial: nat, i: nat, j: nat)
    requires Follows(run, acts, initial) && i < j < |acts| && run[i].waiter.Spin? && run[i].waiter.left > 0 && run[i].count > 0
    requires acts[i].WaitStep? && acts[j].WaitStep? && WaitSteps(acts, i + 1, j) == 0
    ensures run[j + 1].waiter.Ready? && run[j + 1].ok && run[j + 1].count == run[j].count - 1
  {
    assert IsNext(run[i], acts[i], run[i + 1]);
    WaiterStays(run, acts, initial, i + 1, j);
    assert IsNext(run[j], acts[j], run[j + 1]);
  }

  /** A tryWait is never further than its two accesses, and only a wait without limit or with a positive one sleeps. */
  predicate KindOk(s: Sema) {
    && (s.kind.Try? ==> s.waiter.Ready? || s.waiter.TryLoad? || s.waiter.TryTake?)
    && (s.waiter.Asleep? ==> s.kind.Forever? || s.kind.Timed?)
  }

  lemma {:induction false} KindsInRun(run: seq<Sema>, acts: seq<Action>, initial: nat, k: nat)
    requires Follows(run, acts, initial) && k < |run|
    ensures KindOk(run[k])
  {
    if k > 0 {
      KindsInRun(run, acts, initial, k - 1);
      assert IsNext(run[k - 1], acts[k - 1], run[k]);
    }
  }

  /** What the last wait called within the first k steps asks for. */
  function LastKind(acts: seq<Action>, k: nat): Kind
    requires k <= |acts|
  {
    if k == 0 then Try else match acts[k - 1] case CallWait(kind) => kind case _ => LastKind(acts, k - 1)
  }

  lemma {:induction false} KindIsCalled(run: seq<Sema>, acts: seq<Action>, initial: nat, k: nat)
    requires Follows(run, acts, initial) && k < |run|
    ensures run[k].kind == LastKind(acts, k)
  {
    if k > 0 {
      KindIsCalled(run, acts, initial, k - 1);
      assert IsNext(run[k - 1], acts[k - 1], run[k]);
    }
  }

  /** A tryWait and a wait with a timeout of zero never sleep. */
  lemma OnlyTimeSleeps(run: seq<Sema>, acts: seq<Action>, initial: nat, k: nat)
    requires Follows(run, acts, initial) && k < |run| && (LastKind(acts, k).Try? || LastKind(acts, k).NoTime?)
    ensures !run[k].waiter.Asleep?
  {
    KindsInRun(run, acts, initial, k);
    KindIsCalled(run, acts, initial, k);
  }

  /** How many accesses a wait has left before it returns, sleeps, or has to put the count back. */
  function SpinRank(w: WaitPc): nat {
    match w
    case TryLoad => SPINS + 3
    case Spin(left) => left + 2
    case TryTake => 1
    case SpinTake => 1
    case Take => 1
    case _ => 0
  }

  lemma WaitLowers(s: Sema, a: Action)
    requires Enabled(s, a) && SpinRank(s.waiter) > 0
    ensures SpinRank(Apply(s, a).waiter) <= SpinRank(s.waiter) - if a.WaitStep? then 1 else 0
  {
  }

  ghost predicate Spinning(run: seq<Sema>, i: nat, j: nat) { forall l :: i <= l <= j < |run| ==> SpinRank(run[l].waiter) > 0 }

  lemma {:induction false} SpinsCounted(run: seq<Sema>, acts: seq<Action>, initial: nat, i: nat, j: nat)
    requires Follows(run, acts, initial) && i <= j < |run| && Spinning(run, i, j)
    ensures WaitSteps(acts, i, j) + SpinRank(run[j].waiter) <= SpinRank(run[i].waiter)
  {
    if i < j {
      SpinsCounted(run, acts, initial, i, j - 1);
      assert IsNext(run[j - 1], acts[j - 1], run[j]);
      WaitLowers(run[j - 1], acts[j - 1]);
    }
  }

  /** Of the accesses of a wait, whatever is signalled meanwhile, at most 1027 come before it returns or sleeps or repairs. */
  lemma WaitComesToRest(run: seq<Sema>, acts: seq<Action>, initial: nat, call: nat, k: nat)
    requires Follows(run, acts, initial) && call < k < |run| && acts[call].CallWait?
    requires WaitSteps(acts, call + 1, k) >= SPINS + 3
    ensures exists l :: call < l <= k && (run[l].waiter.Ready? || run[l].waiter.Asleep? || run[l].waiter.PutBack?
                                          || run[l].waiter.TakeAgain? || run[l].waiter.TryKernel?)
  {
    assert IsNext(run[call], acts[call], run[call + 1]);
    if Spinning(run, call + 1, k) {
      SpinsCounted(run, acts, initial, call + 1, k);
    } else {
      var l :| call + 1 <= l <= k && SpinRank(run[l].waiter) == 0;
    }
  }

  /** A signal of zero permits lets any sleeper through for whom there is no permit: one more is granted than there are. */
  lemma ZeroSignalGrants(s: Sema)
    requires Inv(s) && s.waiter.Asleep? && s.signaller.NoDebt? && s.permits == s.granted
    ensures Enabled(Apply(s, Signal(0)), PostToken)
    ensures var t := Apply(Apply(s, Signal(0)), PostToken);
            Enabled(t, WaitStep) && Apply(t, WaitStep).ok && Apply(t, WaitStep).granted == s.permits + 1
  {
  }

  // ----- A run in which a signal of zero permits does so -----

  ghost predicate Reachable(s: Sema, initial: nat) {
    exists run: seq<Sema>, acts: seq<Action> :: Follows(run, acts, initial) && s == run[|run| - 1]
  }

  lemma Step(s: Sema, a: Action, initial: nat) returns (t: Sema)
    requires Reachable(s, initial) && Enabled(s, a)
    ensures t == Apply(s, a) && Reachable(t, initial)
  {
    var run: seq<Sema>, acts: seq<Action> :| Follows(run, acts, initial) && s == run[|run| - 1];
    t := Apply(s, a);
    assert IsNext(s, a, t);
    assert Follows(run + [t], acts + [a], initial);
  }

  /** All permits there are initially are taken, one tryWait after the other. */
  lemma {:induction false} AllTaken(initial: nat, n: nat) returns (s: Sema)
    requires n <= initial
    ensures Reachable(s, initial) && s.waiter.Ready? && s.signaller.NoDebt?
    ensures s.tokens == 0 && s.count == initial - n && s.granted == n && s.permits == initial
  {
    if n == 0 {
      s := NewSema(initial);
      assert Follows([s], [], initial);
    } else {
      s := AllTaken(initial, n - 1);
      s := Step(s, CallWait(Try), initial);
      s := Step(s, WaitStep, initial);
      s := Step(s, WaitStep, initial);
    }
  }

  /** Spinning on a count of zero ends with the access that lowers it. */
  lemma {:induction false} SpinsDown(s: Sema, left: nat, initial: nat) returns (t: Sema)
    requires Reachable(s, initial) && s.waiter == Spin(left) && s.count == 0
    ensures Reachable(t, initial) && t == s.(waiter := Take)
    decreases left
  {
    t := Step(s, WaitStep, initial);
    if left > 0 {
      t := SpinsDown(t, left - 1, initial);
    }
  }

  lemma SleeperReached(initial: nat) returns (s: Sema)
    ensures Reachable(s, initial) && s.waiter.Asleep? && s.signaller.NoDebt? && s.permits == s.granted == initial && Inv(s)
  {
    s := AllTaken(initial, initial);
    s := Step(s, CallWait(Forever), initial);
    s := Step(s, WaitStep, initial);
    s := SpinsDown(s, SPINS, initial);
    s := Step(s, WaitStep, initial);
  }

  /** Whatever the initial count, a run with a signal of zero permits grants one more permit than there are. */
  lemma ZeroSignalReachable(initial: nat)
    ensures exists s: Sema :: Reachable(s, initial) && s.granted > s.permits == initial
  {
    var s := SleeperReached(initial);
    ZeroSignalGrants(s);
    s := Step(s, Signal(0), initial);
    s := Step(s, PostToken, initial);
    s := Step(s, WaitStep, initial);
  }
}
