/** The blocking queue's calls get done: how many steps of its own each may take, and when a try_dequeue gives up. */
module BlockingProgress {
  import SpscQueue
  import opened BlockingQueue
  import P = SpscProgress
  import S = Semaphore

  // ----- The steps of a run -----

  ghost predicate NextAt(run: seq<State>, acts: seq<Action>, k: nat) {
    k < |acts| && k + 1 < |run| && IsNext(run[k], acts[k], run[k + 1]) && S.KindOk(run[k].sema)
  }

  ghost predicate Steps(run: seq<State>, acts: seq<Action>) {
    |run| == |acts| + 1 && forall k: nat {:trigger NextAt(run, acts, k)} :: k < |acts| ==> NextAt(run, acts, k)
  }

  lemma RunSteps(run: seq<State>, acts: seq<Action>, requested: nat, maxBlock: nat)
    requires 2 <= maxBlock && IsRun(run, acts, requested, maxBlock)
    ensures Steps(run, acts)
  {
    forall k: nat | k < |acts| ensures NextAt(run, acts, k) {
      assert IsNext(run[k], acts[k], run[k + 1]);
      WaitKinds(run, acts, requested, maxBlock, k);
    }
  }

  // ----- Steps left -----

  const TRY_DEQUEUE_STEPS := P.DEQUEUE_STEPS + 2
  const ENQUEUE_STEPS := P.ENQUEUE_STEPS + 2

  /** How many steps of its own a consumer may still take, in a try_dequeue, a peek, or once its wait is granted. */
  function ConsLeft(b: State): nat {
    match b.cons
    case Free => 0
    case Acquiring => if b.sema.waiter.TryLoad? then TRY_DEQUEUE_STEPS else TRY_DEQUEUE_STEPS - 1
    case _ => P.ConsRank(b.inner.cons.pc)
  }

  function ProdLeft(b: State): nat {
    match b.prod
    case Idle => 0
    case Enqueueing => P.ProdRank(b.inner.prod.pc) + 2
    case Signalling => 2
    case Posting => 1
  }

  /** Where the consumer is in its call. */
  predicate SameConsumer(b: State, c: State) {
    c.cons == b.cons && c.inner.cons == b.inner.cons && c.sema.waiter == b.sema.waiter && c.sema.kind == b.sema.kind
  }

  lemma AcquiringLowers(b: State)
    requires Enabled(b, Consumer) && b.cons.Acquiring? && b.sema.kind.Try? && S.KindOk(b.sema)
    ensures var c := Apply(b, Consumer); ConsLeft(c) < ConsLeft(b) && (c.cons.Acquiring? ==> c.sema.kind.Try?)
  {
  }

  lemma DequeuingLowers(b: State)
    requires Enabled(b, Consumer) && !b.cons.Acquiring?
    ensures var c := Apply(b, Consumer); ConsLeft(c) < ConsLeft(b) && !c.cons.Acquiring?
  {
    P.ConsumerAdvances(b.inner, SpscQueue.Consume);
    P.RankPositive(b.inner.cons.pc, b.inner.prod.pc);
  }

  lemma ProducerLeavesConsumer(b: State, a: Action)
    requires Enabled(b, a) && (a.Producer? || a.NoMemory? || a.CallEnqueue?)
    ensures SameConsumer(b, Apply(b, a))
  {
    if a.CallEnqueue? || b.prod.Enqueueing? {
      P.ConsumerAdvances(b.inner, if a.CallEnqueue? then SpscQueue.CallEnqueue(a.elem, a.canAlloc)
                                  else if a.Producer? then SpscQueue.Produce else SpscQueue.AllocFails);
    }
  }

  /** A consumer that does not wait for long. */
  predicate Brisk(b: State) { b.cons.Acquiring? ==> b.sema.kind.Try? }

  /** Its steps lower what is left, and no other step changes it. */
  lemma ConsumerGoesOn(b: State, a: Action)
    requires Enabled(b, a) && !b.cons.Free? && Brisk(b) && S.KindOk(b.sema)
    ensures var c := Apply(b, a); Brisk(c) && if a.Consumer? then ConsLeft(c) < ConsLeft(b) else SameConsumer(b, c)
  {
    if a.Consumer? {
      if b.cons.Acquiring? { AcquiringLowers(b); } else { DequeuingLowers(b); }
    } else if a.Producer? || a.NoMemory? || a.CallEnqueue? {
      ProducerLeavesConsumer(b, a);
    }
  }

  lemma EnqueueingLowers(b: State)
    requires Enabled(b, Producer) && b.prod.Enqueueing?
    ensures ProdLeft(Apply(b, Producer)) < ProdLeft(b)
  {
    P.ProducerAdvances(b.inner, SpscQueue.Produce);
    P.RankPositive(b.inner.cons.pc, b.inner.prod.pc);
  }

  lemma SignallingLowers(b: State, a: Action)
    requires Enabled(b, a) && ((a.Producer? && !b.prod.Enqueueing?) || a.NoMemory?)
    ensures ProdLeft(Apply(b, a)) < ProdLeft(b)
  {
  }

  lemma ConsumerLeavesProducer(b: State, a: Action)
    requires Enabled(b, a) && !a.Producer? && !a.NoMemory? && !a.CallEnqueue?
    ensures Apply(b, a).prod == b.prod && Apply(b, a).inner.prod == b.inner.prod
  {
    if a.Consumer? && !b.cons.Acquiring? {
      P.ProducerAdvances(b.inner, SpscQueue.Consume);
    }
  }

  lemma ProducerGoesOn(b: State, a: Action)
    requires Enabled(b, a) && !b.prod.Idle?
    ensures ProdLeft(Apply(b, a)) <= ProdLeft(b) - if a.Producer? || a.NoMemory? then 1 else 0
  {
    if a.Producer? && b.prod.Enqueueing? {
      EnqueueingLowers(b);
    } else if a.Producer? || a.NoMemory? {
      SignallingLowers(b, a);
    } else {
      ConsumerLeavesProducer(b, a);
    }
  }

  // ----- Calls in a run -----

  /** How many of the steps from i up to j are the consumer's, or the producer's. */
  function ConsSteps(acts: seq<Action>, i: nat, j: nat): nat
    requires i <= j <= |acts|
  {
    if i == j then 0 else ConsSteps(acts, i, j - 1) + if acts[j - 1].Consumer? then 1 else 0
  }

  function ProdSteps(acts: seq<Action>, i: nat, j: nat): nat
    requires i <= j <= |acts|
  {
    if i == j then 0 else ProdSteps(acts, i, j - 1) + if acts[j - 1].Producer? || acts[j - 1].NoMemory? then 1 else 0
  }

  ghost predicate ConsBusy(run: seq<State>, i: nat, j: nat) { forall l :: i <= l <= j < |run| ==> !run[l].cons.Free? }

  ghost predicate ProdBusy(run: seq<State>, i: nat, j: nat) { forall l :: i <= l <= j < |run| ==> !run[l].prod.Idle? }

  lemma {:induction false} ConsCounted(run: seq<State>, acts: seq<Action>, i: nat, j: nat)
    requires Steps(run, acts) && i <= j < |run| && ConsBusy(run, i, j) && Brisk(run[i])
    ensures Brisk(run[j]) && ConsSteps(acts, i, j) + ConsLeft(run[j]) <= ConsLeft(run[i])
  {
    if i < j {
      ConsCounted(run, acts, i, j - 1);
      assert NextAt(run, acts, j - 1);
      ConsumerGoesOn(run[j - 1], acts[j - 1]);
    }
  }

  lemma {:induction false} ProdCounted(run: seq<State>, acts: seq<Action>, i: nat, j: nat)
    requires Steps(run, acts) && i <= j < |run| && ProdBusy(run, i, j)
    ensures ProdSteps(acts, i, j) + ProdLeft(run[j]) <= ProdLeft(run[i])
  {
    if i < j {
      ProdCounted(run, acts, i, j - 1);
      assert NextAt(run, acts, j - 1);
      ProducerGoesOn(run[j - 1], acts[j - 1]);
    }
  }

  lemma BusyHasLeft(b: State)
    requires Phases(b)
    ensures !b.cons.Free? ==> ConsLeft(b) > 0
    ensures !b.prod.Idle? ==> ProdLeft(b) > 0
  {
    P.RankPositive(b.inner.cons.pc, b.inner.prod.pc);
  }

  lemma PhasesInRun(run: seq<State>, acts: seq<Action>, requested: nat, maxBlock: nat, k: nat)
    requires 2 <= maxBlock && 1 <= requested && IsRun(run, acts, requested, maxBlock) && k < |run|
    ensures Phases(run[k]) && S.Inv(run[k].sema) && Covered(run[k])
  {
    RunKeepsInvariant(run, acts, requested, maxBlock, k);
  }

  /** Whatever the producer does: a try_dequeue or a peek returns at the latest with its fifteenth step. */
  lemma TryReturnsInTime(run: seq<State>, acts: seq<Action>, requested: nat, maxBlock: nat, call: nat, k: nat)
    requires 2 <= maxBlock && 1 <= requested && IsRun(run, acts, requested, maxBlock) && call < k <= |acts|
    requires acts[call] == CallDequeue(S.Try) || acts[call].CallPeek?
    requires ConsSteps(acts, call + 1, k) >= TRY_DEQUEUE_STEPS
    ensures exists l :: call < l <= k && run[l].cons.Free?
  {
    RunSteps(run, acts, requested, maxBlock);
    assert NextAt(run, acts, call);
    if ConsBusy(run, call + 1, k) {
      ConsCounted(run, acts, call + 1, k);
      PhasesInRun(run, acts, requested, maxBlock, k);
      BusyHasLeft(run[k]);
    }
  }

  /** Whatever the consumer does: an enqueue or try_enqueue returns at the latest with its thirteenth step. */
  lemma EnqueueReturnsInTime(run: seq<State>, acts: seq<Action>, requested: nat, maxBlock: nat, call: nat, k: nat)
    requires 2 <= maxBlock && 1 <= requested && IsRun(run, acts, requested, maxBlock) && call < k <= |acts|
    requires acts[call].CallEnqueue? && ProdSteps(acts, call + 1, k) >= ENQUEUE_STEPS
    ensures exists l :: call < l <= k && run[l].prod.Idle?
  {
    RunSteps(run, acts, requested, maxBlock);
    assert NextAt(run, acts, call);
    if ProdBusy(run, call + 1, k) {
      ProdCounted(run, acts, call + 1, k);
      PhasesInRun(run, acts, requested, maxBlock, k);
      BusyHasLeft(run[k]);
    }
  }

  // ----- When a try_dequeue gives up -----

  lemma TryDecides(b: State)
    requires S.Inv(b.sema) && Phases(b) && Covered(b) && Enabled(b, Consumer)
    requires b.cons.Acquiring? && b.sema.kind.Try? && b.sema.waiter.TryLoad?
    ensures Apply(b, Consumer).cons.Free? <==> SpscQueue.Queued(b.inner.q) == if b.prod.Signalling? then 1 else 0
  {
  }

  /**
   A try_dequeue returns false exactly if, when it first looks, nothing is queued but what the producer has yet to
   signal, and then with that step.
   */
  lemma TryFailsIffNone(run: seq<State>, acts: seq<Action>, requested: nat, maxBlock: nat, call: nat, k: nat)
    requires 2 <= maxBlock && 1 <= requested && IsRun(run, acts, requested, maxBlock) && call < k < |acts|
    requires acts[call] == CallDequeue(S.Try) && acts[k].Consumer? && ConsSteps(acts, call + 1, k) == 0
    ensures run[k + 1].cons.Free? <==> SpscQueue.Queued(run[k].inner.q) == if run[k].prod.Signalling? then 1 else 0
  {
    RunSteps(run, acts, requested, maxBlock);
    assert NextAt(run, acts, call) && NextAt(run, acts, k);
    ConsStays(run, acts, call + 1, k);
    PhasesInRun(run, acts, requested, maxBlock, k);
    TryDecides(run[k]);
  }

  /** A consumer that takes no step stays where it is. */
  lemma {:induction false} ConsStays(run: seq<State>, acts: seq<Action>, i: nat, j: nat)
    requires Steps(run, acts) && i <= j < |run| && !run[i].cons.Free? && Brisk(run[i]) && ConsSteps(acts, i, j) == 0
    ensures SameConsumer(run[i], run[j])
  {
    if i < j {
      ConsStays(run, acts, i, j - 1);
      assert NextAt(run, acts, j - 1);
      ConsumerGoesOn(run[j - 1], acts[j - 1]);
    }
  }

  // ----- Who returns without an element -----

  /** What the last dequeue called within the first k steps asks for. */
  function LastWait(acts: seq<Action>, k: nat): S.Kind
    requires k <= |acts|
  {
    if k == 0 then S.Try else if acts[k - 1].CallDequeue? then acts[k - 1].kind else LastWait(acts, k - 1)
  }

  lemma WaitNext(b: State, a: Action)
    requires Enabled(b, a)
    ensures Apply(b, a).sema.kind == if a.CallDequeue? then a.kind else b.sema.kind
  {
  }

  lemma {:induction false} WaitIsCalled(run: seq<State>, acts: seq<Action>, k: nat)
    requires Steps(run, acts) && k < |run| && run[0].sema.kind == S.Try
    ensures run[k].sema.kind == LastWait(acts, k)
  {
    if k > 0 {
      WaitIsCalled(run, acts, k - 1);
      assert NextAt(run, acts, k - 1);
      WaitNext(run[k - 1], acts[k - 1]);
    }
  }

  lemma GivesUp(b: State, a: Action)
    requires S.Inv(b.sema) && Phases(b) && Covered(b) && Enabled(b, a) && b.cons.Acquiring? && Apply(b, a).cons.Free?
    ensures a.Consumer? && !b.sema.kind.Forever? && SpscQueue.Queued(b.inner.q) == if b.prod.Signalling? then 1 else 0
  {
  }

  /**
   A dequeue returns without an element only if it is not a wait_dequeue without limit, and then at a moment when
   nothing is queued but what the producer has yet to signal.
   */
  lemma GivesUpOnlyWithoutElements(run: seq<State>, acts: seq<Action>, requested: nat, maxBlock: nat, k: nat)
    requires 2 <= maxBlock && 1 <= requested && IsRun(run, acts, requested, maxBlock) && k < |acts|
    requires run[k].cons.Acquiring? && run[k + 1].cons.Free?
    ensures acts[k].Consumer? && !LastWait(acts, k).Forever?
    ensures SpscQueue.Queued(run[k].inner.q) == if run[k].prod.Signalling? then 1 else 0
  {
    RunSteps(run, acts, requested, maxBlock);
    assert NextAt(run, acts, k);
    WaitIsCalled(run, acts, k);
    PhasesInRun(run, acts, requested, maxBlock, k);
    GivesUp(run[k], acts[k]);
  }

  /** The consumer is in the repair loop of its wait: awake, and with a step to take. */
  predicate Repairing(b: State) {
    b.cons.Acquiring? && (b.sema.waiter.PutBack? || b.sema.waiter.TakeAgain? || b.sema.waiter.TryKernel?)
  }

  lemma RepairStep(b: State)
    requires Phases(b) && S.Inv(b.sema) && Repairing(b)
    ensures Enabled(b, Consumer)
    ensures var c := Apply(b, Consumer);
            Repairing(c) || c.cons.Dequeuing? || (c.cons.Free? && !b.sema.kind.Forever?)
            || (c.cons.Acquiring? && c.sema.waiter.TryLoad? && b.sema.kind.Forever?)
  {
  }

  /**
   A sleep that ends without a token leaves the consumer awake. When nothing has been signalled to it, a wait with a
   timeout returns with its next step, and wait_dequeue begins again.
   */
  lemma WakeUpGoesOn(run: seq<State>, acts: seq<Action>, requested: nat, maxBlock: nat, k: nat)
    requires 2 <= maxBlock && 1 <= requested && IsRun(run, acts, requested, maxBlock) && k < |acts| && acts[k].WakeUp?
    ensures Repairing(run[k + 1]) && Enabled(run[k + 1], Consumer)
    ensures run[k + 1].sema.count < 0 ==>
              var c := Apply(run[k + 1], Consumer);
              if LastWait(acts, k).Forever? then c.cons.Acquiring? && c.sema.waiter.TryLoad? else c.cons.Free?
  {
    RunSteps(run, acts, requested, maxBlock);
    assert NextAt(run, acts, k);
    WaitIsCalled(run, acts, k);
    PhasesInRun(run, acts, requested, maxBlock, k + 1);
    RepairStep(run[k + 1]);
    WaitNext(run[k], acts[k]);
    if run[k + 1].sema.count < 0 {
      TimedOut(run[k + 1]);
    }
  }

  lemma TimedOut(b: State)
    requires Enabled(b, Consumer) && b.cons.Acquiring? && b.sema.waiter.PutBack? && b.sema.count < 0
    ensures var c := Apply(b, Consumer);
            if b.sema.kind.Forever? then c.cons.Acquiring? && c.sema.waiter.TryLoad? else c.cons.Free?
  {
  }
}
