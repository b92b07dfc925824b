/**
 The serving thread of the shared receive queue gets round: each of its calls returns within a fixed number of steps,
 the calls that return go round all queues, and what waits in a queue is collected or posted within as many rounds.
 */
module ReceiveProgress {
  import opened ReceiveQueue
  import opened ReceivePool
  import Q = SpscQueue
  import R = SpscRuns
  import B = BlockingQueue
  import P = SpscProgress

  // ----- What a step does to one queue -----

  datatype Touch = Untouched | By(act: Q.Action)

  /** How the step a touches queue c. */
  function TouchOf(s: State, a: Action, c: nat): Touch
    requires c < |s.queues|
  {
    match a
    case StubCall(d, id) => if d == c then By(Q.CallEnqueue(id, false)) else Untouched
    case StubStep(d) => if d == c then By(Q.Produce) else Untouched
    case Serve =>
      if s.turn != c then Untouched
      else if s.queues[c].cons.pc.CIdle? then By(Q.CallDequeue(Q.Dequeue)) else By(Q.Consume)
    case _ => Untouched
  }

  /** Queue c of t is what the touch makes of that of s. */
  predicate Touches(s: State, touch: Touch, t: State, c: nat)
    requires c < |s.queues|
  {
    && c < |t.queues|
    && if touch.Untouched? then t.queues[c] == s.queues[c]
       else Q.Enabled(s.queues[c], touch.act) && t.queues[c] == Q.Apply(s.queues[c], touch.act)
  }

  lemma StubTouches(s: State, a: Action, c: nat)
    requires Enabled(s, a) && c < |s.queues| && !a.Serve?
    ensures Touches(s, TouchOf(s, a, c), Apply(s, a), c)
  {
  }

  lemma ServeTouches(s: State, c: nat)
    requires Enabled(s, Serve) && c < |s.queues|
    ensures Touches(s, TouchOf(s, Serve, c), Apply(s, Serve), c)
  {
  }

  lemma QueueTouched(s: State, a: Action, c: nat)
    requires Enabled(s, a) && c < |s.queues|
    ensures Touches(s, TouchOf(s, a, c), Apply(s, a), c)
  {
    if a.Serve? { ServeTouches(s, c); } else { StubTouches(s, a, c); }
  }

  // ----- The steps of a run -----

  ghost predicate NextAt(run: seq<State>, acts: seq<Action>, k: nat) {
    k < |acts| && k + 1 < |run| && IsNext(run[k], acts[k], run[k + 1])
  }

  /** A run, one step at a time, without where it starts but for whose turn it is. */
  ghost predicate Steps(run: seq<State>, acts: seq<Action>) {
    && |run| == |acts| + 1 && run[0].turn == 0
    && forall k: nat {:trigger NextAt(run, acts, k)} :: k < |acts| ==> NextAt(run, acts, k)
  }

  lemma RunSteps(run: seq<State>, acts: seq<Action>, base: nat, size: nat, n: nat)
    requires IsRun(run, acts, base, size, n)
    ensures Steps(run, acts)
  {
    forall k: nat | k < |acts| ensures NextAt(run, acts, k) {
      assert IsNext(run[k], acts[k], run[k + 1]);
    }
  }

  // ----- The calls that return -----

  predicate ReturnsFrom(s: State, t: State, c: nat) {
    c < |s.queues| && c < |t.queues| && !s.queues[c].cons.pc.CIdle? && t.queues[c].cons.pc.CIdle?
  }

  /** Those of the first k queues from which a dequeue returns in the step from s to t. */
  function Returning(s: State, t: State, k: nat): seq<nat> {
    if k == 0 then [] else Returning(s, t, k - 1) + if ReturnsFrom(s, t, k - 1) then [k - 1] else []
  }

  /** The queues from which dequeues returned in the steps from i up to j, one after the other. */
  function ReturnedCalls(run: seq<State>, i: nat, j: nat): seq<nat>
    requires i <= j < |run|
  {
    if i == j then [] else ReturnedCalls(run, i, j - 1) + Returning(run[j - 1], run[j], |run[j - 1].queues|)
  }

  /** How many of the steps from i up to j are the serving thread's. */
  function ServeSteps(acts: seq<Action>, i: nat, j: nat): nat
    requires i <= j <= |acts|
  {
    if i == j then 0 else ServeSteps(acts, i, j - 1) + if acts[j - 1].Serve? then 1 else 0
  }

  lemma {:induction false} NoneReturning(s: State, t: State, k: nat)
    requires forall c: nat :: c < k ==> !ReturnsFrom(s, t, c)
    ensures Returning(s, t, k) == []
  {
    if k > 0 {
      NoneReturning(s, t, k - 1);
    }
  }

  lemma {:induction false} OneReturning(s: State, t: State, c: nat, k: nat)
    requires c < k && ReturnsFrom(s, t, c) && forall d: nat :: d < k && d != c ==> !ReturnsFrom(s, t, d)
    ensures Returning(s, t, k) == [c]
  {
    if k == c + 1 {
      NoneReturning(s, t, c);
    } else {
      OneReturning(s, t, c, k - 1);
    }
  }

  lemma CallsKeepConsumer(q: Q.State, a: Q.Action)
    requires Q.Enabled(q, a) && (a.Produce? || a.CallEnqueue?)
    ensures Q.Apply(q, a).cons == q.cons
  {
    P.ConsumerAdvances(q, a);
  }

  /** Only from the queue that is served a call returns. */
  lemma OthersStay(s: State, a: Action, c: nat)
    requires Enabled(s, a) && c < |s.queues| && !(a.Serve? && c == s.turn)
    ensures c < |Apply(s, a).queues| && Apply(s, a).queues[c].cons == s.queues[c].cons
  {
    QueueTouched(s, a, c);
    if TouchOf(s, a, c).By? {
      CallsKeepConsumer(s.queues[c], TouchOf(s, a, c).act);
    }
  }

  // ----- Every call returns -----

  /** The call and the steps of one dequeue. */
  const SERVE_STEPS: nat := 14

  /** How many steps the serving thread may still take before a call returns. */
  function StepsLeft(s: State): nat {
    if s.turn >= |s.queues| || s.queues[s.turn].cons.pc.CIdle? then SERVE_STEPS
    else P.ConsRank(s.queues[s.turn].cons.pc)
  }

  /** t follows s: the served queue's call has returned and the next one is due, or it is a step closer to it. */
  predicate ServeAdvances(s: State, t: State) {
    && s.turn < |s.queues| == |t.queues|
    && (forall c: nat :: c < |s.queues| && c != s.turn ==> !ReturnsFrom(s, t, c))
    && if ReturnsFrom(s, t, s.turn) then t.turn == (if s.turn + 1 == |s.queues| then 0 else s.turn + 1)
       else t.turn == s.turn && StepsLeft(t) < StepsLeft(s)
  }

  lemma RankBounded(pc: Q.ConsPc)
    ensures P.ConsRank(pc) < SERVE_STEPS && (P.ConsRank(pc) == 0 <==> pc.CIdle?)
  {
  }

  lemma NextTurn(turn: nat, n: nat)
    requires turn < n
    ensures (turn + 1) % n == if turn + 1 == n then 0 else turn + 1
  {
  }

  lemma ServeMovesTurn(s: State)
    requires Enabled(s, Serve)
    ensures var t := Apply(s, Serve);
            && |t.queues| == |s.queues|
            && t.turn == if ReturnsFrom(s, t, s.turn) then (s.turn + 1) % |s.queues| else s.turn
  {
  }

  lemma ServeLowers(q: Q.State)
    requires !q.cons.pc.CIdle?
    ensures P.ConsRank(Q.Apply(q, Q.Consume).cons.pc) < P.ConsRank(q.cons.pc)
  {
    P.ConsumerAdvances(q, Q.Consume);
  }

  lemma ServeStep(s: State)
    requires Enabled(s, Serve)
    ensures ServeAdvances(s, Apply(s, Serve))
  {
    var t := Apply(s, Serve);
    forall c: nat | c < |s.queues| && c != s.turn ensures !ReturnsFrom(s, t, c) {
      OthersStay(s, Serve, c);
    }
    ServeMovesTurn(s);
    NextTurn(s.turn, |s.queues|);
    QueueTouched(s, Serve, s.turn);
    if !s.queues[s.turn].cons.pc.CIdle? {
      ServeLowers(s.queues[s.turn]);
    }
    RankBounded(t.queues[s.turn].cons.pc);
    RankBounded(s.queues[s.turn].cons.pc);
  }

  /** No other step returns from a dequeue or keeps one from returning. */
  predicate OthersOnly(s: State, t: State) {
    && t.turn == s.turn && |s.queues| <= |t.queues| && forall c: nat :: c < |s.queues| ==> t.queues[c].cons == s.queues[c].cons
  }

  lemma OtherStep(s: State, a: Action)
    requires Enabled(s, a) && !a.Serve?
    ensures OthersOnly(s, Apply(s, a))
  {
    forall c: nat | c < |s.queues| ensures c < |Apply(s, a).queues| && Apply(s, a).queues[c].cons == s.queues[c].cons {
      OthersStay(s, a, c);
    }
    QueuesStay(s, a);
  }

  lemma QueuesStay(s: State, a: Action)
    requires Enabled(s, a) && !a.Serve?
    ensures Apply(s, a).turn == s.turn && |Apply(s, a).queues| == |s.queues| + (if a.NewReceiver? then 1 else 0)
  {
  }

  /** What one step adds to the calls returned. */
  lemma ReturningNow(s: State, a: Action, t: State)
    requires IsNext(s, a, t)
    ensures var calls := Returning(s, t, |s.queues|);
            if a.Serve? then ServeAdvances(s, t) && calls == (if ReturnsFrom(s, t, s.turn) then [s.turn] else [])
            else OthersOnly(s, t) && calls == []
  {
    if a.Serve? {
      ServeStep(s);
      if ReturnsFrom(s, t, s.turn) {
        OneReturning(s, t, s.turn, |s.queues|);
      } else {
        NoneReturning(s, t, |s.queues|);
      }
    } else {
      OtherStep(s, a);
      NoneReturning(s, t, |s.queues|);
    }
  }

  /** A serving step uses up one of the steps left, unless it returns. */
  lemma StepCounts(s: State, a: Action, t: State)
    requires IsNext(s, a, t) && s.turn < |s.queues|
    ensures PaidFor(if a.Serve? then 1 else 0, |Returning(s, t, |s.queues|)|, StepsLeft(t), StepsLeft(s))
  {
    ReturningNow(s, a, t);
    LeftNow(s, t);
  }

  lemma LeftNow(s: State, t: State)
    requires s.turn < |s.queues| && (ServeAdvances(s, t) || OthersOnly(s, t))
    ensures t.turn < |t.queues| && StepsLeft(t) <= SERVE_STEPS && 1 <= StepsLeft(s)
    ensures OthersOnly(s, t) ==> StepsLeft(t) == StepsLeft(s)
  {
    RankBounded(t.queues[t.turn].cons.pc);
    RankBounded(s.queues[s.turn].cons.pc);
  }

  lemma LeftBounded(s: State)
    ensures 1 <= StepsLeft(s) <= SERVE_STEPS
  {
    if s.turn < |s.queues| {
      RankBounded(s.queues[s.turn].cons.pc);
    }
  }

  lemma {:induction false} TurnInRange(run: seq<State>, acts: seq<Action>, k: nat)
    requires Steps(run, acts) && k < |run|
    ensures run[k].turn == 0 || run[k].turn < |run[k].queues|
  {
    if k > 0 {
      TurnInRange(run, acts, k - 1);
      assert NextAt(run, acts, k - 1);
      TurnStays(run[k - 1], acts[k - 1], run[k]);
    }
  }

  lemma TurnStays(s: State, a: Action, t: State)
    requires IsNext(s, a, t) && (s.turn == 0 || s.turn < |s.queues|)
    ensures t.turn == 0 || t.turn < |t.queues|
  {
    if a.Serve? { ServeStep(s); } else { QueuesStay(s, a); }
  }

  /** The steps are fourteen for each call, at most, but for what the call at the end and the one at the start had left. */
  predicate PaidFor(steps: nat, calls: nat, left: nat, before: nat) { steps + left <= SERVE_STEPS * calls + before }

  lemma PaidOn(steps: nat, calls: nat, left: nat, before: nat, step: nat, more: nat, after: nat)
    requires PaidFor(steps, calls, left, before) && PaidFor(step, more, after, left)
    ensures PaidFor(steps + step, calls + more, after, before)
  {
  }

  lemma NextGrows(s: State, a: Action, t: State)
    requires IsNext(s, a, t)
    ensures |s.queues| <= |t.queues|
  {
  }

  lemma {:induction false} QueuesOnlyGrow(run: seq<State>, acts: seq<Action>, i: nat, j: nat)
    requires Steps(run, acts) && i <= j < |run|
    ensures |run[i].queues| <= |run[j].queues|
  {
    if i < j {
      QueuesOnlyGrow(run, acts, i, j - 1);
      assert NextAt(run, acts, j - 1);
      NextGrows(run[j - 1], acts[j - 1], run[j]);
    }
  }

  ghost predicate PaysAt(run: seq<State>, acts: seq<Action>, k: nat) {
    && k < |acts| && k + 1 < |run|
    && PaidFor(if acts[k].Serve? then 1 else 0, |Returning(run[k], run[k + 1], |run[k].queues|)|,
               StepsLeft(run[k + 1]), StepsLeft(run[k]))
  }

  lemma {:induction false} StepsCounted(run: seq<State>, acts: seq<Action>, i: nat, j: nat)
    requires i <= j < |run| == |acts| + 1
    requires forall k: nat {:trigger PaysAt(run, acts, k)} :: i <= k < |acts| ==> PaysAt(run, acts, k)
    ensures PaidFor(ServeSteps(acts, i, j), |ReturnedCalls(run, i, j)|, StepsLeft(run[j]), StepsLeft(run[i]))
  {
    if i < j {
      StepsCounted(run, acts, i, j - 1);
      assert PaysAt(run, acts, j - 1);
      var step := if acts[j - 1].Serve? then 1 else 0;
      var calls := Returning(run[j - 1], run[j], |run[j - 1].queues|);
      PaidOn(ServeSteps(acts, i, j - 1), |ReturnedCalls(run, i, j - 1)|, StepsLeft(run[j - 1]), StepsLeft(run[i]),
             step, |calls|, StepsLeft(run[j]));
    }
  }

  lemma AllPaid(run: seq<State>, acts: seq<Action>, i: nat)
    requires Steps(run, acts) && i < |run| && run[i].queues != []
    ensures forall k: nat {:trigger PaysAt(run, acts, k)} :: i <= k < |acts| ==> PaysAt(run, acts, k)
  {
    forall k: nat | i <= k < |acts| ensures PaysAt(run, acts, k) {
      QueuesOnlyGrow(run, acts, i, k);
      TurnInRange(run, acts, k);
      assert NextAt(run, acts, k);
      StepCounts(run[k], acts[k], run[k + 1]);
    }
  }

  /** Whatever the stubs and the network do: of 14 * m steps of the serving thread, m return from a dequeue. */
  lemma ServingReturns(run: seq<State>, acts: seq<Action>, base: nat, size: nat, n: nat, i: nat, j: nat, m: nat)
    requires IsRun(run, acts, base, size, n) && i <= j < |run| && run[i].queues != []
    requires ServeSteps(acts, i, j) >= SERVE_STEPS * m
    ensures |ReturnedCalls(run, i, j)| >= m
  {
    RunSteps(run, acts, base, size, n);
    AllPaid(run, acts, i);
    StepsCounted(run, acts, i, j);
    LeftBounded(run[i]);
    LeftBounded(run[j]);
  }

  // ----- Every queue has its turn -----

  function After(c: nat, n: nat): nat { if c + 1 == n then 0 else c + 1 }

  ghost predicate GoesRound(calls: seq<nat>, n: nat) {
    && (forall k :: 0 <= k < |calls| ==> calls[k] < n)
    && forall k, l {:trigger calls[k], calls[l]} :: 0 <= k < l < |calls| && l == k + 1 ==> calls[l] == After(calls[k], n)
  }

  lemma {:induction false} RoundFrom(calls: seq<nat>, n: nat, k: nat)
    requires GoesRound(calls, n) && k < n && k < |calls|
    ensures calls[k] == if calls[0] + k < n then calls[0] + k else calls[0] + k - n
  {
    if k > 0 {
      RoundFrom(calls, n, k - 1);
      assert calls[k] == After(calls[k - 1], n);
    }
  }

  lemma {:induction false} EachOnce(calls: seq<nat>, n: nat, c: nat)
    requires GoesRound(calls, n) && c < n <= |calls|
    ensures c in calls[..n]
  {
    var k := if calls[0] <= c then c - calls[0] else c + n - calls[0];
    RoundFrom(calls, n, k);
    assert calls[..n][k] == c;
  }

  lemma RoundsFrom(calls: seq<nat>, n: nat, k: nat)
    requires GoesRound(calls, n) && k <= |calls|
    ensures GoesRound(calls[k..], n)
  {
  }

  lemma EachOnceFrom(calls: seq<nat>, n: nat, c: nat, m: nat)
    requires GoesRound(calls, n) && c < n && m + n <= |calls|
    ensures c in calls[m..m + n]
  {
    RoundsFrom(calls, n, m);
    EachOnce(calls[m..], n, c);
    assert calls[m..][..n] == calls[m..m + n];
  }

  /** m times n calls going round n queues are at least m of each. */
  lemma {:induction false} OncePerRound(calls: seq<nat>, n: nat, c: nat, m: nat)
    requires GoesRound(calls, n) && c < n && n * m <= |calls|
    ensures multiset(calls)[c] >= m
    decreases m
  {
    if m > 0 {
      assert n * m == n * (m - 1) + n;
      assert n * (m - 1) >= 0;
      EachOnce(calls, n, c);
      RoundsFrom(calls, n, n);
      OncePerRound(calls[n..], n, c, m - 1);
      assert calls == calls[..n] + calls[n..];
    }
  }

  /** The calls so far go round, and the turn is that of the one after the last. */
  ghost predicate RoundUpTo(calls: seq<nat>, n: nat, turn: nat) {
    GoesRound(calls, n) && (calls != [] ==> turn == After(calls[|calls| - 1], n))
  }

  lemma RoundGoesOn(calls: seq<nat>, s: State, a: Action, t: State)
    requires IsNext(s, a, t) && |s.queues| == |t.queues| && RoundUpTo(calls, |s.queues|, s.turn)
    ensures RoundUpTo(calls + Returning(s, t, |s.queues|), |s.queues|, t.turn)
  {
    ReturningNow(s, a, t);
    RoundAppend(calls, |s.queues|, s.turn);
  }

  lemma RoundAppend(calls: seq<nat>, n: nat, turn: nat)
    requires RoundUpTo(calls, n, turn)
    ensures calls + [] == calls
    ensures turn < n ==> RoundUpTo(calls + [turn], n, After(turn, n))
  {
  }

  lemma {:induction false} CallsGoRound(run: seq<State>, acts: seq<Action>, i: nat, j: nat)
    requires Steps(run, acts) && i <= j < |run| && |run[i].queues| == |run[j].queues|
    ensures RoundUpTo(ReturnedCalls(run, i, j), |run[i].queues|, run[j].turn)
  {
    if i < j {
      QueuesOnlyGrow(run, acts, i, j - 1);
      QueuesOnlyGrow(run, acts, j - 1, j);
      CallsGoRound(run, acts, i, j - 1);
      assert NextAt(run, acts, j - 1);
      RoundGoesOn(ReturnedCalls(run, i, j - 1), run[j - 1], acts[j - 1], run[j]);
    }
  }

  lemma EachServed(run: seq<State>, acts: seq<Action>, i: nat, j: nat, m: nat, c: nat)
    requires Steps(run, acts) && i <= j < |run| && |run[i].queues| == |run[j].queues|
    requires c < |run[i].queues| && m + |run[i].queues| <= |ReturnedCalls(run, i, j)|
    ensures c in ReturnedCalls(run, i, j)[m..m + |run[i].queues|]
  {
    CallsGoRound(run, acts, i, j);
    EachOnceFrom(ReturnedCalls(run, i, j), |run[i].queues|, c, m);
  }

  /** While no receiver is added, of as many returned calls in a row as there are queues each queue has one. */
  lemma EveryQueueServed(run: seq<State>, acts: seq<Action>, base: nat, size: nat, n: nat, i: nat, j: nat, m: nat, c: nat)
    requires IsRun(run, acts, base, size, n) && i <= j < |run| && |run[i].queues| == |run[j].queues|
    requires c < |run[i].queues| && m + |run[i].queues| <= |ReturnedCalls(run, i, j)|
    ensures c in ReturnedCalls(run, i, j)[m..m + |run[i].queues|]
  {
    RunSteps(run, acts, base, size, n);
    EachServed(run, acts, i, j, m, c);
  }

  // ----- What waits is taken -----

  /** What is in a queue, oldest first. */
  function Waiting(q: Q.State): seq<int> {
    if |q.q.deq| <= |q.q.enq| then q.q.enq[|q.q.deq|..] else []
  }

  /**
   After so many dequeues have returned from the queue since it was q0, all that waited then is dequeued, or as much as
   calls were made; and the call that is on, if it was made since then, has seen something waiting.
   */
  predicate Caught(q0: Q.State, q: Q.State, calls: nat) {
    && q0.q.enq <= q.q.enq && q0.q.deq <= q.q.deq
    && (|q.q.deq| >= |q0.q.enq| || |q.q.deq| - |q0.q.deq| >= calls - if q0.cons.pc.CIdle? then 0 else 1)
    && (!q.cons.pc.CIdle? && (q0.cons.pc.CIdle? || calls > 0) && |q.q.deq| < |q0.q.enq| ==> !q.emptySeen)
  }

  /** What a step of the queue does, as far as it matters here. */
  predicate Stepped(q: Q.State, b: Q.Action, r: Q.State) {
    && (b.Consume? ==> !q.cons.pc.CIdle? && R.ConsumerResult(q, r) && (r.cons.pc.CIdle? && r.cons.ok ==> r.cons.kind.Dequeue?))
    && (b.Produce? ==> R.ProducerResult(q, r) && r.cons == q.cons)
    && (b.Consume? || b.Produce? ==> (r.emptySeen <==> q.emptySeen || Q.Queued(r.q) == 0))
    && (b.CallEnqueue? || b.CallDequeue? ==> r.q == q.q)
    && (b.CallEnqueue? ==> r.cons == q.cons && (r.emptySeen <==> q.emptySeen || Q.Queued(q.q) == 0))
    && (b.CallDequeue? ==> q.cons.pc.CIdle? && !r.cons.pc.CIdle? && (r.emptySeen <==> Q.Queued(q.q) == 0))
    && !b.AllocFails?
  }

  lemma StepsSo(q: Q.State, b: Q.Action)
    requires QueueOk(q) && Q.Enabled(q, b) && !b.AllocFails?
    ensures Stepped(q, b, Q.Apply(q, b))
  {
    match b {
      case Consume => R.ConsumerReturns(q); B.ConsumerFrame(q);
      case Produce => R.ProducerReturns(q); B.ProducerFrame(q);
      case _ =>
    }
  }

  lemma CaughtByCall(q0: Q.State, q: Q.State, calls: nat, b: Q.Action, r: Q.State)
    requires Caught(q0, q, calls) && Stepped(q, b, r) && !b.Consume?
    ensures Caught(q0, r, calls)
  {
  }

  lemma CaughtByConsume(q0: Q.State, q: Q.State, calls: nat, r: Q.State)
    requires Caught(q0, q, calls) && Stepped(q, Q.Consume, r)
    ensures Caught(q0, r, calls + if r.cons.pc.CIdle? then 1 else 0)
  {
  }

  lemma CaughtAtFirst(q: Q.State)
    ensures Caught(q, q, 0)
  {
  }

  /** How many of the calls returned are from queue c. */
  function CallsFrom(run: seq<State>, i: nat, j: nat, c: nat): nat
    requires i <= j < |run|
  {
    multiset(ReturnedCalls(run, i, j))[c]
  }

  /** What a step does to queue c of s, and that a call returns from it just by a consumer step. */
  ghost predicate Moves(s: State, a: Action, t: State, c: nat) {
    && c < |s.queues| && c < |t.queues|
    && var touch, q, r := TouchOf(s, a, c), s.queues[c], t.queues[c];
    && (if touch.Untouched? then r == q else Stepped(q, touch.act, r))
    && multiset(Returning(s, t, |s.queues|))[c] == if touch == By(Q.Consume) && r.cons.pc.CIdle? then 1 else 0
  }

  lemma QueueMoves(s: State, a: Action, t: State, c: nat)
    requires QueuesOk(s.queues) && IsNext(s, a, t) && c < |s.queues|
    ensures Moves(s, a, t, c)
  {
    QueueTouched(s, a, c);
    TouchSteps(s.queues, c, TouchOf(s, a, c), t.queues[c]);
    ReturnsByConsume(s, a, t, c);
  }

  lemma TouchSteps(queues: seq<Q.State>, c: nat, touch: Touch, r: Q.State)
    requires QueuesOk(queues) && c < |queues|
    requires touch.By? ==> Q.Enabled(queues[c], touch.act) && !touch.act.AllocFails? && r == Q.Apply(queues[c], touch.act)
    ensures touch.By? ==> Stepped(queues[c], touch.act, r)
  {
    if touch.By? {
      StepsSo(queues[c], touch.act);
    }
  }

  lemma ReturnsByConsume(s: State, a: Action, t: State, c: nat)
    requires IsNext(s, a, t) && c < |s.queues| && Touches(s, TouchOf(s, a, c), t, c)
    ensures multiset(Returning(s, t, |s.queues|))[c]
            == if TouchOf(s, a, c) == By(Q.Consume) && t.queues[c].cons.pc.CIdle? then 1 else 0
  {
    ReturningNow(s, a, t);
    ReturnedFrom(s, a, t, c);
  }

  lemma ReturnedFrom(s: State, a: Action, t: State, c: nat)
    requires Enabled(s, a) && c < |s.queues| && Touches(s, TouchOf(s, a, c), t, c)
    requires Returning(s, t, |s.queues|)
             == if a.Serve? && s.turn < |s.queues| && ReturnsFrom(s, t, s.turn) then [s.turn] else []
    ensures multiset(Returning(s, t, |s.queues|))[c]
            == if TouchOf(s, a, c) == By(Q.Consume) && t.queues[c].cons.pc.CIdle? then 1 else 0
  {
  }

  lemma CaughtNext(q0: Q.State, s: State, a: Action, t: State, calls: nat, c: nat)
    requires Moves(s, a, t, c) && Caught(q0, s.queues[c], calls)
    ensures Caught(q0, t.queues[c], calls + multiset(Returning(s, t, |s.queues|))[c])
  {
    var touch := TouchOf(s, a, c);
    if touch == By(Q.Consume) {
      CaughtByConsume(q0, s.queues[c], calls, t.queues[c]);
    } else if touch.By? {
      CaughtByCall(q0, s.queues[c], calls, touch.act, t.queues[c]);
    }
  }

  ghost predicate MovesAt(run: seq<State>, acts: seq<Action>, c: nat, k: nat) {
    k < |acts| && k + 1 < |run| && Moves(run[k], acts[k], run[k + 1], c)
  }

  lemma {:induction false} CaughtInRun(run: seq<State>, acts: seq<Action>, i: nat, j: nat, c: nat)
    requires |run| == |acts| + 1 && i <= j < |run| && c < |run[i].queues|
    requires forall k: nat {:trigger MovesAt(run, acts, c, k)} :: i <= k < |acts| ==> MovesAt(run, acts, c, k)
    ensures c < |run[j].queues| && Caught(run[i].queues[c], run[j].queues[c], CallsFrom(run, i, j, c))
  {
    if i == j {
      CaughtAtFirst(run[i].queues[c]);
    } else {
      CaughtInRun(run, acts, i, j - 1, c);
      assert MovesAt(run, acts, c, j - 1);
      CaughtNext(run[i].queues[c], run[j - 1], acts[j - 1], run[j], CallsFrom(run, i, j - 1, c), c);
    }
  }

  // ----- What is taken is collected -----

  /** The ids posted so far, and those collected for the next chain. */
  function Collected(r: Reposter): multiset<int> { IdsOf(r.posted) + IdSet(r.staged) }

  lemma RepostCollects(r: Reposter, id: nat)
    ensures Collected(Reposted(r, id)) == Collected(r) + multiset{id}
  {
    RepostedIds(r, 0, id);
    assert r.posted[0..] == r.posted && Reposted(r, id).posted[0..] == Reposted(r, id).posted;
  }

  /** The ids posted or collected by now, and what has been dequeued from one of the queues. */
  datatype Tally = Tally(ids: multiset<int>, deq: seq<int>)

  function TallyOf(s: State, c: nat): Tally {
    Tally(Collected(s.reposter), if c < |s.queues| then s.queues[c].q.deq else [])
  }

  /** What has been dequeued since has joined the ids collected. */
  predicate Collects(x: Tally, y: Tally) { x.deq <= y.deq && x.ids + multiset(y.deq[|x.deq|..]) <= y.ids }

  lemma CollectsOn(x: Tally, y: Tally, z: Tally)
    requires Collects(x, y) && Collects(y, z)
    ensures Collects(x, z)
  {
    assert z.deq[|x.deq|..] == y.deq[|x.deq|..] + z.deq[|y.deq|..];
  }

  lemma {:induction false} CollectsInRow(row: seq<Tally>, i: nat, j: nat)
    requires i <= j < |row|
    requires forall k, l {:trigger row[k], row[l]} :: i <= k < l < |row| && l == k + 1 ==> Collects(row[k], row[l])
    ensures Collects(row[i], row[j])
  {
    if i < j {
      CollectsInRow(row, i, j - 1);
      CollectsOn(row[i], row[j - 1], row[j]);
    }
  }

  lemma ConsumeCollects(s: State)
    requires Inv(s) && Enabled(s, Serve) && !s.queues[s.turn].cons.pc.CIdle?
    ensures var t, r := Apply(s, Serve), Q.Apply(s.queues[s.turn], Q.Consume);
            && (r.cons.pc.CIdle? && r.cons.ok ==> r.cons.value >= 0)
            && Collected(t.reposter)
               == Collected(s.reposter) + if r.cons.pc.CIdle? && r.cons.ok then multiset{r.cons.value} else multiset{}
  {
    var q := s.queues[s.turn];
    var r := Q.Apply(q, Q.Consume);
    RoomInQueue(s, s.turn, multiset{});
    assert QueueOk(q);
    ConsumeInside(q);
    if r.cons.pc.CIdle? && r.cons.ok {
      ValueIsId(s, r.cons.value);
      RepostCollects(s.reposter, r.cons.value);
    }
  }

  lemma ServedReposter(s: State)
    requires Enabled(s, Serve) && s.queues[s.turn].cons.pc.CIdle?
    ensures Apply(s, Serve).reposter == s.reposter
  {
  }

  lemma OthersReposter(s: State, a: Action)
    requires Enabled(s, a) && !a.Serve?
    ensures Apply(s, a).reposter == s.reposter
  {
  }

  lemma StepCollects(s: State, a: Action, t: State, c: nat)
    requires Moves(s, a, t, c) && GathersOrNot(s, a, t)
    ensures Collects(TallyOf(s, c), TallyOf(t, c))
  {
    if Finishing(s, a) {
      MovesCollect(s, a, t, c);
    } else {
      StayCollect(s, a, t, c);
    }
  }

  /** A step of the serving thread within a dequeue. */
  predicate Finishing(s: State, a: Action) { a.Serve? && s.turn < |s.queues| && !s.queues[s.turn].cons.pc.CIdle? }

  predicate GathersOrNot(s: State, a: Action, t: State) {
    if Finishing(s, a) then Gathers(s, t) else t.reposter == s.reposter
  }

  lemma StepGathers(s: State, a: Action, t: State)
    requires Inv(s) && IsNext(s, a, t)
    ensures GathersOrNot(s, a, t)
  {
    if Finishing(s, a) { ConsumeGathers(s); } else { StaysGathered(s, a); }
  }

  lemma ConsumeGathers(s: State)
    requires Inv(s) && Enabled(s, Serve) && !s.queues[s.turn].cons.pc.CIdle?
    ensures Gathers(s, Apply(s, Serve))
  {
    ConsumeCollects(s);
    ServeTouches(s, s.turn);
  }

  lemma StaysGathered(s: State, a: Action)
    requires Enabled(s, a) && !Finishing(s, a)
    ensures Apply(s, a).reposter == s.reposter
  {
    if a.Serve? { ServedReposter(s); } else { OthersReposter(s, a); }
  }

  /** What the served queue has returned is collected. */
  predicate Gathers(s: State, t: State) {
    && s.turn < |s.queues| && s.turn < |t.queues|
    && var r := t.queues[s.turn];
    Collected(t.reposter) == Collected(s.reposter) + if r.cons.pc.CIdle? && r.cons.ok then multiset{r.cons.value} else multiset{}
  }

  lemma MovesCollect(s: State, a: Action, t: State, c: nat)
    requires Moves(s, a, t, c) && Finishing(s, a) && Gathers(s, t)
    ensures Collects(TallyOf(s, c), TallyOf(t, c))
  {
    if c == s.turn {
      DequeuedOne(s.queues[c], t.queues[c]);
    }
  }

  lemma StayCollect(s: State, a: Action, t: State, c: nat)
    requires Moves(s, a, t, c) && t.reposter == s.reposter && TouchOf(s, a, c) != By(Q.Consume)
    ensures Collects(TallyOf(s, c), TallyOf(t, c))
  {
    if TouchOf(s, a, c).By? {
      DeqStays(s.queues[c], TouchOf(s, a, c).act, t.queues[c]);
    }
    assert TallyOf(t, c) == TallyOf(s, c);
  }

  lemma DeqStays(q: Q.State, b: Q.Action, r: Q.State)
    requires Stepped(q, b, r) && !b.Consume?
    ensures r.q.deq == q.q.deq
  {
  }

  lemma DequeuedOne(q: Q.State, r: Q.State)
    requires Stepped(q, Q.Consume, r)
    ensures q.q.deq <= r.q.deq
    ensures r.q.deq[|q.q.deq|..] == if r.cons.pc.CIdle? && r.cons.ok then [r.cons.value] else []
  {
  }

  lemma TakenAreThose(q0: Q.State, q: Q.State, calls: nat, first: multiset<int>, now: multiset<int>)
    requires Caught(q0, q, calls) && q0.q.deq <= q0.q.enq && q.q.deq <= q.q.enq
    requires Collects(Tally(first, q0.q.deq), Tally(now, q.q.deq))
    requires calls >= Q.Queued(q0.q) + if q0.cons.pc.CIdle? then 0 else 1
    ensures first + multiset(Waiting(q0)) <= now
  {
    var deq := q.q.deq[|q0.q.deq|..];
    assert |q.q.deq| >= |q0.q.enq|;
    assert deq[..|Waiting(q0)|] == Waiting(q0);
    assert deq == Waiting(q0) + deq[|Waiting(q0)|..];
  }

  /**
   Once as many dequeues have returned from a queue as ids waited in it, and one more if one was already on, all of
   these ids are collected or posted.
   */
  lemma WaitingIdsCollected(run: seq<State>, acts: seq<Action>, base: nat, size: nat, n: nat, i: nat, j: nat, c: nat)
    requires n <= STUB_QUEUE && IsRun(run, acts, base, size, n) && i <= j < |run| && c < |run[i].queues|
    requires CallsFrom(run, i, j, c) >= |Waiting(run[i].queues[c])| + if run[i].queues[c].cons.pc.CIdle? then 0 else 1
    ensures Collected(run[i].reposter) + multiset(Waiting(run[i].queues[c])) <= Collected(run[j].reposter)
  {
    MovesInRun(run, acts, base, size, n, i, c);
    CaughtInRun(run, acts, i, j, c);
    CollectedInRun(run, acts, base, size, n, i, j, c);
    PrefixInRun(run, acts, base, size, n, i, c);
    PrefixInRun(run, acts, base, size, n, j, c);
    TakenAreThose(run[i].queues[c], run[j].queues[c], CallsFrom(run, i, j, c),
                  Collected(run[i].reposter), Collected(run[j].reposter));
  }

  lemma MovesInRun(run: seq<State>, acts: seq<Action>, base: nat, size: nat, n: nat, i: nat, c: nat)
    requires n <= STUB_QUEUE && IsRun(run, acts, base, size, n) && i < |run| && c < |run[i].queues|
    ensures forall k: nat {:trigger MovesAt(run, acts, c, k)} :: i <= k < |acts| ==> MovesAt(run, acts, c, k)
  {
    RunSteps(run, acts, base, size, n);
    forall k: nat | i <= k < |acts| ensures MovesAt(run, acts, c, k) {
      QueuesOnlyGrow(run, acts, i, k);
      QueuesInRun(run, acts, base, size, n, k);
      assert NextAt(run, acts, k);
      QueueMoves(run[k], acts[k], run[k + 1], c);
    }
  }

  lemma QueuesInRun(run: seq<State>, acts: seq<Action>, base: nat, size: nat, n: nat, k: nat)
    requires n <= STUB_QUEUE && IsRun(run, acts, base, size, n) && k < |run|
    ensures QueuesOk(run[k].queues)
  {
    RunKeepsInvariant(run, acts, base, size, n, k);
  }

  lemma CollectsAt(run: seq<State>, acts: seq<Action>, base: nat, size: nat, n: nat, c: nat, k: nat)
    requires n <= STUB_QUEUE && IsRun(run, acts, base, size, n) && k < |acts| && MovesAt(run, acts, c, k)
    ensures Collects(TallyOf(run[k], c), TallyOf(run[k + 1], c))
  {
    RunSteps(run, acts, base, size, n);
    RunKeepsInvariant(run, acts, base, size, n, k);
    assert NextAt(run, acts, k);
    StepGathers(run[k], acts[k], run[k + 1]);
    StepCollects(run[k], acts[k], run[k + 1], c);
  }

  lemma CollectedInRun(run: seq<State>, acts: seq<Action>, base: nat, size: nat, n: nat, i: nat, j: nat, c: nat)
    requires n <= STUB_QUEUE && IsRun(run, acts, base, size, n) && i <= j < |run|
    requires forall k: nat {:trigger MovesAt(run, acts, c, k)} :: i <= k < |acts| ==> MovesAt(run, acts, c, k)
    ensures Collects(TallyOf(run[i], c), TallyOf(run[j], c))
  {
    var row := seq(|run|, k requires 0 <= k < |run| => TallyOf(run[k], c));
    forall k, l | i <= k < l < |row| && l == k + 1 ensures Collects(row[k], row[l]) {
      CollectsAt(run, acts, base, size, n, c, k);
    }
    CollectsInRow(row, i, j);
  }

  lemma PrefixInRun(run: seq<State>, acts: seq<Action>, base: nat, size: nat, n: nat, k: nat, c: nat)
    requires n <= STUB_QUEUE && IsRun(run, acts, base, size, n) && k < |run| && c < |run[k].queues|
    ensures run[k].queues[c].q.deq <= run[k].queues[c].q.enq
  {
    RunKeepsInvariant(run, acts, base, size, n, k);
    QueuePrefix(run[k], c);
  }

  lemma QueuePrefix(s: State, c: nat)
    requires Inv(s) && c < |s.queues|
    ensures s.queues[c].q.deq <= s.queues[c].q.enq
  {
    assert QueueOk(s.queues[c]);
    R.PrefixNow(s.queues[c].q);
  }

  lemma ServedOften(run: seq<State>, acts: seq<Action>, i: nat, j: nat, c: nat, rounds: nat)
    requires Steps(run, acts) && i <= j < |run| && c < |run[i].queues| == |run[j].queues|
    requires |run[i].queues| * rounds <= |ReturnedCalls(run, i, j)|
    ensures CallsFrom(run, i, j, c) >= rounds
  {
    CallsGoRound(run, acts, i, j);
    OncePerRound(ReturnedCalls(run, i, j), |run[i].queues|, c, rounds);
  }

  /** A call for each queue and each id that waits in one of them, and one more round. */
  function CallsNeeded(queues: nat, waiting: nat): nat { queues * (waiting + 1) }

  lemma ServedRounds(run: seq<State>, acts: seq<Action>, base: nat, size: nat, n: nat, i: nat, j: nat, c: nat, waiting: nat)
    requires IsRun(run, acts, base, size, n) && i <= j < |run| && c < |run[i].queues| == |run[j].queues|
    requires |ReturnedCalls(run, i, j)| >= CallsNeeded(|run[i].queues|, waiting)
    ensures CallsFrom(run, i, j, c) >= waiting + 1
  {
    RunSteps(run, acts, base, size, n);
    ServedOften(run, acts, i, j, c, waiting + 1);
  }

  /**
   So, while no receiver is added, whatever waits in a queue is collected or posted after fourteen steps of the serving
   thread for each queue and each id that waits in this one, and one more round; and fewer than 64 are not posted yet.
   */
  lemma ServedInTime(run: seq<State>, acts: seq<Action>, base: nat, size: nat, n: nat, i: nat, j: nat, c: nat)
    requires n <= STUB_QUEUE && IsRun(run, acts, base, size, n) && i <= j < |run| && c < |run[i].queues| == |run[j].queues|
    requires ServeSteps(acts, i, j) >= SERVE_STEPS * CallsNeeded(|run[i].queues|, |Waiting(run[i].queues[c])|)
    ensures Collected(run[i].reposter) + multiset(Waiting(run[i].queues[c])) <= Collected(run[j].reposter)
    ensures |run[j].reposter.staged| < BATCH
  {
    RunKeepsInvariant(run, acts, base, size, n, j);
    ServingReturns(run, acts, base, size, n, i, j, CallsNeeded(|run[i].queues|, |Waiting(run[i].queues[c])|));
    ServedRounds(run, acts, base, size, n, i, j, c, |Waiting(run[i].queues[c])|);
    WaitingIdsCollected(run, acts, base, size, n, i, j, c);
  }

  // ----- A stub's PostMR -----

  function StubSteps(acts: seq<Action>, c: nat, i: nat, j: nat): nat
    requires i <= j <= |acts|
  {
    if i == j then 0 else StubSteps(acts, c, i, j - 1) + if acts[j - 1] == StubStep(c) then 1 else 0
  }

  /** The PostMR called by step i has not returned by state k. */
  ghost predicate PostOpen(run: seq<State>, acts: seq<Action>, c: nat, i: nat, k: nat) {
    && i < k < |run| == |acts| + 1 && acts[i].StubCall? && acts[i].c == c
    && forall l :: i < l <= k ==> c < |run[l].queues| && !run[l].queues[c].prod.pc.PIdle?
  }

  /** What a step does to the call a stub is in. */
  predicate PostAdvances(s: State, a: Action, t: State, c: nat) {
    && c < |s.queues| && c < |t.queues|
    && var p, p' := s.queues[c].prod, t.queues[c].prod;
    if a.StubCall? && a.c == c then p.pc.PIdle? && p'.elem == a.id && P.ProdRank(p'.pc) == P.ENQUEUE_STEPS
    else if a == StubStep(c) then P.ProdRank(p'.pc) < P.ProdRank(p.pc) && p'.elem == p.elem
    else p' == p
  }

  lemma PostTouched(q: Q.State, b: Q.Action)
    requires Q.Enabled(q, b) && !b.AllocFails?
    ensures var p, p' := q.prod, Q.Apply(q, b).prod;
            if b.CallEnqueue? then p.pc.PIdle? && p'.elem == b.elem && P.ProdRank(p'.pc) == P.ENQUEUE_STEPS
            else if b.Produce? then P.ProdRank(p'.pc) < P.ProdRank(p.pc) && p'.elem == p.elem
            else p' == p
  {
    if !b.CallEnqueue? {
      P.ProducerAdvances(q, b);
    }
    if b.Produce? {
      R.StepRequests(q, b);
    }
  }

  lemma PostStep(s: State, a: Action, t: State, c: nat)
    requires IsNext(s, a, t) && c < |s.queues|
    ensures PostAdvances(s, a, t, c)
  {
    QueueTouched(s, a, c);
    if TouchOf(s, a, c).By? {
      PostTouched(s.queues[c], TouchOf(s, a, c).act);
    }
  }

  /** Whatever else goes on, the steps a PostMR has taken and may still take are at most eleven. */
  lemma {:induction false} PostBounded(run: seq<State>, acts: seq<Action>, c: nat, i: nat, k: nat)
    requires Steps(run, acts) && PostOpen(run, acts, c, i, k)
    ensures run[k].queues[c].prod.elem == acts[i].id
    ensures StubSteps(acts, c, i + 1, k) + P.ProdRank(run[k].queues[c].prod.pc) <= P.ENQUEUE_STEPS
  {
    assert NextAt(run, acts, k - 1);
    if i + 1 < k {
      PostBounded(run, acts, c, i, k - 1);
    } else {
      assert c < |run[i].queues|;
    }
    PostStep(run[k - 1], acts[k - 1], run[k], c);
  }

  /** So it returns, at the latest with its eleventh step. */
  lemma PostReturnsInTime(run: seq<State>, acts: seq<Action>, base: nat, size: nat, n: nat, i: nat, k: nat, c: nat)
    requires IsRun(run, acts, base, size, n) && i < k <= |acts| && acts[i].StubCall? && acts[i].c == c
    requires StubSteps(acts, c, i + 1, k) >= P.ENQUEUE_STEPS
    ensures exists l :: i < l <= k && c < |run[l].queues| && run[l].queues[c].prod.pc.PIdle?
  {
    RunSteps(run, acts, base, size, n);
    assert NextAt(run, acts, i);
    forall l | i < l <= k ensures c < |run[l].queues| {
      QueuesOnlyGrow(run, acts, i, l);
    }
    if PostOpen(run, acts, c, i, k) {
      PostBounded(run, acts, c, i, k);
      P.RankPositive(run[k].queues[c].cons.pc, run[k].queues[c].prod.pc);
    }
  }

  /** When a PostMR returns, it has put its id at the end of the stub's queue. */
  lemma PostEnqueues(run: seq<State>, acts: seq<Action>, base: nat, size: nat, n: nat, i: nat, k: nat, c: nat)
    requires n <= STUB_QUEUE && IsRun(run, acts, base, size, n) && PostOpen(run, acts, c, i, k) && k < |acts|
    requires acts[k] == StubStep(c) && c < |run[k + 1].queues| && run[k + 1].queues[c].prod.pc.PIdle?
    ensures run[k + 1].queues[c].q.enq == run[k].queues[c].q.enq + [acts[i].id]
    ensures Waiting(run[k + 1].queues[c]) == Waiting(run[k].queues[c]) + [acts[i].id]
  {
    RunSteps(run, acts, base, size, n);
    PostBounded(run, acts, c, i, k);
    RunKeepsInvariant(run, acts, base, size, n, k);
    assert NextAt(run, acts, k);
    PostResult(run[k], c);
  }

  lemma PostResult(s: State, c: nat)
    requires Inv(s) && Enabled(s, StubStep(c))
    ensures Apply(s, StubStep(c)).queues[c].prod.pc.PIdle? ==> Appends(s.queues[c], Apply(s, StubStep(c)).queues[c])
  {
    RoomInQueue(s, c, multiset{});
    assert QueueOk(s.queues[c]);
    EnqueueResult(s.queues[c]);
  }

  predicate Appends(q: Q.State, r: Q.State) {
    r.q.enq == q.q.enq + [q.prod.elem] && Waiting(r) == Waiting(q) + [q.prod.elem]
  }

  lemma EnqueueResult(q: Q.State)
    requires QueueOk(q) && !q.prod.pc.PIdle? && Q.Queued(q.q) < STUB_QUEUE
    ensures Q.Apply(q, Q.Produce).prod.pc.PIdle? ==> Appends(q, Q.Apply(q, Q.Produce))
  {
    ProduceInside(q);
    R.ProducerReturns(q);
    R.PrefixNow(q.q);
    AppendsNow(q, Q.Apply(q, Q.Produce));
  }

  lemma AppendsNow(q: Q.State, r: Q.State)
    requires R.ProducerResult(q, r) && q.q.deq <= q.q.enq
    ensures r.prod.pc.PIdle? && r.prod.ok ==> Appends(q, r)
  {
  }
}
