/**
 The shared-write protocol loses nothing: every message reserved is with its sender, waits as a completion, or has
 been handed over; senders get done, and the completions that wait are received one by one, in their order.
 */
module SharedProgress {
  import opened Bytes
  import opened SharedWrite

  // ----- Nothing is lost -----

  ghost predicate InQueue(cq: seq<Completion>, k: nat) {
    exists c :: 0 <= c < |cq| && cq[c].slot == k
  }

  /** Every message that has arrived has its completion in the queue. */
  ghost predicate ArrivedQueued(log: seq<Reservation>, cq: seq<Completion>) {
    forall k: nat :: k < |log| && log[k].phase.Arrived? ==> InQueue(cq, k)
  }

  predicate Sends(sender: Sender, k: nat) { !sender.pc.Idle? && sender.slot == k }

  /** Every message on its way to the ring is that which its sender is busy with. */
  ghost predicate BeingSent(log: seq<Reservation>, senders: seq<Sender>) {
    forall k: nat :: k < |log| && (log[k].phase.Waiting? || log[k].phase.Writing?) ==>
      log[k].sender < |senders| && Sends(senders[log[k].sender], k)
  }

  ghost predicate NoneLost(s: State) { ArrivedQueued(s.log, s.cq) && BeingSent(s.log, s.senders) }

  lemma QueuedStays(cq: seq<Completion>, wc: Completion, k: nat)
    ensures InQueue(cq, k) ==> InQueue(cq + [wc], k)
    ensures InQueue(cq + [wc], wc.slot)
  {
    if InQueue(cq, k) {
      var c :| 0 <= c < |cq| && cq[c].slot == k;
      assert (cq + [wc])[c].slot == k;
    }
    assert (cq + [wc])[|cq|].slot == wc.slot;
  }

  lemma OthersStayQueued(cq: seq<Completion>, k: nat)
    requires cq != [] && InQueue(cq, k) && cq[0].slot != k
    ensures InQueue(cq[1..], k)
  {
    var c :| 0 <= c < |cq| && cq[c].slot == k;
    assert cq[1..][c - 1].slot == k;
  }

  /** The slot changes to a phase that fits with the queue. */
  lemma MarkQueued(log: seq<Reservation>, cq: seq<Completion>, slot: nat, phase: Phase)
    requires ArrivedQueued(log, cq) && (phase.Arrived? ==> InQueue(cq, slot))
    ensures ArrivedQueued(Mark(log, slot, phase), cq)
  {
  }

  lemma MarkSent(log: seq<Reservation>, senders: seq<Sender>, slot: nat, phase: Phase)
    requires BeingSent(log, senders)
    requires phase.Waiting? || phase.Writing? ==>
               slot < |log| && log[slot].sender < |senders| && Sends(senders[log[slot].sender], slot)
    ensures BeingSent(Mark(log, slot, phase), senders)
  {
  }

  /** A sender that goes on with its message, or is done with it, leaves those of the others alone. */
  lemma SenderGoesOn(log: seq<Reservation>, senders: seq<Sender>, i: nat, next: Sender)
    requires BeingSent(log, senders) && i < |senders|
    requires forall k: nat :: k < |log| && (log[k].phase.Waiting? || log[k].phase.Writing?) && log[k].sender == i ==> Sends(next, k)
    ensures BeingSent(log, senders[i := next])
  {
  }

  lemma SenderStepLosesNone(s: State, a: Action)
    requires 0 < s.size == |s.mem| && Enabled(s, a) && (a.Post? || a.Land?) && SenderOk(s, a.i) && NoneLost(s)
    ensures NoneLost(Apply(s, a))
  {
    var t, i := Apply(s, a), a.i;
    MarkQueued(s.log, s.cq, s.senders[i].slot, t.log[s.senders[i].slot].phase);
    MarkSent(s.log, s.senders, s.senders[i].slot, t.log[s.senders[i].slot].phase);
    SenderGoesOn(t.log, s.senders, i, t.senders[i]);
  }

  lemma CompleteLosesNone(s: State, i: nat)
    requires 0 < s.size == |s.mem| && Enabled(s, Complete(i)) && SenderOk(s, i) && NoneLost(s)
    ensures NoneLost(Apply(s, Complete(i)))
  {
    var t, slot := Apply(s, Complete(i)), s.senders[i].slot;
    forall k: nat | k < |t.log| && t.log[k].phase.Arrived? ensures InQueue(t.cq, k) {
      QueuedStays(s.cq, t.cq[|s.cq|], k);
    }
    MarkSent(s.log, s.senders, slot, Arrived);
    SenderGoesOn(t.log, s.senders, i, t.senders[i]);
  }

  lemma ReserveLosesNone(s: State, i: nat, msg: seq<Byte>)
    requires 0 < s.size == |s.mem| && Enabled(s, Reserve(i, msg)) && NoneLost(s)
    ensures NoneLost(Apply(s, Reserve(i, msg)))
  {
  }

  lemma ReadHeadLosesNone(s: State, i: nat)
    requires 0 < s.size == |s.mem| && Enabled(s, ReadHead(i)) && NoneLost(s)
    ensures NoneLost(Apply(s, ReadHead(i)))
  {
    SenderGoesOn(s.log, s.senders, i, Apply(s, ReadHead(i)).senders[i]);
  }

  lemma ReceiveLosesNone(s: State)
    requires 0 < s.size == |s.mem| && Enabled(s, Receive) && NoneLost(s)
    ensures NoneLost(Apply(s, Receive))
  {
    var t := Apply(s, Receive);
    forall k: nat | k < |t.log| && t.log[k].phase.Arrived? ensures InQueue(t.cq, k) {
      OthersStayQueued(s.cq, k);
    }
    MarkSent(s.log, s.senders, s.cq[0].slot, Held);
  }

  lemma FreeLosesNone(s: State, slot: nat)
    requires 0 < s.size == |s.mem| && Enabled(s, Free(slot)) && NoneLost(s)
    ensures NoneLost(Apply(s, Free(slot)))
  {
    MarkQueued(s.log, s.cq, slot, Phase.Freed);
    MarkSent(s.log, s.senders, slot, Phase.Freed);
  }

  lemma StepLosesNone(s: State, a: Action)
    requires 0 < s.size == |s.mem| && SendersOk(s) && Enabled(s, a) && NoneLost(s)
    ensures NoneLost(Apply(s, a))
  {
    match a
    case Reserve(i, msg) => ReserveLosesNone(s, i, msg);
    case ReadHead(i) => ReadHeadLosesNone(s, i);
    case Post(i) => assert SenderOk(s, i); SenderStepLosesNone(s, a);
    case Land(i) => assert SenderOk(s, i); SenderStepLosesNone(s, a);
    case Complete(i) => assert SenderOk(s, i); CompleteLosesNone(s, i);
    case Receive => ReceiveLosesNone(s);
    case Free(slot) => FreeLosesNone(s, slot);
  }

  lemma {:induction false} RunLosesNone(run: seq<State>, k: nat)
    requires IsRun(run) && k < |run|
    ensures NoneLost(run[k])
  {
    if k > 0 {
      RunLosesNone(run, k - 1);
      RunKeepsInvariant(run, k - 1);
      assert Next(run[k - 1], run[k]);
      NextLosesNone(run[k - 1], run[k]);
    }
  }

  lemma NextLosesNone(s: State, t: State)
    requires 0 < s.size == |s.mem| && SendersOk(s) && Next(s, t) && NoneLost(s)
    ensures NoneLost(t)
  {
    var a :| Enabled(s, a) && t == Apply(s, a);
    StepLosesNone(s, a);
  }

  /** In every reachable state the completions that wait are just those of the messages that have arrived. */
  lemma PendingExactly(run: seq<State>, k: nat)
    requires IsRun(run) && k < |run[|run| - 1].log|
    ensures var s := run[|run| - 1];
            s.log[k].phase.Arrived? <==> exists c :: 0 <= c < |s.cq| && s.cq[c].slot == k
  {
    RunKeepsInvariant(run, |run| - 1);
    RunLosesNone(run, |run| - 1);
    PendingNow(run[|run| - 1], k);
  }

  lemma PendingNow(s: State, k: nat)
    requires 0 < s.size && CompletionsOk(s) && ArrivedQueued(s.log, s.cq) && k < |s.log|
    ensures s.log[k].phase.Arrived? <==> exists c :: 0 <= c < |s.cq| && s.cq[c].slot == k
  {
    if s.log[k].phase.Arrived? {
      assert InQueue(s.cq, k);
    }
  }

  predicate AllIdle(senders: seq<Sender>) { forall i :: 0 <= i < |senders| ==> senders[i].pc.Idle? }

  /** Once the senders are idle and no completion waits, every message ever reserved has been handed over. */
  lemma DrainedIsReceived(run: seq<State>, k: nat)
    requires IsRun(run) && k < |run[|run| - 1].log| && run[|run| - 1].cq == [] && AllIdle(run[|run| - 1].senders)
    ensures var phase := run[|run| - 1].log[k].phase; phase.Held? || phase.Freed?
  {
    RunLosesNone(run, |run| - 1);
  }

  // ----- Runs with their actions -----

  ghost predicate NextAt(run: seq<State>, acts: seq<Action>, k: nat) {
    && k < |acts| && k + 1 < |run| && 0 < run[k].size == |run[k].mem|
    && Enabled(run[k], acts[k]) && run[k + 1] == Apply(run[k], acts[k])
  }

  ghost predicate IsRunOf(run: seq<State>, acts: seq<Action>) {
    && |run| == |acts| + 1 && Init(run[0])
    && forall k: nat {:trigger NextAt(run, acts, k)} :: k < |acts| ==> NextAt(run, acts, k)
  }

  lemma InitKeeps(s: State)
    requires Init(s)
    ensures Inv(s)
  {
    RunKeepsInvariant([s], 0);
  }

  lemma NextKeeps(s: State, a: Action, t: State)
    requires Inv(s) && Enabled(s, a) && t == Apply(s, a)
    ensures Inv(t)
  {
    KeptByStep(s, a);
  }

  lemma {:induction false} RunOfKeepsInvariant(run: seq<State>, acts: seq<Action>, k: nat)
    requires IsRunOf(run, acts) && k < |run|
    ensures Inv(run[k])
  {
    if k == 0 {
      InitKeeps(run[0]);
    } else {
      RunOfKeepsInvariant(run, acts, k - 1);
      assert NextAt(run, acts, k - 1);
      NextKeeps(run[k - 1], acts[k - 1], run[k]);
    }
  }

  // ----- What is reserved -----

  /** What the first k steps reserve, in order: each message with its sender. */
  function Requested(acts: seq<Action>, k: nat): seq<(seq<Byte>, nat)>
    requires k <= |acts|
  {
    if k == 0 then [] else Requested(acts, k - 1) + if acts[k - 1].Reserve? then [(acts[k - 1].msg, acts[k - 1].i)] else []
  }

  predicate LogIs(log: seq<Reservation>, requests: seq<(seq<Byte>, nat)>) {
    |log| == |requests| && forall n :: 0 <= n < |log| ==> (log[n].msg, log[n].sender) == requests[n]
  }

  lemma LogGrows(s: State, a: Action, requests: seq<(seq<Byte>, nat)>)
    requires 0 < s.size == |s.mem| && Enabled(s, a) && LogIs(s.log, requests)
    ensures LogIs(Apply(s, a).log, requests + if a.Reserve? then [(a.msg, a.i)] else [])
  {
  }

  /** The messages tracked are those the senders' calls reserved, in the order of the calls. */
  lemma {:induction false} ReservationsAre(run: seq<State>, acts: seq<Action>, k: nat)
    requires IsRunOf(run, acts) && k < |run|
    ensures LogIs(run[k].log, Requested(acts, k))
  {
    if k > 0 {
      ReservationsAre(run, acts, k - 1);
      assert NextAt(run, acts, k - 1);
      LogGrows(run[k - 1], acts[k - 1], Requested(acts, k - 1));
    }
  }

  // ----- Receiving in order of completion -----

  /** How many of the steps from i up to j receive. */
  function Receives(acts: seq<Action>, i: nat, j: nat): nat
    requires i <= j <= |acts|
  {
    if i == j then 0 else Receives(acts, i, j - 1) + if acts[j - 1].Receive? then 1 else 0
  }

  /** The completion wc, c places from the front, is that many receives nearer to it, or its message has been handed over. */
  ghost predicate NearerBy(s: State, wc: Completion, c: nat, receives: nat) {
    if receives <= c then c - receives < |s.cq| && s.cq[c - receives] == wc
    else wc.slot < |s.log| && (s.log[wc.slot].phase.Held? || s.log[wc.slot].phase.Freed?)
  }

  lemma QueueStep(s: State, a: Action, c: nat)
    requires 0 < s.size == |s.mem| && Enabled(s, a) && c < |s.cq|
    ensures var t := Apply(s, a);
            if !a.Receive? then c < |t.cq| && t.cq[c] == s.cq[c] else c > 0 ==> c - 1 < |t.cq| && t.cq[c - 1] == s.cq[c]
  {
  }

  lemma FrontHandedOver(s: State)
    requires 0 < s.size == |s.mem| && Enabled(s, Receive) && s.cq[0].slot < |s.log|
    ensures Apply(s, Receive).log[s.cq[0].slot].phase.Held?
  {
  }

  /** As much of the invariant as reservations need for moving on. */
  ghost predicate Accounted(s: State) { 0 < s.size == |s.mem| && SendersOk(s) && CompletionsOk(s) && HeldOk(s) }

  lemma AccountedInRun(run: seq<State>, acts: seq<Action>, k: nat)
    requires IsRunOf(run, acts) && k < |run|
    ensures Accounted(run[k])
  {
    RunOfKeepsInvariant(run, acts, k);
  }

  lemma NearerStep(s: State, a: Action, wc: Completion, c: nat, receives: nat)
    requires Accounted(s) && Enabled(s, a) && NearerBy(s, wc, c, receives)
    ensures NearerBy(Apply(s, a), wc, c, receives + if a.Receive? then 1 else 0)
  {
    if receives <= c {
      QueueStep(s, a, c - receives);
      if a.Receive? && receives == c {
        assert s.cq[0] == wc;
        FrontHandedOver(s);
      }
    } else {
      ReservationsOnlyAdvance(s, a, wc.slot);
    }
  }

  lemma NearerNext(run: seq<State>, acts: seq<Action>, k: nat, wc: Completion, c: nat, receives: nat)
    requires IsRunOf(run, acts) && k < |acts| && NearerBy(run[k], wc, c, receives)
    ensures NearerBy(run[k + 1], wc, c, receives + if acts[k].Receive? then 1 else 0)
  {
    assert NextAt(run, acts, k);
    AccountedInRun(run, acts, k);
    NearerStep(run[k], acts[k], wc, c, receives);
  }

  /**
   A message that has completed, with c completions before its own, is handed over by the (c + 1)-st receive from then
   on, whatever the senders do meanwhile; until then its completion waits, and a receive is enabled.
   */
  lemma {:induction false} ReceivedInTurn(run: seq<State>, acts: seq<Action>, i: nat, j: nat, c: nat)
    requires IsRunOf(run, acts) && i <= j < |run| && c < |run[i].cq|
    ensures NearerBy(run[j], run[i].cq[c], c, Receives(acts, i, j))
    ensures Receives(acts, i, j) <= c ==> Enabled(run[j], Receive)
  {
    if i < j {
      ReceivedInTurn(run, acts, i, j - 1, c);
      NearerNext(run, acts, j - 1, run[i].cq[c], c, Receives(acts, i, j - 1));
    }
  }

  // ----- Senders get done -----

  /** How many steps a sender with its message posted has left. */
  function StepsLeft(sender: Sender): nat {
    if sender.pc.Posted? && sender.pc.done <= |sender.pc.msg| then |sender.pc.msg| - sender.pc.done + 1 else 0
  }

  predicate IsSending(a: Action, i: nat) { (a.Land? || a.Complete?) && a.i == i }

  /** How many of the steps from i up to j land a byte of sender x's message, or complete it. */
  function SendingSteps(acts: seq<Action>, x: nat, i: nat, j: nat): nat
    requires i <= j <= |acts|
  {
    if i == j then 0 else SendingSteps(acts, x, i, j - 1) + if IsSending(acts[j - 1], x) then 1 else 0
  }

  /** Sender x is so many steps on with the message of the slot, or that has arrived. */
  ghost predicate SentBy(s: State, x: nat, slot: nat, steps: int) {
    && slot < |s.log|
    && if Rank(s.log[slot].phase) >= 2 then true
       else x < |s.senders| && s.senders[x].slot == slot && s.senders[x].pc.Posted? && StepsLeft(s.senders[x]) == steps
  }

  /** The steps of others leave a sender alone. */
  lemma OthersLeaveSender(s: State, a: Action, x: nat)
    requires 0 < s.size == |s.mem| && Enabled(s, a) && x < |s.senders| && !IsSending(a, x) && s.senders[x].pc.Posted?
    ensures x < |Apply(s, a).senders| && Apply(s, a).senders[x] == s.senders[x]
  {
  }

  lemma SenderStep(s: State, a: Action, x: nat)
    requires 0 < s.size == |s.mem| && Enabled(s, a) && x < |s.senders| && IsSending(a, x) && SenderOk(s, x)
    ensures var t, slot := Apply(s, a), s.senders[x].slot;
            && slot < |t.log| && x < |t.senders|
            && if a.Complete? then t.log[slot].phase.Arrived? && StepsLeft(s.senders[x]) == 1
               else t.senders[x].slot == slot && t.senders[x].pc.Posted? && StepsLeft(t.senders[x]) == StepsLeft(s.senders[x]) - 1
  {
  }

  lemma SentStep(s: State, a: Action, x: nat, slot: nat, steps: int)
    requires Accounted(s) && Enabled(s, a) && SentBy(s, x, slot, steps)
    ensures SentBy(Apply(s, a), x, slot, steps - if IsSending(a, x) then 1 else 0)
  {
    ReservationsOnlyAdvance(s, a, slot);
    if Rank(s.log[slot].phase) < 2 {
      assert SenderOk(s, x);
      if IsSending(a, x) { SenderStep(s, a, x); } else { OthersLeaveSender(s, a, x); }
    }
  }

  lemma SentNext(run: seq<State>, acts: seq<Action>, k: nat, x: nat, slot: nat, steps: int)
    requires IsRunOf(run, acts) && k < |acts| && SentBy(run[k], x, slot, steps)
    ensures SentBy(run[k + 1], x, slot, steps - if IsSending(acts[k], x) then 1 else 0)
  {
    assert NextAt(run, acts, k);
    AccountedInRun(run, acts, k);
    SentStep(run[k], acts[k], x, slot, steps);
  }

  lemma SentAtFirst(run: seq<State>, acts: seq<Action>, x: nat, k: nat)
    requires IsRunOf(run, acts) && k < |run| && x < |run[k].senders| && run[k].senders[x].pc.Posted?
    ensures SentBy(run[k], x, run[k].senders[x].slot, StepsLeft(run[k].senders[x]))
  {
    AccountedInRun(run, acts, k);
    assert SenderOk(run[k], x);
  }

  lemma {:induction false} SentInRun(run: seq<State>, acts: seq<Action>, x: nat, slot: nat, steps: nat, i: nat, j: nat)
    requires IsRunOf(run, acts) && i <= j < |run| && SentBy(run[i], x, slot, steps)
    ensures SentBy(run[j], x, slot, steps - SendingSteps(acts, x, i, j))
  {
    if i < j {
      SentInRun(run, acts, x, slot, steps, i, j - 1);
      SentNext(run, acts, j - 1, x, slot, steps - SendingSteps(acts, x, i, j - 1));
    }
  }

  /** A posted message has arrived after as many steps of its sender as it has bytes to land, and one more. */
  lemma PostedArrives(run: seq<State>, acts: seq<Action>, x: nat, i: nat, j: nat)
    requires IsRunOf(run, acts) && i <= j < |run| && x < |run[i].senders| && run[i].senders[x].pc.Posted?
    requires SendingSteps(acts, x, i, j) >= |run[i].senders[x].pc.msg| + 1 - run[i].senders[x].pc.done
    ensures var slot := run[i].senders[x].slot; slot < |run[j].log| && Rank(run[j].log[slot].phase) >= 2
  {
    var sender := run[i].senders[x];
    SentAtFirst(run, acts, x, i);
    SentInRun(run, acts, x, sender.slot, StepsLeft(sender), i, j);
    if Rank(run[j].log[sender.slot].phase) < 2 {
      SentAtFirst(run, acts, x, j);
      NotDone(run, acts, x, i);
      NotDone(run, acts, x, j);
    }
  }

  /** A sender that is posting has a step to take, and one left at least. */
  lemma NotDone(run: seq<State>, acts: seq<Action>, x: nat, k: nat)
    requires IsRunOf(run, acts) && k < |run| && x < |run[k].senders| && run[k].senders[x].pc.Posted?
    ensures StepsLeft(run[k].senders[x]) == |run[k].senders[x].pc.msg| - run[k].senders[x].pc.done + 1 >= 1
    ensures Enabled(run[k], Land(x)) || Enabled(run[k], Complete(x))
  {
    AccountedInRun(run, acts, k);
    assert SenderOk(run[k], x);
  }
}
