/** What is owed can be paid: a blocked tag becomes eligible again. */
module SchedulerProgress {
  import opened Collections
  import opened SchedulerBooks
  import opened SchedulerRuns
  import opened SchedulerSafety
  import opened SchedulerTheorems

  /** The steps that pay what is owed: transfers end, hooks send what they hold, and the
      scheduler handles its events. */
  predicate IsPayment(step: Step) {
    || step.ClaimDone? || (step.SendFirstByte? && step.delivered) || (step.SendDone? && step.delivered)
    || step.HandleEvent?
  }

  /** How many payments a transfer still has to make, at most. */
  function DebtShare(): Transfer -> int {
    (f: Transfer) =>
      (if f.phase == WithWorker then 3 else 0) + (if f.firstByteHeld then 2 else 0)
      + (if f.doneHeld.Some? then 2 else 0)
  }

  function Debt(s: System): int {
    Sum(s.files, DebtShare()) + |s.queue|
  }

  lemma DebtNotNegative(s: System)
    ensures Sum(s.files, DebtShare()) >= 0
    ensures forall i :: 0 <= i < |s.files| ==> DebtShare()(s.files[i]) <= Sum(s.files, DebtShare())
  {
    SumBoundsTerm(s.files, DebtShare());
  }

  predicate IsDebtor(f: Transfer) {
    f.phase == WithWorker || f.firstByteHeld || f.doneHeld.Some?
  }

  /** A payment that can be made now. */
  lemma NextPayment(s: System) returns (step: Step)
    requires HooksValid(s) && !s.exited && HasDebts(s)
    ensures IsPayment(step) && Enabled(s, step)
  {
    if s.queue != [] {
      step := HandleEvent(0);
    } else {
      var i :| 0 <= i < |s.files| && IsDebtor(s.files[i]);
      step := if s.files[i].firstByteHeld then SendFirstByte(i, true)
              else if s.files[i].doneHeld.Some? then SendDone(i, true)
              else ClaimDone(i);
    }
  }

  /** Every payment lessens the debt and leaves the queues of the tags alone. */
  lemma PaymentLessensDebt(s: System, step: Step)
    requires HooksValid(s) && Enabled(s, step) && IsPayment(step)
    ensures Debt(Apply(s, step)) < Debt(s) && SameQueues(s, Apply(s, step))
  {
    if step.HandleEvent? {
    } else {
      var s' := Apply(s, step);
      assert TransferValid(s.files[step.id]);
      SumUpdate(s.files, step.id, s'.files[step.id], DebtShare());
    }
  }

  /** Without debtors and events, and with nothing given up, nothing is owed. */
  lemma NoDebtorsNoDebt(s: System, t: Tag)
    requires HooksValid(s) && s.queue == [] && s.lost == []
    requires forall i :: 0 <= i < |s.files| ==> !IsDebtor(s.files[i])
    ensures ActiveOwed(s, t) == 0 && StarvingOwed(s, t) == 0
  {
    forall i | 0 <= i < |s.files| ensures ActiveShare(t)(s.files[i]) == 0 && StarvingShare(t)(s.files[i]) == 0 {
      assert TransferValid(s.files[i]) && !IsDebtor(s.files[i]);
    }
    SumOfZeros(s.files, ActiveShare(t));
    SumOfZeros(s.files, StarvingShare(t));
  }

  /** What the payments rely on. */
  lemma RunKeepsLedger(lim: Limits, steps: seq<Step>, s: System)
    requires lim.Valid() && Run(lim, steps) == Some(s)
    ensures HooksValid(s) && LedgerBalances(s) && (s.exited ==> s.stopClosed)
  {
    RunKeepsInvariant(lim, steps);
  }

  lemma RunKeepsLimits(lim: Limits, steps: seq<Step>)
    requires lim.Valid() && Run(lim, steps).Some?
    ensures Run(lim, steps).value.lim == lim
  {
    RunKeepsInvariant(lim, steps);
  }

  lemma NothingIsOwed(s: System)
    requires HooksValid(s) && LedgerBalances(s) && s.queue == [] && s.lost == []
    requires forall i :: 0 <= i < |s.files| ==> !IsDebtor(s.files[i])
    ensures AllFree(s)
  {
    forall t ensures IsFree(s, t) {
      NoDebtorsNoDebt(s, t);
      assert At(s.books.tags, t).active == ActiveOwed(s, t);
    }
  }

  predicate IsFree(s: System, t: Tag) {
    At(s.books.tags, t).active == 0 && At(s.books.tags, t).starving == 0
  }

  ghost predicate AllFree(s: System) {
    forall t :: IsFree(s, t)
  }

  predicate SameQueue(s: System, s': System, t: Tag) {
    At(s'.books.tags, t).fifo == At(s.books.tags, t).fifo
  }

  ghost predicate SameQueues(s: System, s': System) {
    s'.stopClosed == s.stopClosed && s'.lim == s.lim && forall t :: SameQueue(s, s', t)
  }

  ghost predicate HasDebts(s: System) {
    s.queue != [] || exists i :: 0 <= i < |s.files| && IsDebtor(s.files[i])
  }

  /** One payment more. */
  lemma PayOne(lim: Limits, steps: seq<Step>, s: System) returns (step: Step, s': System)
    requires lim.Valid() && Run(lim, steps) == Some(s) && !s.stopClosed && HasDebts(s)
    ensures IsPayment(step) && Run(lim, steps + [step]) == Some(s')
    ensures SameQueues(s, s') && 0 <= Debt(s') < Debt(s)
  {
    RunKeepsLedger(lim, steps, s);
    step := NextPayment(s);
    PaymentLessensDebt(s, step);
    Extend(lim, steps, s, step);
    s' := Apply(s, step);
    DebtNotNegative(s');
  }

  lemma PaidUp(lim: Limits, steps: seq<Step>, s: System)
    requires lim.Valid() && Run(lim, steps) == Some(s) && !s.stopClosed && !HasDebts(s)
    ensures AllFree(s)
  {
    RunKeepsLedger(lim, steps, s);
    NothingIsOwed(s);
  }

  /** `steps'` goes on from `steps` with payments alone. */
  predicate OnlyPays(steps: seq<Step>, steps': seq<Step>) {
    steps <= steps' && forall k :: |steps| <= k < |steps'| ==> IsPayment(steps'[k])
  }

  /** From every reachable state before `stop`, payments alone lead to a state in which
      nothing is owed and every queue is as it was. */
  lemma {:induction false} DebtsCanBePaid(lim: Limits, steps: seq<Step>, s: System, debt: nat)
    returns (steps': seq<Step>, s': System)
    requires lim.Valid() && Run(lim, steps) == Some(s) && !s.stopClosed && Debt(s) <= debt
    ensures Run(lim, steps') == Some(s') && OnlyPays(steps, steps')
    ensures SameQueues(s, s') && AllFree(s')
    decreases debt
  {
    if HasDebts(s) {
      var step, mid := PayOne(lim, steps, s);
      steps', s' := DebtsCanBePaid(lim, steps + [step], mid, debt - 1);
      QueuesStayTogether(s, mid, s');
    } else {
      steps', s' := steps, s;
      PaidUp(lim, steps, s);
    }
  }

  lemma QueuesStayTogether(s: System, mid: System, s': System)
    requires SameQueues(s, mid) && SameQueues(mid, s')
    ensures SameQueues(s, s')
  {
    forall t ensures SameQueue(s, s', t) {
      assert SameQueue(s, mid, t) && SameQueue(mid, s', t);
    }
  }

  /** No tag is wedged: while `stop` is open, every tag with queued work becomes eligible
      after payments alone, its queue unchanged, and then its head can be dispatched. */
  lemma BlockedTagIsFreed(lim: Limits, steps: seq<Step>, t: Tag, now: int) returns (steps': seq<Step>, s': System)
    requires lim.Valid() && Run(lim, steps).Some? && !Run(lim, steps).value.stopClosed
    requires At(Run(lim, steps).value.books.tags, t).fifo != []
    ensures Run(lim, steps') == Some(s') && OnlyPays(steps, steps')
    ensures At(s'.books.tags, t).fifo == At(Run(lim, steps).value.books.tags, t).fifo
    ensures Enabled(s', DispatchHead(t, now))
  {
    var s := Run(lim, steps).value;
    DebtNotNegative(s);
    steps', s' := DebtsCanBePaid(lim, steps, s, Debt(s));
    RunKeepsLedger(lim, steps', s');
    RunKeepsLimits(lim, steps');
    assert IsFree(s', t) && SameQueue(s, s', t);
  }

  // ----- Every way of paying ends -----

  ghost predicate CanPay(s: System) {
    exists step :: IsPayment(step) && Enabled(s, step)
  }

  /** The last of several payments. */
  lemma LastPayment(lim: Limits, steps: seq<Step>, s: System) returns (mid: System)
    requires lim.Valid() && steps != [] && Run(lim, steps) == Some(s) && IsPayment(steps[|steps| - 1])
    ensures Run(lim, steps[..|steps| - 1]) == Some(mid) && Debt(s) < Debt(mid) && SameQueues(mid, s)
  {
    mid := Run(lim, steps[..|steps| - 1]).value;
    RunKeepsLedger(lim, steps[..|steps| - 1], mid);
    PaymentLessensDebt(mid, steps[|steps| - 1]);
  }

  lemma {:induction false} PaymentsUseUpDebt(lim: Limits, steps: seq<Step>, steps': seq<Step>, s: System, s': System)
    requires lim.Valid() && Run(lim, steps) == Some(s) && Run(lim, steps') == Some(s') && OnlyPays(steps, steps')
    ensures |steps'| - |steps| + Debt(s') <= Debt(s) && SameQueues(s, s')
  {
    if |steps'| == |steps| {
      assert steps' == steps;
    } else {
      var mid := LastPayment(lim, steps', s');
      PaymentsUseUpDebt(lim, steps, steps'[..|steps'| - 1], s, mid);
      QueuesStayTogether(s, mid, s');
    }
  }

  /** In whatever order payments are made, from every reachable state before `stop`: there
      are no more of them than the debt, no queue changes, and where none can be made any
      more every tag is free and, if it has queued work, can dispatch its head. */
  lemma PayingFreesEveryTag(lim: Limits, steps: seq<Step>, steps': seq<Step>, t: Tag, now: int)
    requires lim.Valid() && Run(lim, steps).Some? && Run(lim, steps').Some? && OnlyPays(steps, steps')
    requires !Run(lim, steps).value.stopClosed
    ensures var s, s' := Run(lim, steps).value, Run(lim, steps').value;
      && |steps'| - |steps| <= Debt(s) && SameQueue(s, s', t)
      && (!CanPay(s') ==> IsFree(s', t) && (At(s.books.tags, t).fifo != [] ==> Enabled(s', DispatchHead(t, now))))
  {
    var s, s' := Run(lim, steps).value, Run(lim, steps').value;
    PaymentsUseUpDebt(lim, steps, steps', s, s');
    DebtNotNegative(s');
    assert SameQueue(s, s', t);
    RunKeepsLedger(lim, steps', s');
    if !CanPay(s') {
      NobodyCanPay(s');
      PaidUp(lim, steps', s');
      assert IsFree(s', t);
      RunKeepsLimits(lim, steps');
    }
  }

  lemma NobodyCanPay(s: System)
    requires HooksValid(s) && !s.exited && !CanPay(s)
    ensures !HasDebts(s)
  {
    if HasDebts(s) {
      var step := NextPayment(s);
    }
  }
}
