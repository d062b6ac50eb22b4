/** When a tag has no more starving transfers than active ones. */
module SchedulerFirstBytes {
  import opened Collections
  import opened SchedulerBooks
  import opened SchedulerRuns
  import opened SchedulerSafety
  import opened SchedulerTheorems

  /** First-byte decrements of `t` that are claimed and not handled: with a transfer ... */
  function HeldShare(t: Tag): Transfer -> int {
    (f: Transfer) => if f.tag == t && f.firstByteHeld then 1 else 0
  }

  /** ... or sent. */
  function FirstByteCredit(t: Tag): Event -> int {
    (e: Event) => if e.tag == t && e.kind == FirstByte then 1 else 0
  }

  /** Units of `active` that are past their first byte: a transfer at work or a done
      event that does not end its starving, held ... */
  function SettledShare(t: Tag): Transfer -> int {
    (f: Transfer) =>
      if f.tag == t && ((f.phase == WithWorker && f.fired) || f.doneHeld == Some(false)) then 1 else 0
  }

  /** ... or sent. */
  function SettledCredit(t: Tag): Event -> int {
    (e: Event) => if e.tag == t && e.kind == Done && !e.stillStarving then 1 else 0
  }

  function LateFirstBytes(s: System, t: Tag): int {
    Sum(s.files, HeldShare(t)) + Sum(s.queue, FirstByteCredit(t)) + Sum(s.lost, FirstByteCredit(t))
  }

  function Settled(s: System, t: Tag): int {
    Sum(s.files, SettledShare(t)) + Sum(s.queue, SettledCredit(t)) + Sum(s.lost, SettledCredit(t))
  }

  lemma EventsBalance(events: seq<Event>, t: Tag)
    requires forall i :: 0 <= i < |events| ==> EventValid(events[i])
    ensures Sum(events, StarvingCredit(t)) - Sum(events, DoneCredit(t))
         == Sum(events, FirstByteCredit(t)) - Sum(events, SettledCredit(t))
  {
    SumDifference(events, StarvingCredit(t), DoneCredit(t), FirstByteCredit(t), SettledCredit(t));
  }

  lemma TransfersBalance(files: seq<Transfer>, t: Tag)
    requires forall i :: 0 <= i < |files| ==> TransferValid(files[i])
    ensures Sum(files, StarvingShare(t)) - Sum(files, ActiveShare(t))
         == Sum(files, HeldShare(t)) - Sum(files, SettledShare(t))
  {
    forall i | 0 <= i < |files|
      ensures StarvingShare(t)(files[i]) - ActiveShare(t)(files[i])
           == HeldShare(t)(files[i]) - SettledShare(t)(files[i])
    {
      assert TransferValid(files[i]);
      if files[i].doneHeld.Some? {
        if files[i].doneHeld.value {
          assert files[i].doneHeld == Some(true);
        } else {
          assert files[i].doneHeld == Some(false);
        }
      }
    }
    SumDifference(files, StarvingShare(t), ActiveShare(t), HeldShare(t), SettledShare(t));
  }

  lemma OwedBalance(s: System, t: Tag)
    requires HooksValid(s)
    ensures StarvingOwed(s, t) - ActiveOwed(s, t) == LateFirstBytes(s, t) - Settled(s, t)
  {
    EventsAreValid(s);
    EventsBalance(s.queue, t);
    EventsBalance(s.lost, t);
    TransfersBalance(s.files, t);
  }

  /** In every reachable state, no more transfers starve than are active exactly when
      the first-byte decrements on their way are no more than the active transfers that
      are past their first byte. */
  lemma StarvingWithinActiveExactlyWhen(lim: Limits, steps: seq<Step>, t: Tag)
    requires lim.Valid() && Run(lim, steps).Some?
    ensures var s := Run(lim, steps).value;
      At(s.books.tags, t).starving <= At(s.books.tags, t).active <==> LateFirstBytes(s, t) <= Settled(s, t)
  {
    RunKeepsInvariant(lim, steps);
    CountersAreOwed(lim, steps, t);
    OwedBalance(Run(lim, steps).value, t);
  }

  // ----- Hooks that keep their order -----

  /** Every done event is sent only once its transfer holds no first byte any more. */
  ghost predicate DoneWaits(lim: Limits, steps: seq<Step>)
    requires Run(lim, steps).Some?
  {
    steps != [] ==>
      var n := |steps| - 1;
      && DoneWaits(lim, steps[..n])
      && (steps[n].SendDone? ==> !Run(lim, steps[..n]).value.files[steps[n].id].firstByteHeld)
  }

  /** A held first byte belongs to a transfer at work or to one whose done event is held
      behind it. */
  predicate HeldInOrder(f: Transfer) {
    f.firstByteHeld ==> (f.phase == WithWorker && f.fired) || f.doneHeld == Some(false)
  }

  ghost predicate FilesInOrder(files: seq<Transfer>) {
    forall i :: 0 <= i < |files| ==> HeldInOrder(files[i])
  }

  /** Whatever prefix of the queue has been handled, the rest keeps the balance. */
  predicate SuffixBalanced(files: seq<Transfer>, queue: seq<Event>, t: Tag, k: nat)
    requires k <= |queue|
  {
    Sum(files, HeldShare(t)) + Sum(queue[k..], FirstByteCredit(t))
    <= Sum(files, SettledShare(t)) + Sum(queue[k..], SettledCredit(t))
  }

  ghost predicate QueueBalanced(files: seq<Transfer>, queue: seq<Event>, t: Tag) {
    forall k :: 0 <= k <= |queue| ==> SuffixBalanced(files, queue, t, k)
  }

  ghost predicate InOrder(s: System, t: Tag) {
    FilesInOrder(s.files) && QueueBalanced(s.files, s.queue, t)
  }

  /** The transfers alone are balanced. */
  lemma FilesBalanced(files: seq<Transfer>, t: Tag)
    requires FilesInOrder(files)
    ensures Sum(files, HeldShare(t)) <= Sum(files, SettledShare(t))
  {
    forall i | 0 <= i < |files| ensures HeldShare(t)(files[i]) <= SettledShare(t)(files[i]) {
      assert HeldInOrder(files[i]);
    }
    SumOrder(files, HeldShare(t), SettledShare(t));
  }

  /** A transfer moves on and sends nothing: held and settled move together. */
  lemma MoveKeepsBalance(files: seq<Transfer>, queue: seq<Event>, t: Tag, id: nat, f: Transfer)
    requires id < |files| && QueueBalanced(files, queue, t)
    requires HeldShare(t)(f) - SettledShare(t)(f) <= HeldShare(t)(files[id]) - SettledShare(t)(files[id])
    ensures QueueBalanced(files[id := f], queue, t)
  {
    SumUpdate(files, id, f, HeldShare(t));
    SumUpdate(files, id, f, SettledShare(t));
    var moved := files[id := f];
    forall k | 0 <= k <= |queue| ensures SuffixBalanced(moved, queue, t, k) {
      assert SuffixBalanced(files, queue, t, k);
    }
  }

  /** A transfer sends an event: what it held is in the queue instead. */
  lemma SendKeepsBalance(files: seq<Transfer>, queue: seq<Event>, t: Tag, id: nat, f: Transfer, e: Event)
    requires id < |files| && QueueBalanced(files, queue, t) && FilesInOrder(files[id := f])
    requires HeldShare(t)(f) + FirstByteCredit(t)(e) == HeldShare(t)(files[id])
    requires SettledShare(t)(f) + SettledCredit(t)(e) == SettledShare(t)(files[id])
    ensures QueueBalanced(files[id := f], queue + [e], t)
  {
    SumUpdate(files, id, f, HeldShare(t));
    SumUpdate(files, id, f, SettledShare(t));
    var sent, longer := files[id := f], queue + [e];
    forall k | 0 <= k <= |longer| ensures SuffixBalanced(sent, longer, t, k) {
      if k <= |queue| {
        assert SuffixBalanced(files, queue, t, k);
        assert longer[k..] == queue[k..] + [e];
        SumAppend(queue[k..], e, FirstByteCredit(t));
        SumAppend(queue[k..], e, SettledCredit(t));
      } else {
        FilesBalanced(sent, t);
        assert longer[k..] == [];
      }
    }
  }

  lemma HandleKeepsBalance(files: seq<Transfer>, queue: seq<Event>, t: Tag)
    requires queue != [] && QueueBalanced(files, queue, t)
    ensures QueueBalanced(files, queue[1..], t)
  {
    var rest := queue[1..];
    forall k | 0 <= k <= |rest| ensures SuffixBalanced(files, rest, t, k) {
      assert SuffixBalanced(files, queue, t, k + 1);
      assert rest[k..] == queue[k + 1..];
    }
  }

  lemma SubmitKeepsBalance(files: seq<Transfer>, queue: seq<Event>, t: Tag, tag: Tag)
    requires QueueBalanced(files, queue, t)
    ensures QueueBalanced(files + [Submitted(tag)], queue, t)
  {
    SumAppend(files, Submitted(tag), HeldShare(t));
    SumAppend(files, Submitted(tag), SettledShare(t));
    var more := files + [Submitted(tag)];
    forall k | 0 <= k <= |queue| ensures SuffixBalanced(more, queue, t, k) {
      assert SuffixBalanced(files, queue, t, k);
    }
  }

  /** A step that changes the phase of a transfer which never had a worker before. */
  lemma PhaseKeepsOrder(s: System, t: Tag, id: nat, phase: Phase)
    requires HooksValid(s) && InOrder(s, t) && id < |s.files| && !s.files[id].WasDispatched()
    ensures FilesInOrder(WithPhase(s.files, id, phase)) && QueueBalanced(WithPhase(s.files, id, phase), s.queue, t)
  {
    MoveKeepsBalance(s.files, s.queue, t, id, s.files[id].(phase := phase));
  }

  lemma ClaimKeepsOrder(s: System, t: Tag, id: nat, f: Transfer)
    requires InOrder(s, t) && id < |s.files| && HeldInOrder(f)
    requires HeldShare(t)(f) - SettledShare(t)(f) <= HeldShare(t)(s.files[id]) - SettledShare(t)(s.files[id])
    ensures InOrder(s.(files := s.files[id := f]), t)
  {
    MoveKeepsBalance(s.files, s.queue, t, id, f);
  }

  lemma SendKeepsOrder(s: System, t: Tag, id: nat, f: Transfer, e: Event)
    requires InOrder(s, t) && id < |s.files| && HeldInOrder(f)
    requires HeldShare(t)(f) + FirstByteCredit(t)(e) == HeldShare(t)(s.files[id])
    requires SettledShare(t)(f) + SettledCredit(t)(e) == SettledShare(t)(s.files[id])
    ensures FilesInOrder(s.files[id := f]) && QueueBalanced(s.files[id := f], s.queue + [e], t)
  {
    SendKeepsBalance(s.files, s.queue, t, id, f, e);
  }

  lemma HookKeepsOrder(s: System, step: Step, t: Tag)
    requires HooksValid(s) && InOrder(s, t) && Enabled(s, step) && !Apply(s, step).stopClosed
    requires step.ClaimFirstByte? || step.SendFirstByte? || step.ClaimDone? || step.SendDone?
    requires step.SendDone? ==> !s.files[step.id].firstByteHeld
    ensures InOrder(Apply(s, step), t)
  {
    var f := s.files[step.id];
    assert TransferValid(f) && HeldInOrder(f);
    match step
    case ClaimFirstByte(id) =>
      if !f.fired {
        ClaimKeepsOrder(s, t, id, f.(fired := true, firstByteHeld := true));
      }
    case SendFirstByte(id, _) => SendKeepsOrder(s, t, id, f.(firstByteHeld := false), Event(FirstByte, f.tag, false));
    case ClaimDone(id) => ClaimKeepsOrder(s, t, id, f.(phase := Finished, fired := true, doneHeld := Some(!f.fired)));
    case SendDone(id, _) => SendKeepsOrder(s, t, id, f.(doneHeld := None), Event(Done, f.tag, f.doneHeld.value));
  }

  lemma StepKeepsOrder(s: System, step: Step, t: Tag)
    requires Invariant(s) && InOrder(s, t) && Enabled(s, step) && !Apply(s, step).stopClosed
    requires step.SendDone? ==> !s.files[step.id].firstByteHeld
    ensures InOrder(Apply(s, step), t)
  {
    match step
    case SubmitFile(tag) => SubmitKeepsBalance(s.files, s.queue, t, tag);
    case AdmitFile(id, now) =>
      PhaseKeepsOrder(s, t, id, Queued);
      PhaseKeepsOrder(s, t, id, Refused);
    case AbandonSubmit(id) => PhaseKeepsOrder(s, t, id, Refused);
    case DispatchHead(tag, now) =>
      HeadIsQueued(s, tag);
      PhaseKeepsOrder(s, t, s.books.tags[tag].fifo[0].id, WithWorker);
    case HandleEvent(_) => HandleKeepsBalance(s.files, s.queue, t);
    case TickEma(_) =>
    case EvictIdle(_) =>
    case CloseStop =>
    case ExitLoop(_) =>
    case _ => HookKeepsOrder(s, step, t);
  }

  lemma {:induction false} RunKeepsOrder(lim: Limits, steps: seq<Step>, t: Tag)
    requires lim.Valid() && Run(lim, steps).Some? && DoneWaits(lim, steps) && !Run(lim, steps).value.stopClosed
    ensures InOrder(Run(lim, steps).value, t)
  {
    if steps != [] {
      var n := |steps| - 1;
      var s := Run(lim, steps[..n]).value;
      RunKeepsInvariant(lim, steps[..n]);
      StopStays(s, steps[n]);
      RunKeepsOrder(lim, steps[..n], t);
      StepKeepsOrder(s, steps[n], t);
    }
  }

  /** While `stop` is open, and as long as no hook sends its done event ahead of its own
      first byte, no more transfers of a tag starve than are active. */
  lemma OrderedHooksKeepStarvingWithinActive(lim: Limits, steps: seq<Step>, t: Tag)
    requires lim.Valid() && Run(lim, steps).Some? && DoneWaits(lim, steps) && !Run(lim, steps).value.stopClosed
    ensures var s := Run(lim, steps).value;
      At(s.books.tags, t).starving <= At(s.books.tags, t).active
  {
    var s := Run(lim, steps).value;
    RunKeepsOrder(lim, steps, t);
    RunKeepsInvariant(lim, steps);
    StarvingWithinActiveExactlyWhen(lim, steps, t);
    assert SuffixBalanced(s.files, s.queue, t, 0);
    assert s.queue[0..] == s.queue;
  }
}
