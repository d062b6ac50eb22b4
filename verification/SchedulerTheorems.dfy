/** The promises of the fair transfer scheduler, for every run. */
module SchedulerTheorems {
  import opened Collections
  import opened SchedulerBooks
  import opened SchedulerRuns
  import opened SchedulerSafety

  /** A tag's counters are exactly the decrements still owed to it, so the guards
      of the event handler never suppress one. */
  lemma CountersAreOwed(lim: Limits, steps: seq<Step>, t: Tag)
    requires lim.Valid() && Run(lim, steps).Some?
    ensures var s := Run(lim, steps).value;
      && At(s.books.tags, t).active == ActiveOwed(s, t)
      && At(s.books.tags, t).starving == StarvingOwed(s, t)
      && (s.queue != [] ==>
            var ev := s.queue[0];
            && (ev.kind == Done ==> At(s.books.tags, ev.tag).active > 0)
            && (ev.kind == FirstByte || ev.stillStarving ==> At(s.books.tags, ev.tag).starving > 0))
  {
    RunKeepsInvariant(lim, steps);
    var s := Run(lim, steps).value;
    if s.queue != [] {
      GuardsNeverSuppress(s);
    }
    assert At(s.books.tags, t).active == ActiveOwed(s, t);
  }

  /** No tag exceeds its caps, and the workers it occupies are at most its active cap. */
  lemma FairShare(lim: Limits, steps: seq<Step>, t: Tag)
    requires lim.Valid() && Run(lim, steps).Some?
    ensures var s := Run(lim, steps).value;
      && At(s.books.tags, t).starving <= lim.starvingCap
      && At(s.books.tags, t).active <= lim.activeCap
      && Sum(s.files, ActiveShare(t)) <= lim.activeCap <= lim.workerCount
  {
    CountersAreOwed(lim, steps, t);
    RunKeepsInvariant(lim, steps);
    SharesNotNegative(Run(lim, steps).value, t);
  }

  /** In every reachable state a tag's average lies between zero and the active cap, its
      weight times one plus the average is one, and the next tick is well defined. */
  lemma WeightsFollowUse(lim: Limits, steps: seq<Step>, t: Tag, alpha: real)
    requires lim.Valid() && Run(lim, steps).Some? && 0.0 < alpha < 1.0
    ensures var s := Run(lim, steps).value;
      && (t in s.books.tags ==>
            && 0.0 <= s.books.tags[t].ema <= lim.activeCap as real
            && s.books.tags[t].weight * (1.0 + s.books.tags[t].ema) == 1.0)
      && (!s.exited ==> Enabled(s, TickEma(alpha)))
  {
    var s := Run(lim, steps).value;
    RunKeepsBooks(lim, steps);
    forall x | x in s.books.tags ensures NextEma(s.books.tags[x], alpha) >= 0.0 {
      EmaCanTick(lim, s.books, x, alpha);
    }
    if t in s.books.tags {
      EmaOf(lim, s.books, t);
    }
  }

  lemma RunKeepsBooks(lim: Limits, steps: seq<Step>)
    requires lim.Valid() && Run(lim, steps).Some?
    ensures BooksValid(lim, Run(lim, steps).value.books) && Run(lim, steps).value.lim == lim
  {
    RunKeepsInvariant(lim, steps);
  }

  lemma EmaOf(lim: Limits, b: Books, t: Tag)
    requires BooksValid(lim, b) && t in b.tags
    ensures EmaInRange(lim, b.tags[t])
  {
    assert CountersValid(lim, b.tags[t]);
  }

  lemma EmaCanTick(lim: Limits, b: Books, t: Tag, alpha: real)
    requires BooksValid(lim, b) && t in b.tags && 0.0 < alpha < 1.0
    ensures NextEma(b.tags[t], alpha) >= 0.0
  {
    assert CountersValid(lim, b.tags[t]);
    TickKeepsRange(lim, b.tags[t], alpha);
  }

  /** Something that still has to release a slot of `t`: a transfer at work or a
      claimed event, an event in the queue, or one given up after `stop`. */
  ghost predicate OwesTo(s: System, t: Tag) {
    || (exists i :: 0 <= i < |s.files| && s.files[i].tag == t && s.files[i].WasDispatched()
                    && (s.files[i].phase == WithWorker || !s.files[i].fired
                        || s.files[i].firstByteHeld || s.files[i].doneHeld.Some?))
    || (exists i :: 0 <= i < |s.queue| && s.queue[i].tag == t)
    || (exists i :: 0 <= i < |s.lost| && s.lost[i].tag == t)
  }

  lemma PositiveCountersOweTo(s: System, t: Tag)
    requires HooksValid(s)
    requires ActiveOwed(s, t) > 0 || StarvingOwed(s, t) > 0
    ensures OwesTo(s, t)
  {
    SharesNotNegative(s, t);
    if Sum(s.files, ActiveShare(t)) > 0 {
      var i := PositiveSumHasTerm(s.files, ActiveShare(t));
      assert s.files[i].tag == t;
    } else if Sum(s.files, StarvingShare(t)) > 0 {
      var i := PositiveSumHasTerm(s.files, StarvingShare(t));
      assert s.files[i].tag == t;
    } else if Sum(s.queue, DoneCredit(t)) > 0 {
      var i := PositiveSumHasTerm(s.queue, DoneCredit(t));
      assert s.queue[i].tag == t;
    } else if Sum(s.queue, StarvingCredit(t)) > 0 {
      var i := PositiveSumHasTerm(s.queue, StarvingCredit(t));
      assert s.queue[i].tag == t;
    } else if Sum(s.lost, DoneCredit(t)) > 0 {
      var i := PositiveSumHasTerm(s.lost, DoneCredit(t));
      assert s.lost[i].tag == t;
    } else {
      var i := PositiveSumHasTerm(s.lost, StarvingCredit(t));
      assert s.lost[i].tag == t;
    }
  }

  /** A tag with queued work can be dispatched, or something still owes it a slot;
      before `stop` closes that is a transfer or an event the scheduler will see. */
  lemma NoTagIsWedged(lim: Limits, steps: seq<Step>, t: Tag)
    requires lim.Valid() && Run(lim, steps).Some?
    ensures var s := Run(lim, steps).value;
      && (At(s.books.tags, t).fifo != [] ==> Enabled(s, DispatchHead(t, 0)) || OwesTo(s, t))
      && (!s.stopClosed ==> s.lost == [])
  {
    RunKeepsInvariant(lim, steps);
    var s := Run(lim, steps).value;
    if At(s.books.tags, t).fifo != [] && !Eligible(s.lim, s.books.tags, t) {
      CountersAreOwed(lim, steps, t);
      PositiveCountersOweTo(s, t);
    }
  }

  lemma NoDebtNoEvents(events: seq<Event>, t: Tag)
    requires forall i :: 0 <= i < |events| ==> EventValid(events[i])
    requires Sum(events, DoneCredit(t)) <= 0 && Sum(events, StarvingCredit(t)) <= 0
    ensures forall i :: 0 <= i < |events| ==> events[i].tag != t
  {
    SumBoundsTerm(events, DoneCredit(t));
    SumBoundsTerm(events, StarvingCredit(t));
    forall i | 0 <= i < |events| ensures events[i].tag != t {
      assert DoneCredit(t)(events[i]) <= 0 && StarvingCredit(t)(events[i]) <= 0;
    }
  }

  lemma NoDebtNoFlight(files: seq<Transfer>, t: Tag)
    requires forall i :: 0 <= i < |files| ==> TransferValid(files[i])
    requires Sum(files, ActiveShare(t)) <= 0 && Sum(files, StarvingShare(t)) <= 0
    ensures forall i :: 0 <= i < |files| && files[i].tag == t ==>
      && files[i].phase != WithWorker && files[i].doneHeld.None? && !files[i].firstByteHeld
      && (files[i].WasDispatched() ==> files[i].fired)
  {
    SumBoundsTerm(files, ActiveShare(t));
    SumBoundsTerm(files, StarvingShare(t));
    forall i | 0 <= i < |files| && files[i].tag == t
      ensures files[i].phase != WithWorker && files[i].doneHeld.None? && !files[i].firstByteHeld
      ensures files[i].WasDispatched() ==> files[i].fired
    {
      assert ActiveShare(t)(files[i]) <= 0 && StarvingShare(t)(files[i]) <= 0;
    }
  }

  /** A tag that nothing is owed to: the ledger of its counters is empty. */
  lemma NothingOwed(s: System, t: Tag)
    requires HooksValid(s) && ActiveOwed(s, t) <= 0 && StarvingOwed(s, t) <= 0
    ensures !OwesTo(s, t)
  {
    SharesNotNegative(s, t);
    NoDebtNoFlight(s.files, t);
    EventsAreValid(s);
    NoDebtNoEvents(s.queue, t);
    NoDebtNoEvents(s.lost, t);
  }

  lemma EventsAreValid(s: System)
    requires HooksValid(s)
    ensures forall i :: 0 <= i < |s.queue| ==> EventValid(s.queue[i])
    ensures forall i :: 0 <= i < |s.lost| ==> EventValid(s.lost[i])
  {
    assert forall i :: 0 <= i < |s.queue| ==> s.queue[i] in s.queue + s.lost;
    assert forall i :: 0 <= i < |s.lost| ==> s.lost[i] in s.queue + s.lost;
  }

  /** What an eviction removes is a tag with nothing queued and nothing owed. */
  lemma EvictionIsSafe(lim: Limits, steps: seq<Step>, t: Tag, now: int)
    requires lim.Valid() && Run(lim, steps).Some?
    requires var s := Run(lim, steps).value; t in s.books.tags && t !in Evict(lim, s.books.tags, now)
    ensures var s := Run(lim, steps).value;
      && !OwesTo(s, t)
      && (forall id :: 0 <= id < |s.files| && s.files[id].tag == t ==> s.files[id].phase != Queued)
  {
    RunKeepsInvariant(lim, steps);
    CountersAreOwed(lim, steps, t);
    var s := Run(lim, steps).value;
    NothingOwed(s, t);
    forall id | 0 <= id < |s.files| && s.files[id].tag == t ensures s.files[id].phase != Queued {
      FateOf(s, id);
    }
  }

  lemma FateOf(s: System, id: nat)
    requires OrderValid(s) && LogsValid(s) && id < |s.files|
    ensures var f := Ticket(s, id);
      Occurrences(s.admitted, f) == Occurrences(s.dispatched, f) + Occurrences(At(s.books.tags, f.tag).fifo, f)
                                  + Occurrences(s.dropped, f)
    ensures s.files[id].phase == Queued ==> At(s.books.tags, s.files[id].tag).fifo != []
  {
    var f := Ticket(s, id);
    var t := f.tag;
    assert OrderValidOn(s, t);
    SelectKeepsOccurrences(s.admitted, OnTag(t), f);
    SelectKeepsOccurrences(s.dispatched, OnTag(t), f);
    SelectKeepsOccurrences(s.dropped, OnTag(t), f);
    if s.files[id].phase == Queued {
      assert s.dropped == [];
      assert Occurrences(s.admitted, f) == 1 && Occurrences(s.dispatched, f) == 0;
    }
  }

  /** A submitted transfer is refused and never queued, or it is in exactly one of
      the queue, the dispatches and the drops, exactly once; after the exit the
      queue is no longer one of them. */
  lemma ExactlyOneFate(lim: Limits, steps: seq<Step>, id: nat)
    requires lim.Valid() && Run(lim, steps).Some? && id < |Run(lim, steps).value.files|
    ensures var s := Run(lim, steps).value; var f := Ticket(s, id);
      && Occurrences(s.dispatched, f) + Occurrences(At(s.books.tags, f.tag).fifo, f) + Occurrences(s.dropped, f)
         == (if s.files[id].phase == Submitting || s.files[id].phase == Refused then 0 else 1)
      && (Occurrences(s.dispatched, f) == 1 <==> s.files[id].WasDispatched())
      && (s.exited ==> At(s.books.tags, f.tag).fifo == [])
      && (!s.exited ==> s.dropped == [])
  {
    RunKeepsInvariant(lim, steps);
    FateOf(Run(lim, steps).value, id);
  }

  /** On every tag, what was dispatched is a prefix of what was admitted. */
  lemma DispatchFollowsAdmission(lim: Limits, steps: seq<Step>, t: Tag)
    requires lim.Valid() && Run(lim, steps).Some?
    ensures var s := Run(lim, steps).value;
      Select(s.dispatched, OnTag(t)) <= Select(s.admitted, OnTag(t))
  {
    RunKeepsInvariant(lim, steps);
    assert OrderValidOn(Run(lim, steps).value, t);
  }

  /** The totals, through shutdown, and the bound on what may be pending. */
  lemma AdmissionBound(lim: Limits, steps: seq<Step>)
    requires lim.Valid() && Run(lim, steps).Some?
    ensures var s := Run(lim, steps).value; var b := s.books;
      && b.pending == MapTotal(b.tags, FifoLength())
      && b.totalAdmits == |s.dispatched| + b.pending + |s.dropped|
      && (lim.pendingSize > 0 && NonEmpty(b.tags) != {} ==> b.pending <= lim.pendingSize + |NonEmpty(b.tags)| - 1)
      && (lim.perTagPendingSize > 0 ==> forall t :: t in b.tags ==> |b.tags[t].fifo| <= lim.perTagPendingSize)
  {
    RunKeepsInvariant(lim, steps);
  }

  /** A shed blames the origin exactly when the tag holds a full share: unresponsive
      when its starving transfers fill the starving cap, slow when only its active
      transfers fill the active cap. */
  lemma ShedBlamesTheRightParty(lim: Limits, steps: seq<Step>, f: File, now: int)
    requires lim.Valid() && Run(lim, steps).Some?
    requires Admit(lim, Run(lim, steps).value.books, f, now).1.Some?
    ensures var s := Run(lim, steps).value;
      var reason := Admit(lim, s.books, f, now).1.value;
      && (reason == OriginUnresponsive <==> StarvingOwed(s, f.tag) == lim.starvingCap)
      && (reason == OriginSlow <==> StarvingOwed(s, f.tag) < lim.starvingCap && ActiveOwed(s, f.tag) == lim.activeCap)
  {
    CountersAreOwed(lim, steps, f.tag);
    FairShare(lim, steps, f.tag);
  }

  lemma StopStays(s: System, step: Step)
    requires Enabled(s, step)
    ensures s.stopClosed ==> Apply(s, step).stopClosed
  {
  }

  lemma Extend(lim: Limits, steps: seq<Step>, s: System, step: Step)
    requires Run(lim, steps) == Some(s) && Enabled(s, step)
    ensures Run(lim, steps + [step]) == Some(Apply(s, step))
  {
    assert (steps + [step])[..|steps|] == steps;
  }

  lemma More(lim: Limits, steps: seq<Step>, s: System, step: Step) returns (steps': seq<Step>, s': System)
    requires Run(lim, steps) == Some(s) && Enabled(s, step)
    ensures s' == Apply(s, step) && Run(lim, steps') == Some(s')
  {
    Extend(lim, steps, s, step);
    steps', s' := steps + [step], Apply(s, step);
  }

  /** A file that is with a worker, the only one. */
  lemma OneDispatched(lim: Limits, t: Tag) returns (steps: seq<Step>, s: System)
    requires lim.Valid()
    ensures Run(lim, steps) == Some(s) && !s.exited && !s.stopClosed && s.queue == [] && s.lost == []
    ensures |s.files| == 1 && s.files[0].tag == t && s.files[0].phase == WithWorker && !s.files[0].fired
    ensures s.files[0].doneHeld.None? && !s.files[0].firstByteHeld
    ensures t in s.books.tags && At(s.books.tags, t).active == 1 && At(s.books.tags, t).starving == 1
  {
    steps, s := [], Init(lim);
    steps, s := More(lim, steps, s, SubmitFile(t));
    steps, s := More(lim, steps, s, AdmitFile(0, 0));
    steps, s := More(lim, steps, s, DispatchHead(t, 0));
  }

  /** `starving <= active` is not an invariant: an upload whose late first-byte
      event follows its done event starves with nothing active. */
  lemma StarvingMayExceedActive(lim: Limits, t: Tag) returns (steps: seq<Step>)
    requires lim.Valid()
    ensures Run(lim, steps).Some?
    ensures var tags := Run(lim, steps).value.books.tags;
      At(tags, t).active == 0 && At(tags, t).starving == 1
  {
    var s;
    steps, s := OneDispatched(lim, t);
    steps, s := More(lim, steps, s, ClaimFirstByte(0));
    steps, s := More(lim, steps, s, ClaimDone(0));
    steps, s := More(lim, steps, s, SendDone(0, true));
    steps, s := More(lim, steps, s, HandleEvent(0));
  }
}
