/** How many events are on their way to the scheduler, and when its event buffer has
    room for them all. */
module SchedulerBuffer {
  import opened Collections
  import opened SchedulerBooks
  import opened SchedulerRuns
  import opened SchedulerSafety
  import opened SchedulerTheorems

  /** The capacity of the events channel. */
  function EventBuffer(lim: Limits): int {
    if 2 * lim.workerCount < 256 then 256 else 2 * lim.workerCount
  }

  /** Units of `active` and `starving` with a transfer ... */
  function ActiveOf(f: Transfer): int {
    (if f.phase == WithWorker then 1 else 0) + (if f.doneHeld.Some? then 1 else 0)
  }

  function StarvingOf(f: Transfer): int {
    (if f.WasDispatched() && !f.fired then 1 else 0) + (if f.firstByteHeld then 1 else 0)
    + (if f.doneHeld == Some(true) then 1 else 0)
  }

  /** ... or with an event. */
  function DoneOf(e: Event): int {
    if e.kind == Done then 1 else 0
  }

  function StarvesOf(e: Event): int {
    if e.kind == FirstByte || e.stillStarving then 1 else 0
  }

  function ActiveUnits(): Transfer -> int {
    (f: Transfer) => ActiveOf(f)
  }

  function StarvingUnits(): Transfer -> int {
    (f: Transfer) => StarvingOf(f)
  }

  function DoneUnit(): Event -> int {
    (e: Event) => DoneOf(e)
  }

  function StarvingUnit(): Event -> int {
    (e: Event) => StarvesOf(e)
  }

  function AllActive(s: System): int {
    Sum(s.files, ActiveUnits()) + Sum(s.queue, DoneUnit())
  }

  function AllStarving(s: System): int {
    Sum(s.files, StarvingUnits()) + Sum(s.queue, StarvingUnit())
  }

  /** The workers that are taken: a worker is free again when it has sent the done event
      of its transfer. */
  function Busy(s: System): int {
    Sum(s.files, ActiveUnits())
  }

  /** Events that hooks hold and have not sent. */
  function Unsent(): Transfer -> int {
    (f: Transfer) => (if f.firstByteHeld then 1 else 0) + (if f.doneHeld.Some? then 1 else 0)
  }

  /** Events on their way: held by a hook or in the channel. */
  function OnTheWay(s: System): int {
    Sum(s.files, Unsent()) + |s.queue|
  }

  /** The run never uses more workers than there are. */
  ghost predicate InPool(lim: Limits, steps: seq<Step>)
    requires Run(lim, steps).Some?
  {
    steps != [] ==> InPool(lim, steps[..|steps| - 1]) && Busy(Run(lim, steps).value) <= lim.workerCount
  }

  // ----- Every tag within its caps -----

  /** `n` times a cap. */
  function Each(n: nat, cap: int): (r: int)
    ensures cap >= 0 ==> r >= 0
  {
    if n == 0 then 0 else Each(n - 1, cap) + cap
  }

  lemma {:induction false} EachIsTimes(n: nat, cap: int)
    ensures Each(n, cap) == n * cap
  {
    if n > 0 {
      EachIsTimes(n - 1, cap);
      assert n * cap == (n - 1) * cap + cap;
    }
  }

  lemma {:induction false} EachPlus(n: nat, a: int, b: int)
    ensures Each(n, a + b) == Each(n, a) + Each(n, b)
  {
    if n > 0 {
      EachPlus(n - 1, a, b);
    }
  }

  function ActiveOn(tags: set<Tag>): Transfer -> int {
    (f: Transfer) => if f.tag in tags then ActiveOf(f) else 0
  }

  function StarvingOn(tags: set<Tag>): Transfer -> int {
    (f: Transfer) => if f.tag in tags then StarvingOf(f) else 0
  }

  function DoneOn(tags: set<Tag>): Event -> int {
    (e: Event) => if e.tag in tags then DoneOf(e) else 0
  }

  function StarvesOn(tags: set<Tag>): Event -> int {
    (e: Event) => if e.tag in tags then StarvesOf(e) else 0
  }

  lemma TransferSplits(f: Transfer, tags: set<Tag>, t: Tag)
    requires t in tags
    ensures ActiveOn(tags)(f) == ActiveOn(tags - {t})(f) + ActiveShare(t)(f)
    ensures StarvingOn(tags)(f) == StarvingOn(tags - {t})(f) + StarvingShare(t)(f)
  {
    if f.tag == t {
      assert f.tag !in tags - {t};
    } else {
      assert f.tag in tags <==> f.tag in tags - {t};
    }
  }

  lemma EventSplits(e: Event, tags: set<Tag>, t: Tag)
    requires t in tags
    ensures DoneOn(tags)(e) == DoneOn(tags - {t})(e) + DoneCredit(t)(e)
    ensures StarvesOn(tags)(e) == StarvesOn(tags - {t})(e) + StarvingCredit(t)(e)
  {
    if e.tag == t {
      assert e.tag !in tags - {t};
    } else {
      assert e.tag in tags <==> e.tag in tags - {t};
    }
  }

  lemma {:induction false} ActiveWithinCaps(files: seq<Transfer>, queue: seq<Event>, tags: set<Tag>, cap: int)
    requires forall t :: t in tags ==> Sum(files, ActiveShare(t)) + Sum(queue, DoneCredit(t)) <= cap
    ensures Sum(files, ActiveOn(tags)) + Sum(queue, DoneOn(tags)) <= Each(|tags|, cap)
    decreases |tags|
  {
    if tags == {} {
      SumOfZeros(files, ActiveOn(tags));
      SumOfZeros(queue, DoneOn(tags));
    } else {
      var t :| t in tags;
      var rest := tags - {t};
      ActiveWithinCaps(files, queue, rest, cap);
      forall i | 0 <= i < |files|
        ensures ActiveOn(tags)(files[i]) == ActiveOn(rest)(files[i]) + ActiveShare(t)(files[i])
      {
        TransferSplits(files[i], tags, t);
      }
      SumPlus(files, ActiveOn(tags), ActiveOn(rest), ActiveShare(t));
      forall i | 0 <= i < |queue| ensures DoneOn(tags)(queue[i]) == DoneOn(rest)(queue[i]) + DoneCredit(t)(queue[i]) {
        EventSplits(queue[i], tags, t);
      }
      SumPlus(queue, DoneOn(tags), DoneOn(rest), DoneCredit(t));
    }
  }

  lemma {:induction false} StarvingWithinCaps(files: seq<Transfer>, queue: seq<Event>, tags: set<Tag>, cap: int)
    requires forall t :: t in tags ==> Sum(files, StarvingShare(t)) + Sum(queue, StarvingCredit(t)) <= cap
    ensures Sum(files, StarvingOn(tags)) + Sum(queue, StarvesOn(tags)) <= Each(|tags|, cap)
    decreases |tags|
  {
    if tags == {} {
      SumOfZeros(files, StarvingOn(tags));
      SumOfZeros(queue, StarvesOn(tags));
    } else {
      var t :| t in tags;
      var rest := tags - {t};
      StarvingWithinCaps(files, queue, rest, cap);
      forall i | 0 <= i < |files|
        ensures StarvingOn(tags)(files[i]) == StarvingOn(rest)(files[i]) + StarvingShare(t)(files[i])
      {
        TransferSplits(files[i], tags, t);
      }
      SumPlus(files, StarvingOn(tags), StarvingOn(rest), StarvingShare(t));
      forall i | 0 <= i < |queue|
        ensures StarvesOn(tags)(queue[i]) == StarvesOn(rest)(queue[i]) + StarvingCredit(t)(queue[i])
      {
        EventSplits(queue[i], tags, t);
      }
      SumPlus(queue, StarvesOn(tags), StarvesOn(rest), StarvingCredit(t));
    }
  }

  /** What is active or starving is so on a tag with an entry. */
  lemma OwedOnTags(s: System, t: Tag)
    requires HooksValid(s) && LedgerBalances(s) && t !in s.books.tags
    ensures forall i :: 0 <= i < |s.files| && s.files[i].tag == t ==>
      ActiveOf(s.files[i]) == 0 && StarvingOf(s.files[i]) == 0
    ensures forall i :: 0 <= i < |s.queue| ==> s.queue[i].tag != t
  {
    assert At(s.books.tags, t).active == ActiveOwed(s, t) && At(s.books.tags, t).starving == StarvingOwed(s, t);
    SharesNotNegative(s, t);
    EventsAreValid(s);
    NoDebtNoEvents(s.queue, t);
    NoDebtNoFlight(s.files, t);
    forall i | 0 <= i < |s.files| && s.files[i].tag == t
      ensures ActiveOf(s.files[i]) == 0 && StarvingOf(s.files[i]) == 0
    {
      assert TransferValid(s.files[i]);
    }
  }

  lemma AllOnTags(s: System)
    requires HooksValid(s) && LedgerBalances(s)
    ensures var tags := s.books.tags.Keys;
      && AllActive(s) <= Sum(s.files, ActiveOn(tags)) + Sum(s.queue, DoneOn(tags))
      && AllStarving(s) <= Sum(s.files, StarvingOn(tags)) + Sum(s.queue, StarvesOn(tags))
  {
    var tags := s.books.tags.Keys;
    forall i | 0 <= i < |s.files|
      ensures ActiveOf(s.files[i]) <= ActiveOn(tags)(s.files[i])
      ensures StarvingOf(s.files[i]) <= StarvingOn(tags)(s.files[i])
    {
      if s.files[i].tag !in tags {
        OwedOnTags(s, s.files[i].tag);
      }
    }
    forall i | 0 <= i < |s.queue|
      ensures DoneOf(s.queue[i]) <= DoneOn(tags)(s.queue[i]) && StarvesOf(s.queue[i]) <= StarvesOn(tags)(s.queue[i])
    {
      if s.queue[i].tag !in tags {
        OwedOnTags(s, s.queue[i].tag);
      }
    }
    SumOrder(s.files, ActiveUnits(), ActiveOn(tags));
    SumOrder(s.files, StarvingUnits(), StarvingOn(tags));
    SumOrder(s.queue, DoneUnit(), DoneOn(tags));
    SumOrder(s.queue, StarvingUnit(), StarvesOn(tags));
  }

  /** All tags together hold at most their caps. */
  lemma AllWithinCaps(s: System)
    requires HooksValid(s) && LedgerBalances(s) && BooksValid(s.lim, s.books)
    ensures AllActive(s) <= Each(|s.books.tags|, s.lim.activeCap)
    ensures AllStarving(s) <= Each(|s.books.tags|, s.lim.starvingCap)
  {
    forall t | t in s.books.tags
      ensures Sum(s.files, ActiveShare(t)) + Sum(s.queue, DoneCredit(t)) <= s.lim.activeCap
      ensures Sum(s.files, StarvingShare(t)) + Sum(s.queue, StarvingCredit(t)) <= s.lim.starvingCap
    {
      assert At(s.books.tags, t).active == ActiveOwed(s, t) && At(s.books.tags, t).starving == StarvingOwed(s, t);
      SharesNotNegative(s, t);
    }
    AllOnTags(s);
    assert |s.books.tags.Keys| == |s.books.tags|;
    ActiveWithinCaps(s.files, s.queue, s.books.tags.Keys, s.lim.activeCap);
    StarvingWithinCaps(s.files, s.queue, s.books.tags.Keys, s.lim.starvingCap);
  }

  /** Every event on its way is a unit of one of the counters. */
  lemma EventsAreUnits(s: System)
    ensures OnTheWay(s) <= AllActive(s) + AllStarving(s)
  {
    SumOfOnes(s.queue);
    SumPlus(s.files, (f: Transfer) => ActiveOf(f) + StarvingOf(f), ActiveUnits(), StarvingUnits());
    SumOrder(s.files, Unsent(), (f: Transfer) => ActiveOf(f) + StarvingOf(f));
    SumPlus(s.queue, (e: Event) => DoneOf(e) + StarvesOf(e), DoneUnit(), StarvingUnit());
    SumOrder(s.queue, (e: Event) => 1, (e: Event) => DoneOf(e) + StarvesOf(e));
  }

  lemma {:induction false} SumOfOnes(queue: seq<Event>)
    ensures Sum(queue, (e: Event) => 1) == |queue|
  {
    if queue != [] {
      SumOfOnes(queue[..|queue| - 1]);
    }
  }

  lemma EventsOfTags(s: System)
    requires HooksValid(s) && LedgerBalances(s) && BooksValid(s.lim, s.books)
    ensures OnTheWay(s) <= Each(|s.books.tags|, s.lim.starvingCap) + Each(|s.books.tags|, s.lim.activeCap)
  {
    AllWithinCaps(s);
    EventsAreUnits(s);
  }

  lemma RunKeepsOrders(lim: Limits, steps: seq<Step>)
    requires lim.Valid() && Run(lim, steps).Some?
    ensures var s := Run(lim, steps).value;
      && HooksValid(s) && LedgerBalances(s) && FifosValid(s.books.tags) && OrderValid(s) && LogsValid(s)
      && BooksValid(lim, s.books) && s.lim == lim
  {
    RunKeepsInvariant(lim, steps);
  }

  /** In every run: for every tag with an entry, at most as many events are on their way
      as the caps together allow. */
  lemma EventsWithinCaps(lim: Limits, steps: seq<Step>)
    requires lim.Valid() && Run(lim, steps).Some?
    ensures var s := Run(lim, steps).value;
      OnTheWay(s) <= Each(|s.books.tags|, lim.starvingCap) + Each(|s.books.tags|, lim.activeCap)
  {
    RunKeepsOrders(lim, steps);
    EventsOfTags(Run(lim, steps).value);
  }

  // ----- A pool of workers -----

  /** How far `active` runs ahead of `starving` with a transfer, and with an event. */
  function Lead(): Transfer -> int {
    (f: Transfer) => ActiveOf(f) - StarvingOf(f)
  }

  function LeadOf(): Event -> int {
    (e: Event) => DoneOf(e) - StarvesOf(e)
  }

  /** Whatever prefix of the queue has been handled, `active` leads by no more than the
      pool. */
  predicate SuffixLeads(files: seq<Transfer>, queue: seq<Event>, pool: int, k: nat)
    requires k <= |queue|
  {
    Sum(files, Lead()) + Sum(queue[k..], LeadOf()) <= pool
  }

  ghost predicate LeadWithin(files: seq<Transfer>, queue: seq<Event>, pool: int) {
    forall k :: 0 <= k <= |queue| ==> SuffixLeads(files, queue, pool, k)
  }

  lemma MoveKeepsLead(files: seq<Transfer>, queue: seq<Event>, pool: int, id: nat, f: Transfer)
    requires id < |files| && LeadWithin(files, queue, pool) && Lead()(f) == Lead()(files[id])
    ensures LeadWithin(files[id := f], queue, pool)
  {
    SumUpdate(files, id, f, Lead());
    var moved := files[id := f];
    forall k | 0 <= k <= |queue| ensures SuffixLeads(moved, queue, pool, k) {
      assert SuffixLeads(files, queue, pool, k);
    }
  }

  lemma SubmitKeepsLead(files: seq<Transfer>, queue: seq<Event>, pool: int, tag: Tag)
    requires LeadWithin(files, queue, pool)
    ensures LeadWithin(files + [Submitted(tag)], queue, pool)
  {
    SumAppend(files, Submitted(tag), Lead());
    forall k | 0 <= k <= |queue| ensures SuffixLeads(files + [Submitted(tag)], queue, pool, k) {
      assert SuffixLeads(files, queue, pool, k);
    }
  }

  /** What is sent leaves the transfer for the queue; the transfers alone lead by at most
      the workers they take. */
  lemma SendKeepsLead(files: seq<Transfer>, queue: seq<Event>, pool: int, id: nat, f: Transfer, e: Event)
    requires id < |files| && LeadWithin(files, queue, pool) && Lead()(f) + LeadOf()(e) == Lead()(files[id])
    requires Sum(files[id := f], ActiveUnits()) <= pool
    ensures LeadWithin(files[id := f], queue + [e], pool)
  {
    SumUpdate(files, id, f, Lead());
    var sent, longer := files[id := f], queue + [e];
    forall k | 0 <= k <= |longer| ensures SuffixLeads(sent, longer, pool, k) {
      if k <= |queue| {
        assert SuffixLeads(files, queue, pool, k);
        assert longer[k..] == queue[k..] + [e];
        SumAppend(queue[k..], e, LeadOf());
      } else {
        SumOrder(sent, Lead(), ActiveUnits());
        assert longer[k..] == [];
      }
    }
  }

  lemma HandleKeepsLead(files: seq<Transfer>, queue: seq<Event>, pool: int)
    requires queue != [] && LeadWithin(files, queue, pool)
    ensures LeadWithin(files, queue[1..], pool)
  {
    var rest := queue[1..];
    forall k | 0 <= k <= |rest| ensures SuffixLeads(files, rest, pool, k) {
      assert SuffixLeads(files, queue, pool, k + 1);
      assert rest[k..] == queue[k + 1..];
    }
  }

  /** A step that changes the phase of a transfer which never had a worker before. */
  lemma PhaseKeepsLead(s: System, pool: int, id: nat, phase: Phase)
    requires HooksValid(s) && LeadWithin(s.files, s.queue, pool)
    requires id < |s.files| && !s.files[id].WasDispatched() && phase != Finished
    ensures LeadWithin(WithPhase(s.files, id, phase), s.queue, pool)
  {
    var f := s.files[id].(phase := phase);
    assert TransferValid(s.files[id]);
    assert StarvingOf(s.files[id]) == 0 && ActiveOf(s.files[id]) == 0;
    MoveKeepsLead(s.files, s.queue, pool, id, f);
  }

  lemma HookKeepsLead(s: System, step: Step, pool: int)
    requires HooksValid(s) && LeadWithin(s.files, s.queue, pool) && Enabled(s, step) && !Apply(s, step).stopClosed
    requires step.ClaimFirstByte? || step.SendFirstByte? || step.ClaimDone? || step.SendDone?
    requires Busy(Apply(s, step)) <= pool
    ensures LeadWithin(Apply(s, step).files, Apply(s, step).queue, pool)
  {
    var f := s.files[step.id];
    assert TransferValid(f);
    match step
    case ClaimFirstByte(id) =>
      if !f.fired {
        MoveKeepsLead(s.files, s.queue, pool, id, f.(fired := true, firstByteHeld := true));
      }
    case SendFirstByte(id, _) =>
      SendKeepsLead(s.files, s.queue, pool, id, f.(firstByteHeld := false), Event(FirstByte, f.tag, false));
    case ClaimDone(id) =>
      MoveKeepsLead(s.files, s.queue, pool, id, f.(phase := Finished, fired := true, doneHeld := Some(!f.fired)));
    case SendDone(id, _) =>
      SendKeepsLead(s.files, s.queue, pool, id, f.(doneHeld := None), Event(Done, f.tag, f.doneHeld.value));
  }

  lemma StepKeepsLead(s: System, step: Step, pool: int)
    requires HooksValid(s) && FifosValid(s.books.tags) && OrderValid(s) && LogsValid(s)
    requires LeadWithin(s.files, s.queue, pool) && Enabled(s, step) && !Apply(s, step).stopClosed
    requires Busy(Apply(s, step)) <= pool
    ensures LeadWithin(Apply(s, step).files, Apply(s, step).queue, pool)
  {
    match step
    case SubmitFile(tag) => SubmitKeepsLead(s.files, s.queue, pool, tag);
    case AdmitFile(id, now) =>
      PhaseKeepsLead(s, pool, id, Queued);
      PhaseKeepsLead(s, pool, id, Refused);
    case AbandonSubmit(id) => PhaseKeepsLead(s, pool, id, Refused);
    case DispatchHead(tag, now) =>
      HeadIsQueued(s, tag);
      PhaseKeepsLead(s, pool, s.books.tags[tag].fifo[0].id, WithWorker);
    case HandleEvent(_) => HandleKeepsLead(s.files, s.queue, pool);
    case TickEma(_) =>
    case EvictIdle(_) =>
    case CloseStop =>
    case ExitLoop(_) =>
    case _ => HookKeepsLead(s, step, pool);
  }

  lemma {:induction false} RunKeepsLead(lim: Limits, steps: seq<Step>)
    requires lim.Valid() && Run(lim, steps).Some? && InPool(lim, steps) && !Run(lim, steps).value.stopClosed
    ensures var s := Run(lim, steps).value; LeadWithin(s.files, s.queue, lim.workerCount)
  {
    if steps == [] {
      assert Sum(Init(lim).files, Lead()) == 0 && Sum(Init(lim).queue, LeadOf()) == 0;
    } else {
      var n := |steps| - 1;
      var s := Run(lim, steps[..n]).value;
      RunKeepsOrders(lim, steps[..n]);
      StopStays(s, steps[n]);
      RunKeepsLead(lim, steps[..n]);
      StepKeepsLead(s, steps[n], lim.workerCount);
    }
  }

  lemma LeadIsDifference(s: System)
    ensures Sum(s.files, Lead()) + Sum(s.queue, LeadOf()) == AllActive(s) - AllStarving(s)
  {
    SumPlus(s.files, ActiveUnits(), Lead(), StarvingUnits());
    SumPlus(s.queue, DoneUnit(), LeadOf(), StarvingUnit());
  }

  /** The most events that can be on their way with entries for `n` tags: each tag's
      starving transfers, and as many active ones as the caps and the pool allow. */
  function Peak(lim: Limits, n: nat): int {
    var starving, active := Each(n, lim.starvingCap), Each(n, lim.activeCap);
    starving + if active <= starving + lim.workerCount then active else starving + lim.workerCount
  }

  /** In every run that stays within the pool. */
  lemma EventsWithinPeak(lim: Limits, steps: seq<Step>)
    requires lim.Valid() && Run(lim, steps).Some? && InPool(lim, steps) && !Run(lim, steps).value.stopClosed
    ensures var s := Run(lim, steps).value;
      OnTheWay(s) <= Peak(lim, |s.books.tags|)
  {
    var s := Run(lim, steps).value;
    RunKeepsOrders(lim, steps);
    AllWithinCaps(s);
    EventsAreUnits(s);
    RunKeepsLead(lim, steps);
    assert SuffixLeads(s.files, s.queue, lim.workerCount, 0);
    assert s.queue[0..] == s.queue;
    LeadIsDifference(s);
  }
}
