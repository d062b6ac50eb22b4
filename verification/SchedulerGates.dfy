/** When the scheduler admits, dispatches and evicts, in terms of what was submitted and
    what is still owed. */
module SchedulerGates {
  import opened Collections
  import opened SchedulerBooks
  import opened SchedulerRuns
  import opened SchedulerSafety
  import opened SchedulerTheorems

  // ----- Admission -----

  /** Files of the tag that were admitted and not dispatched. */
  function Waiting(s: System, t: Tag): int {
    |Select(s.admitted, OnTag(t))| - |Select(s.dispatched, OnTag(t))|
  }

  function WaitingInAll(s: System): int {
    |s.admitted| - |s.dispatched|
  }

  lemma WaitingIsQueued(lim: Limits, steps: seq<Step>, t: Tag)
    requires lim.Valid() && Run(lim, steps).Some? && !Run(lim, steps).value.exited
    ensures var s := Run(lim, steps).value;
      Waiting(s, t) == |At(s.books.tags, t).fifo| && WaitingInAll(s) == s.books.pending
  {
    var s := Run(lim, steps).value;
    RunKeepsInvariant(lim, steps);
    assert OrderValidOn(s, t) && s.dropped == [];
    assert Select(s.dropped, OnTag(t)) == [];
  }

  /** In every reachable state a submitted file is shed if and only if its tag has its full
      number of files waiting, or has some waiting while the pool has its full number; a
      tag with nothing waiting is always admitted. The counters tell the two apart. */
  lemma ShedExactlyWhen(lim: Limits, steps: seq<Step>, f: File, now: int)
    requires lim.Valid() && Run(lim, steps).Some? && !Run(lim, steps).value.exited
    ensures var s := Run(lim, steps).value; var (b, shed) := Admit(lim, s.books, f, now);
      var tagFull := lim.perTagPendingSize > 0 && Waiting(s, f.tag) >= lim.perTagPendingSize;
      var poolFull := lim.pendingSize > 0 && Waiting(s, f.tag) > 0 && WaitingInAll(s) >= lim.pendingSize;
      && (shed.Some? <==> tagFull || poolFull)
      && b.totalAdmits == s.books.totalAdmits + (if shed.None? then 1 else 0)
      && b.rejectsPerTag == s.books.rejectsPerTag + (if tagFull then 1 else 0)
      && b.rejectsGlobal == s.books.rejectsGlobal + (if poolFull && !tagFull then 1 else 0)
      && (f.tag in b.tags && b.tags[f.tag].admits == At(s.books.tags, f.tag).admits + (if shed.None? then 1 else 0))
      && b.tags[f.tag].rejects == At(s.books.tags, f.tag).rejects + (if shed.Some? then 1 else 0)
  {
    WaitingIsQueued(lim, steps, f.tag);
  }

  // ----- Dispatch -----

  /** In every reachable state the head of a tag can be dispatched if and only if a file of
      it waits and fewer transfers than each cap allows still owe it an event. */
  lemma DispatchableExactlyWhen(lim: Limits, steps: seq<Step>, t: Tag, now: int)
    requires lim.Valid() && Run(lim, steps).Some? && !Run(lim, steps).value.exited
    ensures var s := Run(lim, steps).value;
      Enabled(s, DispatchHead(t, now)) <==>
        Waiting(s, t) > 0 && StarvingOwed(s, t) < lim.starvingCap && ActiveOwed(s, t) < lim.activeCap
  {
    WaitingIsQueued(lim, steps, t);
    CountersAreOwed(lim, steps, t);
    RunKeepsBooks(lim, steps);
  }

  // ----- Eviction -----

  /** The time at which the step touches the tag: an admission, a dispatch or an event. */
  function TouchedBy(s: System, step: Step, t: Tag): Option<int> {
    match step
    case AdmitFile(id, now) => if id < |s.files| && s.files[id].tag == t then Some(now) else None
    case DispatchHead(tag, now) => if tag == t then Some(now) else None
    case HandleEvent(now) => if s.queue != [] && s.queue[0].tag == t then Some(now) else None
    case _ => None
  }

  /** The time at which the run last touched the tag. */
  ghost function LastTouch(lim: Limits, steps: seq<Step>, t: Tag): int
    requires Run(lim, steps).Some?
  {
    if steps == [] then 0
    else
      var n := |steps| - 1;
      match TouchedBy(Run(lim, steps[..n]).value, steps[n], t)
      case Some(now) => now
      case None => LastTouch(lim, steps[..n], t)
  }

  lemma StepKeepsLastSeen(s: System, step: Step, t: Tag)
    requires Enabled(s, step) && t in Apply(s, step).books.tags
    ensures match TouchedBy(s, step, t)
      case Some(now) => Apply(s, step).books.tags[t].lastSeen == now
      case None => t in s.books.tags && Apply(s, step).books.tags[t].lastSeen == s.books.tags[t].lastSeen
  {
  }

  lemma {:induction false} LastSeenIsLastTouch(lim: Limits, steps: seq<Step>, t: Tag)
    requires lim.Valid() && Run(lim, steps).Some? && t in Run(lim, steps).value.books.tags
    ensures Run(lim, steps).value.books.tags[t].lastSeen == LastTouch(lim, steps, t)
  {
    if steps != [] {
      var n := |steps| - 1;
      var s := Run(lim, steps[..n]).value;
      StepKeepsLastSeen(s, steps[n], t);
      if TouchedBy(s, steps[n], t).None? {
        LastSeenIsLastTouch(lim, steps[..n], t);
      }
    }
  }

  lemma RemovedExactlyWhen(lim: Limits, steps: seq<Step>, t: Tag, now: int)
    requires lim.Valid() && Run(lim, steps).Some? && !Run(lim, steps).value.exited
    requires t in Run(lim, steps).value.books.tags
    ensures var s := Run(lim, steps).value; var left := Evict(lim, s.books.tags, now);
      var quiet := now - LastTouch(lim, steps, t);
      && (t !in left <==>
            && quiet >= 10_000_000_000 && quiet >= lim.emaWindow
            && Waiting(s, t) == 0 && ActiveOwed(s, t) == 0 && StarvingOwed(s, t) == 0
            && s.books.tags[t].ema < 0.000001)
      && (t in left ==> left[t] == s.books.tags[t])
      && left.Keys <= s.books.tags.Keys
  {
    var s := Run(lim, steps).value;
    LastSeenIsLastTouch(lim, steps, t);
    WaitingIsQueued(lim, steps, t);
    OwedCounters(lim, steps, t);
  }

  lemma EvictionStep(s: System, now: int)
    requires !s.exited
    ensures Apply(s, EvictIdle(now)).books.tags == Evict(s.lim, s.books.tags, now)
  {
  }

  lemma RunKeepsLimits(lim: Limits, steps: seq<Step>)
    requires lim.Valid() && Run(lim, steps).Some?
    ensures Run(lim, steps).value.lim == lim
  {
    RunKeepsBooks(lim, steps);
  }

  /** In every reachable state before the exit an eviction removes a tag if and only if it
      was not touched for ten seconds or the averaging window, whichever is longer, no
      file of it waits, no event is owed to it, and its average is below a millionth; it
      changes nothing of the others. */
  lemma EvictedExactlyWhen(lim: Limits, steps: seq<Step>, t: Tag, now: int)
    requires lim.Valid() && Run(lim, steps).Some? && !Run(lim, steps).value.exited
    requires t in Run(lim, steps).value.books.tags
    ensures var s := Run(lim, steps).value; var left := Apply(s, EvictIdle(now)).books.tags;
      var quiet := now - LastTouch(lim, steps, t);
      && (t !in left <==>
            && quiet >= 10_000_000_000 && quiet >= lim.emaWindow
            && Waiting(s, t) == 0 && ActiveOwed(s, t) == 0 && StarvingOwed(s, t) == 0
            && s.books.tags[t].ema < 0.000001)
      && (t in left ==> left[t] == s.books.tags[t])
      && left.Keys <= s.books.tags.Keys
  {
    RemovedExactlyWhen(lim, steps, t, now);
    RunKeepsLimits(lim, steps);
    EvictionStep(Run(lim, steps).value, now);
  }

  lemma OwedCounters(lim: Limits, steps: seq<Step>, t: Tag)
    requires lim.Valid() && Run(lim, steps).Some? && t in Run(lim, steps).value.books.tags
    ensures var s := Run(lim, steps).value;
      && s.books.tags[t].active == ActiveOwed(s, t) >= 0 && s.books.tags[t].starving == StarvingOwed(s, t) >= 0
      && s.lim == lim
  {
    CountersAreOwed(lim, steps, t);
    RunKeepsBooks(lim, steps);
    assert CountersValid(lim, Run(lim, steps).value.books.tags[t]);
  }

  // ----- Refusal and the end -----

  /** A submitted file is refused by a shed or because its submitter gave up, and by
      nothing else. */
  lemma RefusedExactlyWhen(s: System, step: Step, id: nat)
    requires Enabled(s, step) && id < |s.files| && s.files[id].phase != Refused
    ensures id < |Apply(s, step).files| && Apply(s, step).files[id].tag == s.files[id].tag
    ensures Apply(s, step).files[id].phase == Refused <==>
      || step == AbandonSubmit(id)
      || (step.AdmitFile? && step.id == id && Admit(s.lim, s.books, File(id, s.files[id].tag), step.now).1.Some?)
  {
  }

  predicate Stops(step: Step) {
    step.CloseStop? || step.ExitLoop?
  }

  /** The loop is over once it has left, and hooks may give events up from the first
      request to stop on. */
  lemma {:induction false} StoppedExactlyWhen(lim: Limits, steps: seq<Step>)
    requires Run(lim, steps).Some?
    ensures Run(lim, steps).value.stopClosed <==> exists k :: 0 <= k < |steps| && Stops(steps[k])
    ensures Run(lim, steps).value.exited <==> exists k :: 0 <= k < |steps| && steps[k].ExitLoop?
  {
    if steps != [] {
      var n := |steps| - 1;
      StoppedExactlyWhen(lim, steps[..n]);
      assert forall k :: 0 <= k < n ==> steps[..n][k] == steps[k];
      StopStep(Run(lim, steps[..n]).value, steps[n]);
    }
  }

  lemma StopStep(s: System, step: Step)
    requires Enabled(s, step)
    ensures Apply(s, step).stopClosed <==> s.stopClosed || Stops(step)
    ensures Apply(s, step).exited <==> s.exited || step.ExitLoop?
  {
  }
}
